/** The write-boundary caps on client-supplied JSON: explicit-stack walks that must decide the
    same thing as a statement about every node of the tree. */
module Admission {
  import opened Wrappers
  import opened JsonValue

  const MAX_PROVENANCE_KEYS: nat := 12
  const MAX_PROVENANCE_VALUE_LEN: nat := 512
  const MAX_PROVENANCE_DEPTH: nat := 3
  const MAX_CREATED_BY_BYTES: nat := 4096
  const MAX_DESCRIPTION_LEN: nat := 16384
  const MAX_METADATA_KEYS: nat := 24
  const MAX_METADATA_VALUE_LEN: nat := 2048
  const MAX_METADATA_DEPTH: nat := 4
  const MAX_METADATA_BYTES: nat := 32768

  /** A predicate on a node and its nesting level (the root sits at level 1). */
  type NodeTest = (Json, nat) -> bool

  ghost predicate FailsAt(bad: NodeTest, v: Json, depth: nat, path: seq<Hop>) {
    NodeAt(v, path).Some? && bad(NodeAt(v, path).value, depth + |path|)
  }

  /** Some node of `v`, counted from level `depth`, is bad. */
  ghost predicate Fails(bad: NodeTest, v: Json, depth: nat) {
    exists path :: FailsAt(bad, v, depth, path)
  }

  lemma FailsStep(bad: NodeTest, v: Json, depth: nat)
    ensures Fails(bad, v, depth) <==>
            bad(v, depth) || exists hop :: Child(v, hop).Some? && Fails(bad, Child(v, hop).value, depth + 1)
  {
    if Fails(bad, v, depth) {
      var path :| FailsAt(bad, v, depth, path);
      if path != [] {
        assert FailsAt(bad, Child(v, path[0]).value, depth + 1, path[1..]);
      }
    }
    if bad(v, depth) {
      assert FailsAt(bad, v, depth, []);
    }
    if hop :| Child(v, hop).Some? && Fails(bad, Child(v, hop).value, depth + 1) {
      var rest :| FailsAt(bad, Child(v, hop).value, depth + 1, rest);
      assert ([hop] + rest)[1..] == rest;
      assert FailsAt(bad, v, depth, [hop] + rest);
    }
  }

  // ---- Pending work ---------------------------------------------------------------------

  datatype Frame = Frame(node: Json, depth: nat, path: seq<Hop>)

  ghost predicate FailsOnStack(bad: NodeTest, stack: seq<Frame>) {
    exists i :: 0 <= i < |stack| && Fails(bad, stack[i].node, stack[i].depth)
  }

  ghost function StackWeight(stack: seq<Frame>): nat {
    if stack == [] then 0 else StackWeight(stack[..|stack| - 1]) + Weight(stack[|stack| - 1].node)
  }

  lemma {:induction false} StackWeightConcat(a: seq<Frame>, b: seq<Frame>)
    ensures StackWeight(a + b) == StackWeight(a) + StackWeight(b)
  {
    if b == [] {
      assert a + b == a;
    } else {
      assert (a + b)[..|a + b| - 1] == a + b[..|b| - 1];
      StackWeightConcat(a, b[..|b| - 1]);
    }
  }

  /** `frames` are exactly the children of `parent`, one level down. */
  ghost predicate ChildFrames(parent: Frame, frames: seq<Frame>) {
    && (forall i | 0 <= i < |frames| :: FrameOfChild(parent, frames[i]))
    && (forall hop | Child(parent.node, hop).Some? :: ChildFrame(parent, hop) in frames)
  }

  function ChildFrame(parent: Frame, hop: Hop): Frame
    requires Child(parent.node, hop).Some?
  {
    Frame(Child(parent.node, hop).value, parent.depth + 1, parent.path + [hop])
  }

  ghost predicate FrameOfChild(parent: Frame, f: Frame) {
    exists hop :: Child(parent.node, hop).Some? && f == ChildFrame(parent, hop)
  }

  method Children(parent: Frame) returns (frames: seq<Frame>)
    requires parent.node.Container()
    ensures ChildFrames(parent, frames)
    ensures StackWeight(frames) + 1 == Weight(parent.node)
  {
    if parent.node.Arr? {
      frames := ItemFrames(parent);
    } else {
      frames := FieldFrames(parent);
    }
  }

  method ItemFrames(parent: Frame) returns (frames: seq<Frame>)
    requires parent.node.Arr?
    ensures ChildFrames(parent, frames)
    ensures StackWeight(frames) + 1 == Weight(parent.node)
  {
    var items := parent.node.items;
    frames := [];
    for i := 0 to |items|
      invariant |frames| == i
      invariant forall j | 0 <= j < i :: frames[j] == ChildFrame(parent, Index(j))
      invariant StackWeight(frames) == WeightOfItems(parent.node, items[..i])
    {
      var f := ChildFrame(parent, Index(i));
      assert (frames + [f])[..i] == frames && items[..i + 1][..i] == items[..i];
      frames := frames + [f];
    }
    assert items[..|items|] == items;
    forall i | 0 <= i < |frames| ensures FrameOfChild(parent, frames[i]) {
      assert Child(parent.node, Index(i)).Some?;
    }
    forall hop | Child(parent.node, hop).Some? ensures ChildFrame(parent, hop) in frames {
      assert frames[hop.index] == ChildFrame(parent, hop);
    }
  }

  /** `frames` holds the children of `parent` under every key but those in `rest`. */
  ghost predicate FramesButFor(parent: Frame, frames: seq<Frame>, rest: JsonObject)
    requires parent.node.Obj?
  {
    && (forall k | k in rest :: k in parent.node.fields && rest[k] == parent.node.fields[k])
    && (forall i | 0 <= i < |frames| :: FrameOfChild(parent, frames[i]))
    && (forall k | k in parent.node.fields && k !in rest :: ChildFrame(parent, Key(k)) in frames)
  }

  lemma NextFieldFrame(parent: Frame, frames: seq<Frame>, rest: JsonObject, k: string)
    requires parent.node.Obj? && FramesButFor(parent, frames, rest) && k in rest
    ensures FramesButFor(parent, frames + [ChildFrame(parent, Key(k))], rest - {k})
  {
    var f := ChildFrame(parent, Key(k));
    assert FrameOfChild(parent, f);
    hide FrameOfChild, ChildFrame;
    assert forall i | 0 <= i < |frames + [f]| :: (frames + [f])[i] == f || (frames + [f])[i] == frames[i];
    forall j | j in parent.node.fields && j !in rest - {k} ensures ChildFrame(parent, Key(j)) in frames + [f] {
      assert j == k || ChildFrame(parent, Key(j)) in frames;
    }
  }

  lemma AllFieldFrames(parent: Frame, frames: seq<Frame>)
    requires parent.node.Obj? && FramesButFor(parent, frames, map[])
    ensures ChildFrames(parent, frames)
  {
    hide FrameOfChild;
    forall hop | Child(parent.node, hop).Some? ensures ChildFrame(parent, hop) in frames {
      assert hop == Key(hop.key);
    }
  }

  method FieldFrames(parent: Frame) returns (frames: seq<Frame>)
    requires parent.node.Obj?
    ensures ChildFrames(parent, frames)
    ensures StackWeight(frames) + 1 == Weight(parent.node)
  {
    var rest := parent.node.fields;
    frames := [];
    assert StackWeight(frames) + WeightOfFields(parent.node, rest) + 1 == Weight(parent.node);
    assert FramesButFor(parent, frames, rest);
    hide Weight, WeightOfFields, StackWeight, ChildFrames, ChildFrame, FrameOfChild;
    while rest != map[]
      invariant FramesButFor(parent, frames, rest)
      invariant StackWeight(frames) + WeightOfFields(parent.node, rest) + 1 == Weight(parent.node)
      decreases |rest|
    {
      var k :| k in rest;
      FieldWeight(parent.node, rest, k);
      NextFieldFrame(parent, frames, rest, k);
      var f := ChildFrame(parent, Key(k));
      StackWeightSnoc(frames, f);
      ChildFrameNode(parent, k);
      frames := frames + [f];
      rest := rest - {k};
    }
    NoFieldWeight(parent.node);
    AllFieldFrames(parent, frames);
  }

  lemma ChildFrameNode(parent: Frame, k: string)
    requires parent.node.Obj? && k in parent.node.fields
    ensures ChildFrame(parent, Key(k)).node == parent.node.fields[k]
  {
  }

  lemma NoFieldWeight(owner: Json)
    ensures WeightOfFields(owner, map[]) == 0
  {
  }

  lemma StackWeightSnoc(frames: seq<Frame>, f: Frame)
    ensures StackWeight(frames + [f]) == StackWeight(frames) + Weight(f.node)
  {
    hide Weight;
    assert (frames + [f])[..|frames|] == frames;
  }

  lemma FailsOnConcat(bad: NodeTest, a: seq<Frame>, b: seq<Frame>)
    ensures FailsOnStack(bad, a + b) <==> FailsOnStack(bad, a) || FailsOnStack(bad, b)
  {
    if i :| 0 <= i < |a| && Fails(bad, a[i].node, a[i].depth) {
      assert (a + b)[i] == a[i];
    }
    if i :| 0 <= i < |b| && Fails(bad, b[i].node, b[i].depth) {
      assert (a + b)[|a| + i] == b[i];
    }
  }

  lemma FailsOnChildren(bad: NodeTest, parent: Frame, frames: seq<Frame>)
    requires !bad(parent.node, parent.depth) && ChildFrames(parent, frames)
    ensures FailsOnStack(bad, frames) <==> Fails(bad, parent.node, parent.depth)
  {
    FailsStep(bad, parent.node, parent.depth);
    if FailsOnStack(bad, frames) {
      var i :| 0 <= i < |frames| && Fails(bad, frames[i].node, frames[i].depth);
      assert FrameOfChild(parent, frames[i]);
    }
    if hop :| Child(parent.node, hop).Some? && Fails(bad, Child(parent.node, hop).value, parent.depth + 1) {
      assert ChildFrame(parent, hop) in frames;
    }
  }

  /** One turn of a walk: popping a good node and pushing its children decides nothing and
      makes the pending work smaller. */
  lemma PopAndPush(bad: NodeTest, rest: seq<Frame>, top: Frame, frames: seq<Frame>)
    requires !bad(top.node, top.depth) && ChildFrames(top, frames)
    ensures FailsOnStack(bad, rest + [top]) <==> FailsOnStack(bad, rest + frames)
    ensures StackWeight(rest + frames) + Weight(top.node) == StackWeight(rest + [top]) + StackWeight(frames)
  {
    StackWeightConcat(rest, frames);
    assert (rest + [top])[..|rest|] == rest;
    FailsOnConcat(bad, rest, frames);
    FailsOnConcat(bad, rest, [top]);
    FailsOnChildren(bad, top, frames);
    assert FailsOnStack(bad, [top]) <==> Fails(bad, top.node, top.depth) by {
      assert [top][0] == top;
    }
  }

  lemma LeafHasNoChildren(f: Frame)
    requires !f.node.Container()
    ensures ChildFrames(f, []) && Weight(f.node) == 1
  {
  }

  // ---- The depth walk -------------------------------------------------------------------

  function TooDeep(limit: nat): NodeTest {
    (node: Json, depth: nat) => node.Container() && depth > limit
  }

  lemma TooDeepIs(limit: nat, v: Json)
    ensures Fails(TooDeep(limit), v, 1) <==>
            exists path :: NodeAt(v, path).Some? && NodeAt(v, path).value.Container() && |path| >= limit
  {
    if Fails(TooDeep(limit), v, 1) {
      var path :| FailsAt(TooDeep(limit), v, 1, path);
    }
    if path :| NodeAt(v, path).Some? && NodeAt(v, path).value.Container() && |path| >= limit {
      assert FailsAt(TooDeep(limit), v, 1, path);
    }
  }

  /** True exactly when some object or array of `value` sits deeper than `limit` levels. */
  method ExceedsDepth(value: Json, limit: nat) returns (exceeds: bool)
    ensures exceeds <==> Fails(TooDeep(limit), value, 1)
    // The same, of the tree alone.
    ensures exceeds <==> exists path :: NodeAt(value, path).Some? && NodeAt(value, path).value.Container() && |path| >= limit
  {
    TooDeepIs(limit, value);
    var stack := [Frame(value, 1, [])];
    ghost var bad := TooDeep(limit);
    while stack != []
      invariant Fails(bad, value, 1) <==> FailsOnStack(bad, stack)
      decreases StackWeight(stack)
    {
      var top := stack[|stack| - 1];
      ghost var before := stack;
      stack := stack[..|stack| - 1];
      assert before == stack + [top];
      if !top.node.Container() {
        LeafHasNoChildren(top);
        PopAndPush(bad, stack, top, []);
        assert stack + [] == stack;
        continue;
      }
      if top.depth > limit {
        FailsStep(bad, top.node, top.depth);
        assert before[|before| - 1] == top;
        return true;
      }
      var frames := Children(top);
      PopAndPush(bad, stack, top, frames);
      stack := stack + frames;
    }
    return false;
  }

  // ---- The granular metadata walk ---------------------------------------------------------

  datatype CapError =
    | DepthCap(path: seq<Hop>)
    | KeyCap(path: seq<Hop>)
    | LengthCap(path: seq<Hop>)
    | ByteCap

  predicate OverDepth(node: Json, depth: nat) {
    node.Container() && depth > MAX_METADATA_DEPTH
  }

  predicate OverKeys(node: Json) {
    node.Obj? && |node.fields| > MAX_METADATA_KEYS
  }

  predicate OverLength(node: Json) {
    node.Str? && |node.s| > MAX_METADATA_VALUE_LEN
  }

  predicate OverCap(node: Json, depth: nat) {
    OverDepth(node, depth) || OverKeys(node) || OverLength(node)
  }

  /** The error names a node that exists and the cap that node really exceeds. */
  ghost predicate Truthful(v: Json, e: CapError) {
    !e.ByteCap? && NodeAt(v, e.path).Some? &&
    var node := NodeAt(v, e.path).value;
    match e
    case DepthCap(path) => OverDepth(node, |path| + 1)
    case KeyCap(_) => OverKeys(node)
    case LengthCap(_) => OverLength(node)
    case ByteCap => false
  }

  ghost predicate Located(v: Json, stack: seq<Frame>) {
    forall i | 0 <= i < |stack| :: NodeAt(v, stack[i].path) == Some(stack[i].node) && stack[i].depth == |stack[i].path| + 1
  }

  lemma LocatedChildren(v: Json, rest: seq<Frame>, top: Frame, frames: seq<Frame>)
    requires Located(v, rest + [top]) && ChildFrames(top, frames)
    ensures Located(v, rest + frames)
  {
    assert (rest + [top])[|rest|] == top;
    forall i | 0 <= i < |rest + frames|
      ensures NodeAt(v, (rest + frames)[i].path) == Some((rest + frames)[i].node)
      ensures (rest + frames)[i].depth == |(rest + frames)[i].path| + 1
    {
      if i < |rest| {
        assert (rest + [top])[i] == rest[i];
      } else {
        var f := frames[i - |rest|];
        assert FrameOfChild(top, f);
        var hop :| Child(top.node, hop).Some? && f == ChildFrame(top, hop);
        NodeAtSnoc(v, top.path, top.node, hop);
      }
    }
  }

  /** Rejects exactly when some node, at whatever depth, is over a granular cap. */
  method WalkMetadataGranularCaps(v: Json) returns (r: Result<(), CapError>)
    ensures r.Failure? <==> Fails(OverCap, v, 1)
    ensures r.Failure? ==> Truthful(v, r.error)
  {
    var stack := [Frame(v, 1, [])];
    while stack != []
      invariant Fails(OverCap, v, 1) <==> FailsOnStack(OverCap, stack)
      invariant Located(v, stack)
      decreases StackWeight(stack)
    {
      var top := stack[|stack| - 1];
      ghost var before := stack;
      stack := stack[..|stack| - 1];
      assert before == stack + [top];
      if OverCap(top.node, top.depth) {
        FailsStep(OverCap, top.node, top.depth);
        assert FailsOnStack(OverCap, before);
        if top.node.Container() && top.depth > MAX_METADATA_DEPTH {
          return Failure(DepthCap(top.path));
        } else if top.node.Obj? {
          return Failure(KeyCap(top.path));
        } else {
          return Failure(LengthCap(top.path));
        }
      }
      var frames := [];
      if top.node.Container() {
        frames := Children(top);
      } else {
        LeafHasNoChildren(top);
      }
      PopAndPush(OverCap, stack, top, frames);
      LocatedChildren(v, stack, top, frames);
      stack := stack + frames;
    }
    return Success(());
  }

  // ---- The caps as the write paths use them ----------------------------------------------

  /** `size` stands for the length of the serialized value in bytes. */
  ghost predicate MetadataAdmissible(size: Json -> nat, metadata: JsonObject) {
    !Fails(OverCap, Obj(metadata), 1) && size(Obj(metadata)) <= MAX_METADATA_BYTES
  }

  /** The node at the end of `path` is within every cap on single nodes. */
  predicate WithinCaps(node: Json, path: seq<Hop>) {
    (node.Container() ==> |path| < 4) && (node.Obj? ==> |node.fields| <= 24) && (node.Str? ==> |node.s| <= 2048)
  }

  /** The caps, node by node: containers at most four deep, objects of at most 24 keys, texts of at
      most 2048 characters, 32768 bytes in all. */
  lemma MetadataAdmissibleIff(size: Json -> nat, metadata: JsonObject)
    ensures MetadataAdmissible(size, metadata) <==>
            && size(Obj(metadata)) <= 32768
            && forall path | NodeAt(Obj(metadata), path).Some? :: WithinCaps(NodeAt(Obj(metadata), path).value, path)
  {
    var v := Obj(metadata);
    forall path | NodeAt(v, path).Some? ensures FailsAt(OverCap, v, 1, path) <==> !WithinCaps(NodeAt(v, path).value, path) {
    }
    hide WithinCaps, OverCap;
    if Fails(OverCap, v, 1) {
      var path :| FailsAt(OverCap, v, 1, path);
      assert !WithinCaps(NodeAt(v, path).value, path);
    } else {
      forall path | NodeAt(v, path).Some? ensures WithinCaps(NodeAt(v, path).value, path) {
        assert !FailsAt(OverCap, v, 1, path);
      }
    }
  }

  /** The provenance caps: besides type and id at most twelve keys, their texts at most 512
      characters, containers at most three deep, 4096 bytes in all. */
  lemma CreatedByAdmissibleIff(size: Json -> nat, v: JsonObject)
    ensures CreatedByAdmissible(size, v) <==>
            && |v.Keys - {"type", "id"}| <= 12
            && (forall k | k in v && k != "type" && k != "id" && v[k].Str? :: |v[k].s| <= 512)
            && (forall path | NodeAt(Obj(v), path).Some? && NodeAt(Obj(v), path).value.Container() :: |path| < 3)
            && size(Obj(v)) <= 4096
  {
    assert ProvenanceKeys(v) == v.Keys - {"type", "id"};
    TooDeepIs(MAX_PROVENANCE_DEPTH, Obj(v));
  }

  method CheckMetadataLimits(size: Json -> nat, metadata: JsonObject) returns (r: Result<(), CapError>)
    ensures r.Success? <==> MetadataAdmissible(size, metadata)
    ensures r.Failure? && !r.error.ByteCap? ==> Truthful(Obj(metadata), r.error)
  {
    r := WalkMetadataGranularCaps(Obj(metadata));
    if r.Success? && size(Obj(metadata)) > MAX_METADATA_BYTES {
      r := Failure(ByteCap);
    }
  }

  function ProvenanceKeys(v: JsonObject): set<string> {
    set k | k in v && k != "type" && k != "id"
  }

  predicate ValuesShort(v: JsonObject) {
    forall k | k in ProvenanceKeys(v) :: v[k].Str? ==> |v[k].s| <= MAX_PROVENANCE_VALUE_LEN
  }

  ghost predicate CreatedByAdmissible(size: Json -> nat, v: JsonObject) {
    && |ProvenanceKeys(v)| <= MAX_PROVENANCE_KEYS
    && ValuesShort(v)
    && !Fails(TooDeep(MAX_PROVENANCE_DEPTH), Obj(v), 1)
    && size(Obj(v)) <= MAX_CREATED_BY_BYTES
  }

  datatype ProvenanceCap = TooManyKeys | ValueTooLong(key: string) | NestedTooDeep | TooManyBytes

  /** The cap named is really exceeded, and everything checked before it is within bounds. */
  ghost predicate Blames(size: Json -> nat, v: JsonObject, cap: ProvenanceCap) {
    match cap
    case TooManyKeys => |ProvenanceKeys(v)| > MAX_PROVENANCE_KEYS
    case ValueTooLong(k) =>
      |ProvenanceKeys(v)| <= MAX_PROVENANCE_KEYS && k in ProvenanceKeys(v) && v[k].Str? && |v[k].s| > MAX_PROVENANCE_VALUE_LEN
    case NestedTooDeep =>
      |ProvenanceKeys(v)| <= MAX_PROVENANCE_KEYS && ValuesShort(v) && Fails(TooDeep(MAX_PROVENANCE_DEPTH), Obj(v), 1)
    case TooManyBytes =>
      && |ProvenanceKeys(v)| <= MAX_PROVENANCE_KEYS && ValuesShort(v) && !Fails(TooDeep(MAX_PROVENANCE_DEPTH), Obj(v), 1)
      && size(Obj(v)) > MAX_CREATED_BY_BYTES
  }

  method CheckCreatedByLimits(size: Json -> nat, v: JsonObject) returns (r: Result<(), ProvenanceCap>)
    ensures r.Success? <==> CreatedByAdmissible(size, v)
    ensures r.Failure? ==> Blames(size, v, r.error)
  {
    var keys := ProvenanceKeys(v);
    if |keys| > MAX_PROVENANCE_KEYS {
      return Failure(TooManyKeys);
    }
    var rest := keys;
    while rest != {}
      invariant rest <= keys
      invariant forall k | k in keys && k !in rest :: v[k].Str? ==> |v[k].s| <= MAX_PROVENANCE_VALUE_LEN
    {
      var k :| k in rest;
      if v[k].Str? && |v[k].s| > MAX_PROVENANCE_VALUE_LEN {
        return Failure(ValueTooLong(k));
      }
      rest := rest - {k};
    }
    var deep := ExceedsDepth(Obj(v), MAX_PROVENANCE_DEPTH);
    if deep {
      return Failure(NestedTooDeep);
    }
    if size(Obj(v)) > MAX_CREATED_BY_BYTES {
      return Failure(TooManyBytes);
    }
    return Success(());
  }
}
