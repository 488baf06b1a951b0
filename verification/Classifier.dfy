/** Tiering of tool calls: the class of a set of tools is the worst class in it, and every doubt
    is resolved upwards. */
module Classifier {
  import opened Strings

  datatype Class = Read | Mutate | Dual | Apex | Delegate

  /** Rank for the maximum; the dynamic class has no rank of its own and defaults to the top. */
  function Rank(c: Class): nat {
    match c
    case Read => 1
    case Mutate => 2
    case Dual => 3
    case Apex => 4
    case Delegate => 4
  }

  /** The tier a class is routed to: self-accept, single judge, dual sign-off, human. */
  function TierOf(c: Class): nat
    requires c != Delegate
  {
    Rank(c)
  }

  const READ_TOOLS: set<string> := {
    "read_file", "web_search", "web_extract", "search_files", "session_search", "skills_list", "skill_view",
    "read_terminal", "vision_analyze", "board_get", "card_list", "escalation_list"}

  const MUTATE_TOOLS: set<string> := {"write_file", "patch", "card_create", "card_update", "card_move", "card_delete"}

  const APEX_TOOLS: set<string> := {"terminal", "execute_code", "escalation_resolve"}

  /** Apex whatever the configuration says. */
  const APEX_LOCKED: set<string> := {"terminal", "execute_code", "escalation_resolve"}

  const DELEGATING_TOOL := "delegate_task"

  type Overrides = map<string, Class>

  /** Configuration may only assign the four static classes. */
  predicate ValidConfig(cfg: Overrides) {
    forall t | t in cfg :: cfg[t] != Delegate
  }

  predicate Mapped(tool: string) {
    tool in READ_TOOLS + MUTATE_TOOLS + APEX_TOOLS || tool == DELEGATING_TOOL
  }

  function DefaultClass(tool: string): Class
    requires Mapped(tool)
  {
    if tool in READ_TOOLS then Read
    else if tool in MUTATE_TOOLS then Mutate
    else if tool in APEX_TOOLS then Apex
    else Delegate
  }

  function MaxClass(a: Class, b: Class): Class {
    if Rank(a) >= Rank(b) then a else b
  }

  function EffectiveClass(tool: string, cfg: Overrides): Class {
    if tool in APEX_LOCKED then Apex
    else if Mapped(tool) then
      if DefaultClass(tool) == Delegate then Delegate
      else if tool in cfg then MaxClass(DefaultClass(tool), cfg[tool])
      else DefaultClass(tool)
    else if tool in cfg then cfg[tool]
    else Apex
  }

  /** The class a tool contributes to a set: one that can delegate can reach anything. */
  function Scored(tool: string, cfg: Overrides): Class {
    if EffectiveClass(tool, cfg) == Delegate then Apex else EffectiveClass(tool, cfg)
  }

  /** `c` is the class of a scope: the greatest class in it, and apex when there is nothing in it. */
  ghost predicate IsWorst(scope: set<string>, cfg: Overrides, c: Class) {
    if scope == {} then c == Apex
    else (exists t :: t in scope && c == Scored(t, cfg)) && forall t | t in scope :: Rank(Scored(t, cfg)) <= Rank(c)
  }

  function ScopeOf(tools: set<string>): set<string> {
    set t | t in tools && !Blank(t)
  }

  /** Fold the maximum over the set in whatever order it is iterated, stopping early at apex. */
  method MaxClassOverTools(tools: set<string>, cfg: Overrides) returns (worst: Class)
    ensures worst != Delegate && IsWorst(ScopeOf(tools), cfg, worst)
  {
    var scope := ScopeOf(tools);
    if scope == {} {
      return Apex;
    }
    hide EffectiveClass;
    worst := Read;
    var rest := scope;
    while rest != {}
      invariant rest <= scope && worst != Delegate
      invariant worst == Read || exists t :: t in scope && worst == Scored(t, cfg)
      invariant forall t | t in scope - rest :: Rank(Scored(t, cfg)) <= Rank(worst)
    {
      var t :| t in rest;
      rest := rest - {t};
      var klass := EffectiveClass(t, cfg);
      if klass == Delegate {
        klass := Apex;
      }
      worst := MaxClass(worst, klass);
      if worst == Apex {
        assert forall u :: Rank(Scored(u, cfg)) <= Rank(Apex);
        return;
      }
    }
    if worst == Read {
      var t :| t in scope;
      assert Rank(Scored(t, cfg)) <= Rank(Read);
    }
  }

  // ---- What the class of a scope is worth ---------------------------------------------------------

  /** One answer per set: iteration order and the early stop do not matter. */
  lemma WorstIsUnique(scope: set<string>, cfg: Overrides, a: Class, b: Class)
    requires IsWorst(scope, cfg, a) && IsWorst(scope, cfg, b)
    ensures a == b && a != Delegate
  {
    hide EffectiveClass;
  }

  /** Apex exactly when there is nothing known about the scope, or something in it is apex or
      can delegate. */
  lemma ApexIff(scope: set<string>, cfg: Overrides, c: Class)
    requires IsWorst(scope, cfg, c)
    ensures c == Apex <==> scope == {} || exists t :: t in scope && EffectiveClass(t, cfg) in {Apex, Delegate}
  {
    hide EffectiveClass;
  }

  /** Adding tools never lowers the class, except that naming a first tool may. */
  lemma GrowingScope(scope: set<string>, more: set<string>, cfg: Overrides, a: Class, b: Class)
    requires IsWorst(scope, cfg, a) && IsWorst(scope + more, cfg, b)
    ensures Rank(a) <= Rank(b) <==> scope != {} || b == Apex
  {
    hide EffectiveClass;
    WorstIsUnique(scope + more, cfg, b, b);
    if scope != {} {
      var t :| t in scope && a == Scored(t, cfg);
      assert t in scope + more;
    }
  }

  /** The only tools a configuration can make safer are those the map does not know. */
  lemma ConfigLowersIff(tool: string, cfg: Overrides)
    requires ValidConfig(cfg)
    ensures Rank(Scored(tool, cfg)) < Rank(Scored(tool, map[])) <==> !Mapped(tool) && tool in cfg && cfg[tool] != Apex
  {
    hide READ_TOOLS, MUTATE_TOOLS;
    assert tool in APEX_LOCKED ==> Mapped(tool);
  }

  /** The class of every tool, spelled out: locked and delegating tools are out of reach of the
      configuration, a known tool can be raised but not lowered, an unknown one is apex unless the
      configuration says otherwise. */
  lemma EffectiveClassIs(tool: string, cfg: Overrides)
    requires ValidConfig(cfg)
    ensures tool in {"terminal", "execute_code", "escalation_resolve"} ==> EffectiveClass(tool, cfg) == Apex
    ensures tool == "delegate_task" ==> EffectiveClass(tool, cfg) == Delegate
    ensures tool in READ_TOOLS ==> EffectiveClass(tool, cfg) == if tool in cfg then cfg[tool] else Read
    ensures tool in MUTATE_TOOLS ==>
              EffectiveClass(tool, cfg) == if tool in cfg && cfg[tool] in {Dual, Apex} then cfg[tool] else Mutate
    ensures tool !in READ_TOOLS + MUTATE_TOOLS + {"terminal", "execute_code", "escalation_resolve", "delegate_task"} ==>
              EffectiveClass(tool, cfg) == if tool in cfg then cfg[tool] else Apex
  {
    KnownToolsDiffer(tool);
    assert APEX_LOCKED == APEX_TOOLS == {"terminal", "execute_code", "escalation_resolve"} && DELEGATING_TOOL == "delegate_task";
    hide READ_TOOLS, MUTATE_TOOLS, APEX_TOOLS, APEX_LOCKED;
  }

  lemma KnownToolsDiffer(tool: string)
    ensures tool in READ_TOOLS ==> tool !in MUTATE_TOOLS + APEX_TOOLS + APEX_LOCKED && tool != DELEGATING_TOOL
    ensures tool in MUTATE_TOOLS ==> tool !in APEX_TOOLS + APEX_LOCKED && tool != DELEGATING_TOOL
    ensures DELEGATING_TOOL !in READ_TOOLS + MUTATE_TOOLS + APEX_TOOLS + APEX_LOCKED
  {
    ReadersDiffer(tool);
    DelegatingDiffers();
    hide READ_TOOLS, DELEGATING_TOOL;
  }

  lemma ReadersDiffer(tool: string)
    ensures tool in READ_TOOLS ==> tool !in MUTATE_TOOLS + APEX_TOOLS + APEX_LOCKED
  {
    assert "session_search"[0] == 's' && "escalation_list"[0] == 'e';
    hide DELEGATING_TOOL;
  }

  lemma DelegatingDiffers()
    ensures DELEGATING_TOOL !in READ_TOOLS + MUTATE_TOOLS + APEX_TOOLS + APEX_LOCKED
  {
    assert |DELEGATING_TOOL| == 13;
  }

  /** So for a scope of known tools no configuration gets below the hard-coded floor. */
  lemma FloorHolds(scope: set<string>, cfg: Overrides, bare: Class, configured: Class)
    requires ValidConfig(cfg) && forall t | t in scope :: Mapped(t)
    requires IsWorst(scope, map[], bare) && IsWorst(scope, cfg, configured)
    ensures Rank(bare) <= Rank(configured)
  {
    hide EffectiveClass, Mapped;
    if scope != {} {
      var t :| t in scope && bare == Scored(t, map[]);
      ConfigLowersIff(t, cfg);
    }
  }

  // ---- Delegation ---------------------------------------------------------------------------------

  /** What a toolset name expands to; empty when it is not one. */
  type Resolver = string -> seq<string>

  function Expansion(resolve: Resolver, entry: string): set<string> {
    if Blank(entry) then {}
    else if resolve(entry) != [] then set t | t in resolve(entry)
    else {entry}
  }

  /** Every tool the entries name or expand to. */
  function Expanded(resolve: Resolver, entries: seq<string>): set<string> {
    set i, t | 0 <= i < |entries| && t in Expansion(resolve, entries[i]) :: t
  }

  method ResolveEntriesToTools(entries: seq<string>, resolve: Resolver) returns (tools: set<string>)
    ensures tools == Expanded(resolve, entries)
  {
    tools := {};
    for i := 0 to |entries|
      invariant tools == Expanded(resolve, entries[..i])
    {
      tools := tools + Expansion(resolve, entries[i]);
    }
    assert entries[..|entries|] == entries;
  }

  /** The entries a delegate call is scored by: its own toolsets and those of its children, or
      the parent's reachable set when it names none. */
  function ChildEntries(toolsets: seq<string>, children: seq<seq<string>>): seq<string> {
    if children == [] then toolsets
    else ChildEntries(toolsets, children[..|children| - 1]) + children[|children| - 1]
  }

  /** `tier` is the tier of the worst tool the entries reach. */
  ghost predicate IsFloor(entries: seq<string>, resolve: Resolver, cfg: Overrides, tier: nat) {
    exists c: Class :: c != Delegate && IsWorst(ScopeOf(Expanded(resolve, entries)), cfg, c) && tier == TierOf(c)
  }

  method ClassifyDelegate(toolsets: seq<string>, children: seq<seq<string>>, reachable: seq<string>, resolve: Resolver, cfg: Overrides)
    returns (tier: nat)
    ensures var named := ChildEntries(toolsets, children);
            IsFloor(if named != [] then named else reachable, resolve, cfg, tier)
  {
    var named := toolsets;
    for i := 0 to |children|
      invariant named == ChildEntries(toolsets, children[..i])
    {
      assert children[..i + 1][..i] == children[..i];
      named := named + children[i];
    }
    assert children[..|children|] == children;
    hide ChildEntries;
    if named != [] {
      tier := ReachableFloor(named, resolve, cfg);
    } else if reachable != [] {
      tier := ReachableFloor(reachable, resolve, cfg);
    } else {
      assert IsWorst(ScopeOf(Expanded(resolve, [])), cfg, Apex);
      tier := TierOf(Apex);
    }
  }

  /** The dispatch floor of a reachable set. */
  method ReachableFloor(reachable: seq<string>, resolve: Resolver, cfg: Overrides) returns (tier: nat)
    ensures IsFloor(reachable, resolve, cfg, tier)
  {
    hide Expanded, ScopeOf, IsWorst;
    var tools := ResolveEntriesToTools(reachable, resolve);
    var c := MaxClassOverTools(tools, cfg);
    tier := TierOf(c);
  }

  /** Every entry that says something stands for the tools of its toolset or, if it is none, for the
      tool of that name; names that are blank do not count. */
  ghost predicate Names(entries: seq<string>, resolve: Resolver, tool: string) {
    && !Blank(tool)
    && exists i :: 0 <= i < |entries| && !Blank(entries[i])
         && (tool in resolve(entries[i]) || (resolve(entries[i]) == [] && tool == entries[i]))
  }

  lemma ScopeIs(entries: seq<string>, resolve: Resolver)
    ensures forall tool :: tool in ScopeOf(Expanded(resolve, entries)) <==> Names(entries, resolve, tool)
  {
    forall tool ensures tool in Expanded(resolve, entries) <==> exists i :: 0 <= i < |entries| && tool in Expansion(resolve, entries[i]) {
    }
    hide Expanded, Blank;
  }

  lemma {:induction false} ChildEntriesAre(toolsets: seq<string>, children: seq<seq<string>>)
    ensures forall e :: e in ChildEntries(toolsets, children) <==> e in toolsets || exists i :: 0 <= i < |children| && e in children[i]
  {
    if children != [] {
      var front, last := children[..|children| - 1], children[|children| - 1];
      assert children == front + [last];
      ChildEntriesAre(toolsets, front);
    }
  }

  /** What a tier says: 1, that there is a tool and all of them only read; up to 2, that they read or
      mutate; up to 3, that none is apex or delegates. Otherwise it is 4. */
  lemma TierMeans(entries: seq<string>, resolve: Resolver, cfg: Overrides, tier: nat)
    requires ValidConfig(cfg) && IsFloor(entries, resolve, cfg, tier)
    ensures 1 <= tier <= 4
    ensures tier <= 1 <==> (exists t :: Names(entries, resolve, t)) && forall t | Names(entries, resolve, t) :: EffectiveClass(t, cfg) == Read
    ensures tier <= 2 <==> (exists t :: Names(entries, resolve, t))
                           && forall t | Names(entries, resolve, t) :: EffectiveClass(t, cfg) in {Read, Mutate}
    ensures tier <= 3 <==> (exists t :: Names(entries, resolve, t))
                           && forall t | Names(entries, resolve, t) :: EffectiveClass(t, cfg) in {Read, Mutate, Dual}
  {
    ScopeIs(entries, resolve);
    var scope := ScopeOf(Expanded(resolve, entries));
    var c: Class :| c != Delegate && IsWorst(scope, cfg, c) && tier == TierOf(c);
    hide EffectiveClass, ScopeOf, Expanded, Names;
    WorstBounds(scope, cfg, c);
    assert scope == {} <==> forall t :: t !in scope;
  }

  lemma WorstBounds(scope: set<string>, cfg: Overrides, c: Class)
    requires IsWorst(scope, cfg, c) && c != Delegate
    ensures 1 <= Rank(c) <= 4
    ensures Rank(c) <= 1 <==> scope != {} && forall t | t in scope :: EffectiveClass(t, cfg) == Read
    ensures Rank(c) <= 2 <==> scope != {} && forall t | t in scope :: EffectiveClass(t, cfg) in {Read, Mutate}
    ensures Rank(c) <= 3 <==> scope != {} && forall t | t in scope :: EffectiveClass(t, cfg) in {Read, Mutate, Dual}
  {
    hide EffectiveClass;
    if scope != {} {
      var t :| t in scope && c == Scored(t, cfg);
    }
  }

  /** Whoever names a locked or a delegating tool, directly or through a toolset, is routed to
      the human, under any configuration. */
  lemma LockedToolsNeedTheHuman(entries: seq<string>, resolve: Resolver, cfg: Overrides, tier: nat, tool: string)
    requires IsFloor(entries, resolve, cfg, tier)
    requires tool in Expanded(resolve, entries) && (tool in APEX_LOCKED || tool == DELEGATING_TOOL)
    ensures tier == 4
  {
    var c: Class :| c != Delegate && IsWorst(ScopeOf(Expanded(resolve, entries)), cfg, c) && tier == TierOf(c);
    LockedToolIsTop(tool, cfg);
    LockedNamesAreNames(tool);
    hide EffectiveClass, Expanded, Blank, IsWorst;
    ApexIff(ScopeOf(Expanded(resolve, entries)), cfg, c);
  }

  lemma LockedNamesAreNames(tool: string)
    requires tool in APEX_LOCKED || tool == DELEGATING_TOOL
    ensures !Blank(tool)
  {
    assert "terminal"[0] == 't' && "execute_code"[0] == 'e' && "escalation_resolve"[0] == 'e' && DELEGATING_TOOL[0] == 'd';
    assert !IsSpace(tool[0]);
  }

  lemma LockedToolIsTop(tool: string, cfg: Overrides)
    requires tool in APEX_LOCKED || tool == DELEGATING_TOOL
    ensures EffectiveClass(tool, cfg) == Apex || EffectiveClass(tool, cfg) == Delegate
  {
    assert |DELEGATING_TOOL| == 13;
  }
}
