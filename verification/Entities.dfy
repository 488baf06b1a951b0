/** The four versioned entity kinds, the rows of the three append-only ledgers, and the one
    sum type a table row is. */
module Entities {
  import opened Wrappers
  import opened JsonValue

  datatype Kind = Projects | Tasks | Artifacts | Escalations

  datatype Project = Project(
    id: string,
    name: string,
    createdAt: Option<string>,
    version: Option<string>,
    deletedAt: Option<string>)

  datatype Task = Task(
    id: string,
    projectId: string,
    title: string,
    state: string,
    tier: Option<int>,
    acceptanceCriteria: Json,
    description: Option<string>,
    effort: Json,
    impact: Json,
    due: Option<string>,
    dependsOn: seq<string>,
    order: string,
    createdAt: Option<string>,
    version: Option<string>,
    deletedAt: Option<string>,
    archivedAt: Option<string>,
    createdBy: Json,
    metadata: JsonObject)

  datatype Artifact = Artifact(
    id: string,
    taskId: string,
    artifactKind: string,
    reference: string,
    createdAt: Option<string>,
    version: Option<string>,
    deletedAt: Option<string>)

  datatype Escalation = Escalation(
    id: string,
    taskId: string,
    reason: string,
    controlDiff: Json,
    resolvedAt: Option<string>,
    resolution: Option<string>,
    resolutionRationale: Option<string>,
    actor: Option<string>,
    createdAt: Option<string>,
    version: Option<string>,
    deletedAt: Option<string>)

  datatype RowKey = RowKey(kind: Kind, id: string)

  datatype Entity =
    | ProjectRow(project: Project)
    | TaskRow(task: Task)
    | ArtifactRow(artifact: Artifact)
    | EscalationRow(escalation: Escalation)
  {
    function Key(): RowKey {
      match this
      case ProjectRow(p) => RowKey(Projects, p.id)
      case TaskRow(t) => RowKey(Tasks, t.id)
      case ArtifactRow(a) => RowKey(Artifacts, a.id)
      case EscalationRow(e) => RowKey(Escalations, e.id)
    }

    function Version(): Option<string> {
      match this
      case ProjectRow(p) => p.version
      case TaskRow(t) => t.version
      case ArtifactRow(a) => a.version
      case EscalationRow(e) => e.version
    }

    function DeletedAt(): Option<string> {
      match this
      case ProjectRow(p) => p.deletedAt
      case TaskRow(t) => t.deletedAt
      case ArtifactRow(a) => a.deletedAt
      case EscalationRow(e) => e.deletedAt
    }

    function WithVersion(v: Option<string>): (e: Entity)
      ensures e.Version() == v && e.Key() == Key() && e.DeletedAt() == DeletedAt()
      ensures TaskRow? ==> e == TaskRow(task.(version := v))
    {
      match this
      case ProjectRow(p) => ProjectRow(p.(version := v))
      case TaskRow(t) => TaskRow(t.(version := v))
      case ArtifactRow(a) => ArtifactRow(a.(version := v))
      case EscalationRow(e) => EscalationRow(e.(version := v))
    }
  }

  /** A token is all that stamping changes, whatever the kind of row. */
  lemma OnlyTheToken(e: Entity, v: Option<string>)
    ensures e.WithVersion(v).WithVersion(e.Version()) == e && e.WithVersion(v).Version() == v
  {
  }

  const STATES: seq<string> := ["created", "tiered", "dispatched", "judged", "delivered", "failed"]

  // Ledger rows. Row ids are fresh UUIDs and play no part in what the ledgers say.

  datatype TierRow = TierRow(
    cardId: string, oldTier: int, newTier: int, reducesControl: bool, actor: string, reason: string, ts: string)

  datatype ArchiveAction = DoArchive | DoUnarchive

  datatype ArchiveRow = ArchiveRow(cardId: string, action: ArchiveAction, actor: string, reason: string, ts: string)

  datatype EditField = Title | Description | Effort | Impact | Due | DependsOn | DeletedAt

  datatype EditRow = EditRow(cardId: string, field: EditField, was: Json, now: Json, actor: string, ts: string)

  function OptStr(s: Option<string>): Json {
    match s
    case None => Null
    case Some(v) => Str(v)
  }

  function StrList(xs: seq<string>): Json {
    Arr(seq(|xs|, i requires 0 <= i < |xs| => Str(xs[i])))
  }

  /** An audited field as the JSON value an edit row records. */
  function FieldOf(t: Task, f: EditField): Json {
    match f
    case Title => Str(t.title)
    case Description => OptStr(t.description)
    case Effort => t.effort
    case Impact => t.impact
    case Due => OptStr(t.due)
    case DependsOn => StrList(t.dependsOn)
    case DeletedAt => OptStr(t.deletedAt)
  }

  lemma FieldOfInjective(t: Task, u: Task)
    ensures FieldOf(t, Title) == FieldOf(u, Title) <==> t.title == u.title
    ensures FieldOf(t, Description) == FieldOf(u, Description) <==> t.description == u.description
    ensures FieldOf(t, Due) == FieldOf(u, Due) <==> t.due == u.due
    ensures FieldOf(t, DependsOn) == FieldOf(u, DependsOn) <==> t.dependsOn == u.dependsOn
    ensures FieldOf(t, DeletedAt) == FieldOf(u, DeletedAt) <==> t.deletedAt == u.deletedAt
  {
    if FieldOf(t, DependsOn) == FieldOf(u, DependsOn) {
      var a, b := FieldOf(t, DependsOn).items, FieldOf(u, DependsOn).items;
      assert |t.dependsOn| == |a| == |b| == |u.dependsOn|;
      forall i | 0 <= i < |t.dependsOn| ensures t.dependsOn[i] == u.dependsOn[i] {
        assert a[i] == Str(t.dependsOn[i]) && b[i] == Str(u.dependsOn[i]);
      }
    }
  }
}
