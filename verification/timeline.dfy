/**
 The pipeline timeline beside every page: the five listed stages, each drawn
 as completed when the history holds a step of that stage, as current when
 the page shown is the stage's page, with the id of the stage's first step.
 */
module Timeline {
  import opened Base
  import opened Strings
  import opened Tracker

  /** A listed stage: its name in the history, its caption, and its page. */
  datatype StageInfo = StageInfo(id: string, caption: string, path: string)

  const Stages: seq<StageInfo> := [
    StageInfo("upload", "Upload", "/preprocessing"),
    StageInfo("metadata", "Metadata", "/preprocessing/metadata"),
    StageInfo("channels", "Channels", "/preprocessing/channels"),
    StageInfo("montage", "Montage", "/preprocessing/montage"),
    StageInfo("filter", "Filter", "/preprocessing/filter")
  ]

  predicate Listed(stage: string)
  {
    exists i :: 0 <= i < |Stages| && Stages[i].id == stage
  }

  /** The id of the first listed stage whose page is `pathname`, if any. */
  function CurrentStage(pathname: string): (r: Option<string>)
    ensures r.None? <==> forall i :: 0 <= i < |Stages| ==> Stages[i].path != pathname
    ensures r.Some? ==> exists i :: 0 <= i < |Stages| && Stages[i].path == pathname && Stages[i].id == r.value
  {
    var s := Find(Stages, (s: StageInfo) => s.path == pathname);
    if s.None? then
      assert forall i :: 0 <= i < |Stages| ==> Stages[i] in Stages;
      None
    else
      Some(s.value.id)
  }

  datatype Status = Status(completed: bool, current: bool)

  /** `getStageStatus`. */
  function StageStatus(history: seq<Step>, pathname: string, stageId: string): (s: Status)
    ensures s.completed <==> HasCompleted(history, stageId)
    ensures s.current ==> exists i :: 0 <= i < |Stages| && Stages[i].path == pathname && Stages[i].id == stageId
  {
    CompletedIffFound(history, stageId);
    Status(Find(history, (h: Step) => h.stage == stageId).Some?, CurrentStage(pathname) == Some(stageId))
  }

  /** `getStepArtifact`: the artifact of the first step of that stage. */
  function StepArtifact(history: seq<Step>, stageId: string): (a: Option<string>)
    ensures a.None? <==> !HasCompleted(history, stageId)
    ensures a.Some? ==>
      exists i :: 0 <= i < |history| && history[i] == Step(stageId, a.value) && forall j :: 0 <= j < i ==> history[j].stage != stageId
  {
    CompletedIffFound(history, stageId);
    var step := Find(history, (h: Step) => h.stage == stageId);
    if step.None? then None else Some(step.value.artifactId)
  }

  /** The check mark: completed, and not the page being shown. */
  predicate ShowsCheck(s: Status)
  {
    s.completed && !s.current
  }

  /** The first eight characters of the artifact, shown only when the artifact is truthy. */
  function ShortId(a: Option<string>): (r: Option<string>)
    ensures r.Some? <==> Truthy(a)
    ensures r.Some? ==> IsPrefix(r.value, a.value) && |r.value| == if |a.value| < 8 then |a.value| else 8
  {
    if !Truthy(a) then None else if |a.value| < 8 then a else Some(a.value[..8])
  }

  /** One drawn row. */
  datatype Row = Row(caption: string, path: string, status: Status, check: bool, shortId: Option<string>)

  function RowOf(history: seq<Step>, pathname: string, s: StageInfo): Row
  {
    var status := StageStatus(history, pathname, s.id);
    Row(s.caption, s.path, status, ShowsCheck(status), ShortId(StepArtifact(history, s.id)))
  }

  /** The whole timeline, one row per listed stage in order. */
  function Rows(history: seq<Step>, pathname: string): (rows: seq<Row>)
    ensures |rows| == |Stages|
    ensures forall i :: 0 <= i < |Stages| ==> rows[i].caption == Stages[i].caption && rows[i].path == Stages[i].path
  {
    seq(|Stages|, i requires 0 <= i < |Stages| => RowOf(history, pathname, Stages[i]))
  }

  /** Ids and pages of the listed stages are all different. */
  lemma StagesDistinct(i: nat, j: nat)
    requires i < |Stages| && j < |Stages| && i != j
    ensures Stages[i].id != Stages[j].id && Stages[i].path != Stages[j].path
  {
  }

  /** A listed stage is drawn as current exactly on its own page. */
  lemma CurrentExactlyOnOwnPage(history: seq<Step>, pathname: string, i: nat)
    requires i < |Stages|
    ensures StageStatus(history, pathname, Stages[i].id).current <==> pathname == Stages[i].path
  {
    if pathname == Stages[i].path {
      var c := CurrentStage(pathname);
      var k :| 0 <= k < |Stages| && Stages[k].path == pathname && Stages[k].id == c.value;
      if k != i {
        StagesDistinct(i, k);
      }
    } else if StageStatus(history, pathname, Stages[i].id).current {
      var k :| 0 <= k < |Stages| && Stages[k].path == pathname && Stages[k].id == Stages[i].id;
      StagesDistinct(i, k);
    }
  }

  /** At most one row is drawn as current. */
  lemma AtMostOneCurrent(history: seq<Step>, pathname: string, i: nat, j: nat)
    requires i < |Stages| && j < |Stages|
    requires Rows(history, pathname)[i].status.current && Rows(history, pathname)[j].status.current
    ensures i == j
  {
    CurrentExactlyOnOwnPage(history, pathname, i);
    CurrentExactlyOnOwnPage(history, pathname, j);
    if i != j {
      StagesDistinct(i, j);
    }
  }

  /**
   A step of a stage the timeline does not list (annotations, epochs, or any
   other name) changes no row.
   */
  lemma UnlistedStepChangesNothing(history: seq<Step>, pathname: string, step: Step)
    requires !Listed(step.stage)
    ensures Rows(history + [step], pathname) == Rows(history, pathname)
  {
    forall i | 0 <= i < |Stages|
      ensures RowOf(history + [step], pathname, Stages[i]) == RowOf(history, pathname, Stages[i])
    {
      var p := (h: Step) => h.stage == Stages[i].id;
      FindAppend(history, step, p);
    }
  }

  /**
   Running a stage again appends a step, but the row keeps showing the
   artifact of the stage's first run.
   */
  lemma FirstArtifactStays(history: seq<Step>, pathname: string, stage: string, id: string)
    requires HasCompleted(history, stage)
    ensures StepArtifact(history + [Step(stage, id)], stage) == StepArtifact(history, stage)
  {
    FindAppend(history, Step(stage, id), (h: Step) => h.stage == stage);
  }

  /** Recording a listed stage marks its row completed and shows its id, when the id is truthy and this is its first run. */
  lemma RecordedStageIsDrawn(t: State, pathname: string, i: nat, id: string)
    requires i < |Stages| && id != "" && !HasCompleted(t.history, Stages[i].id)
    ensures var row := Rows(SetArtifactId(t, id, Stages[i].id).history, pathname)[i];
      row.status.completed && row.shortId.Some? && IsPrefix(row.shortId.value, id)
  {
    var h := SetArtifactId(t, id, Stages[i].id).history;
    assert h == t.history + [Step(Stages[i].id, id)];
    FindAppend(t.history, Step(Stages[i].id, id), (s: Step) => s.stage == Stages[i].id);
  }

  /** A row carries the check mark exactly when its stage is completed and its page is not the one shown. */
  lemma CheckMarkMeansCompletedElsewhere(history: seq<Step>, pathname: string, i: nat)
    requires i < |Stages|
    ensures Rows(history, pathname)[i].check <==> HasCompleted(history, Stages[i].id) && pathname != Stages[i].path
  {
    CurrentExactlyOnOwnPage(history, pathname, i);
  }
}
