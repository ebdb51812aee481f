/**
 The artifact/stage tracker shared by every page: the id of the newest
 artifact, the id it replaced, and the append-only history of completed
 stages. Timestamps are not modelled.
 */
module Tracker {
  import opened Base
  import opened Strings

  /** One completed stage: its free-form name and the artifact it produced. */
  datatype Step = Step(stage: string, artifactId: string)

  datatype State = State(current: Option<string>, previous: Option<string>, history: seq<Step>)

  /** The provider's state when a session starts: both ids null, no history. */
  function Init(): (t: State)
    ensures t.current.None? && t.previous.None? && |t.history| == 0
  {
    State(None, None, [])
  }

  /**
   `setArtifactId(id, stage)`: the old current id becomes the previous id,
   `id` becomes current, and one step is appended. Any stage name is accepted.
   */
  function SetArtifactId(t: State, id: string, stage: string): (r: State)
    ensures r.current == Some(id)
    ensures r.previous == t.current
    ensures |r.history| == |t.history| + 1
    ensures r.history[..|t.history|] == t.history
    ensures r.history[|t.history|] == Step(stage, id)
  {
    State(Some(id), t.current, t.history + [Step(stage, id)])
  }

  /** `reset()`: back to the state a session starts in, whatever came before. */
  function Reset(t: State): (r: State)
    ensures r.current.None? && r.previous.None? && |r.history| == 0
  {
    Init()
  }

  /** A page treats the tracker as holding a dataset when the current id is truthy. */
  predicate HasCurrent(t: State)
  {
    Truthy(t.current)
  }

  /** `history.some(h => h.stage === stage)`. */
  predicate HasCompleted(history: seq<Step>, stage: string)
  {
    exists i :: 0 <= i < |history| && history[i].stage == stage
  }

  /** `some` and `find` agree: a stage is completed exactly when searching the history for it finds a step. */
  lemma CompletedIffFound(history: seq<Step>, stage: string)
    ensures HasCompleted(history, stage) <==> Find(history, (h: Step) => h.stage == stage).Some?
  {
    assert forall i :: 0 <= i < |history| ==> history[i] in history;
  }

  /** The current id is the artifact of the newest step, or unset while there is none. */
  predicate CurrentIsLast(t: State)
  {
    if |t.history| == 0 then t.current.None?
    else t.current == Some(t.history[|t.history| - 1].artifactId)
  }

  lemma SetArtifactIdKeepsCurrentIsLast(t: State, id: string, stage: string)
    ensures CurrentIsLast(SetArtifactId(t, id, stage))
    ensures HasCompleted(SetArtifactId(t, id, stage).history, stage)
  {
    var r := SetArtifactId(t, id, stage);
    assert r.history[|r.history| - 1].stage == stage;
  }

  lemma ResetIdempotent(t: State)
    ensures Reset(Reset(t)) == Reset(t)
    ensures CurrentIsLast(Reset(t))
  {
  }

  /** One `setArtifactId` call. */
  datatype Call = Call(id: string, stage: string)

  /** The state after a sequence of `setArtifactId` calls, applied in order. */
  function Replay(t: State, calls: seq<Call>): State
  {
    if |calls| == 0 then t
    else
      var last := calls[|calls| - 1];
      SetArtifactId(Replay(t, calls[..|calls| - 1]), last.id, last.stage)
  }

  /** The steps a sequence of calls appends. */
  function StepsOf(calls: seq<Call>): (steps: seq<Step>)
    ensures |steps| == |calls|
    ensures forall i :: 0 <= i < |calls| ==> steps[i] == Step(calls[i].stage, calls[i].id)
  {
    seq(|calls|, i requires 0 <= i < |calls| => Step(calls[i].stage, calls[i].id))
  }

  /**
   After any sequence of calls: the history is the old history followed by one
   step per call in call order; after a non-empty sequence the current id is
   the last call's id (the newest step's artifact) and the previous id is the
   one current just before that last call.
   */
  lemma {:induction false} ReplayTracksLastCall(t: State, calls: seq<Call>)
    ensures Replay(t, calls).history == t.history + StepsOf(calls)
    ensures |calls| == 0 ==> Replay(t, calls) == t
    ensures |calls| > 0 ==> Replay(t, calls).current == Some(calls[|calls| - 1].id)
    ensures |calls| > 0 ==> CurrentIsLast(Replay(t, calls))
    ensures |calls| == 1 ==> Replay(t, calls).previous == t.current
    ensures |calls| >= 2 ==> Replay(t, calls).previous == Some(calls[|calls| - 2].id)
  {
    if |calls| > 0 {
      var init := calls[..|calls| - 1];
      ReplayTracksLastCall(t, init);
      assert StepsOf(calls) == StepsOf(init) + [Step(calls[|calls| - 1].stage, calls[|calls| - 1].id)];
      if |calls| >= 2 {
        assert init[|init| - 1] == calls[|calls| - 2];
      }
    }
  }

  /**
   A stage counts as completed after a sequence of calls exactly when it was
   completed before or one of the calls named it, whatever the order and repeats.
   */
  lemma {:induction false} ReplayCompleted(t: State, calls: seq<Call>, stage: string)
    ensures HasCompleted(Replay(t, calls).history, stage)
        <==> HasCompleted(t.history, stage) || exists i :: 0 <= i < |calls| && calls[i].stage == stage
  {
    ReplayTracksLastCall(t, calls);
    var h := Replay(t, calls).history;
    var steps := StepsOf(calls);
    if HasCompleted(h, stage) {
      var k :| 0 <= k < |h| && h[k].stage == stage;
      if k >= |t.history| {
        assert steps[k - |t.history|] == h[k];
        assert calls[k - |t.history|].stage == stage;
      } else {
        assert t.history[k] == h[k];
      }
    }
    if HasCompleted(t.history, stage) {
      var k :| 0 <= k < |t.history| && t.history[k].stage == stage;
      assert h[k] == t.history[k];
    }
    if exists i :: 0 <= i < |calls| && calls[i].stage == stage {
      var i :| 0 <= i < |calls| && calls[i].stage == stage;
      assert h[|t.history| + i] == steps[i];
    }
  }
}
