/**
 The metadata page: it fetches the current dataset's metadata and, the first
 time the fetch succeeds, records a "metadata" step carrying the same id.
 */
module Metadata {
  import opened Base
  import opened Strings
  import opened Tracker
  import opened StagePage

  /** The page state a run of the effect leaves behind: tracker, metadata shown, error, and whether it redirected. */
  datatype Visit<D> = Visit(tracker: State, metadata: Option<D>, error: Option<string>, redirected: bool)

  /** `metadataCompleted`. */
  predicate MetadataCompleted(t: State)
  {
    HasCompleted(t.history, "metadata")
  }

  /**
   One run of the effect, starting from the metadata and error on screen.
   Without a current id the page redirects and fetches nothing. A fetched
   reply is shown and, unless a "metadata" step exists, recorded under the
   unchanged current id. A failed fetch only shows an error: metadata fetched
   by an earlier run stays on screen.
   */
  function LoadMetadata<D>(t: State, shown: Option<D>, error: Option<string>, reply: Fetch<D>): (r: Visit<D>)
    ensures r.redirected <==> !HasCurrent(t)
    ensures r.tracker.current == t.current
    ensures !HasCurrent(t) ==> r.tracker == t && r.metadata == shown && r.error == error
    ensures HasCurrent(t) && reply.Fetched? ==> r.metadata == Some(reply.data) && r.error.None? && MetadataCompleted(r.tracker)
    ensures HasCurrent(t) && reply.Fetched? && MetadataCompleted(t) ==> r.tracker == t
    ensures HasCurrent(t) && reply.Fetched? && !MetadataCompleted(t) ==>
      r.tracker == SetArtifactId(t, t.current.value, "metadata")
    ensures HasCurrent(t) && reply.FetchFailed? ==>
      r.tracker == t && r.metadata == shown && r.error == Some("Failed to fetch metadata: " + reply.statusText)
  {
    if !HasCurrent(t) then Visit(t, shown, error, true)
    else match reply
      case Fetched(data) =>
        var t' := if MetadataCompleted(t) then t else SetArtifactId(t, t.current.value, "metadata");
        SetArtifactIdKeepsCurrentIsLast(t, t.current.value, "metadata");
        Visit(t', Some(data), None, false)
      case FetchFailed(_, statusText) =>
        Visit(t, shown, Some("Failed to fetch metadata: " + statusText), false)
  }

  /** The effect run after the first one, on the page state the first left. */
  function Rerun<D>(v: Visit<D>, reply: Fetch<D>): Visit<D>
  {
    LoadMetadata(v.tracker, v.metadata, v.error, reply)
  }

  /**
   The effect runs again once the step is recorded (the flag is one of its
   dependencies); the second run finds the step and records nothing more, so
   any number of successful visits add exactly one "metadata" step.
   */
  lemma LoadMetadataIdempotent<D>(t: State, shown: Option<D>, error: Option<string>, first: Fetch<D>, again: Fetch<D>)
    requires first.Fetched?
    ensures var v := LoadMetadata(t, shown, error, first);
      Rerun(v, again).tracker == v.tracker
  {
  }

  /**
   The re-run that follows the first record may fail; the metadata the first
   run fetched is still shown, next to the error.
   */
  lemma FailedRerunKeepsMetadata<D>(t: State, shown: Option<D>, error: Option<string>, first: Fetch<D>, again: Fetch<D>)
    requires HasCurrent(t) && first.Fetched? && again.FetchFailed?
    ensures var v := Rerun(LoadMetadata(t, shown, error, first), again);
      && v.metadata == Some(first.data)
      && v.error == Some("Failed to fetch metadata: " + again.statusText)
      && MetadataCompleted(v.tracker)
  {
  }

  /** The step recorded by a first visit points at the artifact already current, so the previous id becomes that same id. */
  lemma FirstVisitRecordsSameArtifact<D>(t: State, shown: Option<D>, error: Option<string>, reply: Fetch<D>)
    requires HasCurrent(t) && reply.Fetched? && !MetadataCompleted(t)
    ensures var r := LoadMetadata(t, shown, error, reply).tracker;
      && r.history == t.history + [Step("metadata", t.current.value)]
      && r.previous == t.current
      && r.current == t.current
  {
  }
}
