/**
 The shape every stage page shares: check the form locally, then send one
 request carrying the current artifact id; record the returned id under the
 page's stage name on success, show an error and leave the tracker alone on
 failure. A page without a current id redirects and offers no form at all.
 */
module StagePage {
  import opened Base
  import opened Strings
  import opened Tracker

  /** A backend reply, reduced to what the pages read from it. */
  datatype Reply = Ok(id: string) | NotOk(detail: string, statusText: string)

  /** A read-only request (channel list, metadata, event names): its data, or the status of a failure. */
  datatype Fetch<D> = Fetched(data: D) | FetchFailed(status: int, statusText: string)

  /** The local check of a form: an error message, or the request body to send. */
  datatype Check<R> = Invalid(message: string) | Valid(request: R)

  /** What a submission leaves behind: the tracker, the displayed error, and whether a request went out. */
  datatype Outcome = Outcome(tracker: State, error: Option<string>, sent: bool)

  /** How a page words a failed request: the backend's `detail` when it reads one, otherwise its own prefix and the status text. */
  datatype Wording = Wording(prefix: string, usesDetail: bool)

  function FailureText(w: Wording, detail: string, statusText: string): (m: string)
    ensures w.usesDetail && detail != "" ==> m == detail
    ensures !(w.usesDetail && detail != "") ==> m == w.prefix + statusText
  {
    if w.usesDetail && detail != "" then detail else w.prefix + statusText
  }

  /** Runs one submission of a stage page against the tracker. */
  function Submit<R>(t: State, check: Check<R>, stage: string, w: Wording, reply: Reply): (r: Outcome)
    ensures r.sent <==> HasCurrent(t) && check.Valid?
    ensures !r.sent ==> r.tracker == t
    ensures HasCurrent(t) && check.Invalid? ==> r.error == Some(check.message)
    ensures r.sent && reply.Ok? ==> r.tracker == SetArtifactId(t, reply.id, stage) && r.error.None?
    ensures r.sent && reply.NotOk? ==> r.tracker == t && r.error == Some(FailureText(w, reply.detail, reply.statusText))
  {
    if !HasCurrent(t) then Outcome(t, None, false)
    else match check
      case Invalid(m) => Outcome(t, Some(m), false)
      case Valid(_) =>
        match reply
        case Ok(id) => Outcome(SetArtifactId(t, id, stage), None, true)
        case NotOk(detail, status) => Outcome(t, Some(FailureText(w, detail, status)), true)
  }

  /**
   Whatever the page, a submission either leaves the tracker exactly as it was
   or advances it by one step named after the page's stage, carrying the
   returned id; it advances only for a sent request answered successfully.
   */
  lemma SubmitAdvancesByOneStep<R>(t: State, check: Check<R>, stage: string, w: Wording, reply: Reply)
    ensures var r := Submit(t, check, stage, w, reply);
      || (r.tracker == t && !(r.sent && reply.Ok?))
      || (r.sent && reply.Ok? && r.tracker.current == Some(reply.id)
          && r.tracker.history == t.history + [Step(stage, reply.id)] && r.tracker.previous == t.current)
  {
  }

  /** A failed submission never moves the current id and never shrinks or grows the history. */
  lemma {:induction false} FailureKeepsCurrent<R>(t: State, check: Check<R>, stage: string, w: Wording, reply: Reply)
    requires check.Invalid? || reply.NotOk?
    ensures Submit(t, check, stage, w, reply).tracker.current == t.current
    ensures Submit(t, check, stage, w, reply).tracker.history == t.history
  {
  }
}
