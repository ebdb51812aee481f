/**
 The dataset sidebar: the list of stored datasets, a confirmation dialog that
 restarts the pipeline from a chosen dataset, and deletion of a dataset.
 */
module Sidebar {
  import opened Base
  import opened Tracker

  /** A stored dataset as listed by the backend; times are seconds, sizes bytes. */
  datatype Dataset = Dataset(id: string, originalFilename: string, sizeBytes: int, createdAt: int, modifiedAt: int)

  datatype View = View(datasets: seq<Dataset>, selected: Option<Dataset>, dialogOpen: bool)

  /** Clicking a dataset only opens the confirmation dialog for it. */
  function ClickDataset(v: View, d: Dataset): (r: View)
    ensures r.datasets == v.datasets
    ensures r.selected == Some(d) && r.dialogOpen
  {
    v.(selected := Some(d), dialogOpen := true)
  }

  /** What confirming leaves behind. */
  datatype Selected = Selected(tracker: State, view: View)

  /**
   Confirming the dialog calls `reset()` and then `setArtifactId(id, "upload")`
   in one handler. The updates are batched: both read the ids as they were
   when the handler ran, and the history update of the second applies to the
   emptied history. So the history restarts from the chosen dataset while the
   previous id keeps the id that was current before the reset.
   */
  function ConfirmSelect(t: State, v: View): (r: Selected)
    ensures v.selected.None? ==> r == Selected(t, v)
    ensures v.selected.Some? ==>
      && r.tracker.current == Some(v.selected.value.id)
      && r.tracker.previous == t.current
      && r.tracker.history == [Step("upload", v.selected.value.id)]
      && r.view == View(v.datasets, None, false)
  {
    match v.selected
    case None => Selected(t, v)
    case Some(d) =>
      Selected(State(Some(d.id), t.current, [Step("upload", d.id)]), View(v.datasets, None, false))
  }

  /**
   Compared with calling `reset()` and `setArtifactId` one after the other,
   the batched handler agrees on the current id and the history and differs
   only in the previous id: there it is the id current before the reset
   rather than null.
   */
  lemma ConfirmSelectVersusSequential(t: State, v: View)
    requires v.selected.Some?
    ensures var sequential := SetArtifactId(Reset(t), v.selected.value.id, "upload");
      var batched := ConfirmSelect(t, v).tracker;
      && batched.current == sequential.current
      && batched.history == sequential.history
      && sequential.previous.None?
      && batched.previous == t.current
  {
  }

  /** After confirming, the history holds the chosen dataset's "upload" step and nothing else, whatever came before. */
  lemma ConfirmSelectStartsOver(t: State, v: View)
    requires v.selected.Some?
    ensures CurrentIsLast(ConfirmSelect(t, v).tracker)
    ensures HasCompleted(ConfirmSelect(t, v).tracker.history, "upload")
    ensures forall stage :: stage != "upload" ==> !HasCompleted(ConfirmSelect(t, v).tracker.history, stage)
  {
    var h := ConfirmSelect(t, v).tracker.history;
    assert h[0].stage == "upload";
  }

  predicate OtherThan(id: string, d: Dataset)
  {
    d.id != id
  }

  /**
   `handleDelete`: when the backend answers ok, every listed dataset with
   that id disappears and the others stay in order; otherwise nothing
   changes. The tracker is not touched either way.
   */
  function Delete(v: View, id: string, ok: bool): (r: View)
    ensures !ok ==> r == v
    ensures r.selected == v.selected && r.dialogOpen == v.dialogOpen
    ensures ok ==> forall d: Dataset :: d in r.datasets <==> d in v.datasets && d.id != id
    ensures ok ==> IsSubsequence(r.datasets, v.datasets)
    ensures ok ==> forall d: Dataset :: d.id != id ==> multiset(r.datasets)[d] == multiset(v.datasets)[d]
  {
    if ok then
      KeepIsSelection(v.datasets, d => OtherThan(id, d));
      v.(datasets := Keep(v.datasets, d => OtherThan(id, d)))
    else v
  }

  /** Deleting the same id again changes nothing. */
  lemma DeleteIdempotent(v: View, id: string, ok: bool)
    ensures Delete(Delete(v, id, true), id, ok) == Delete(v, id, true)
  {
    KeepTwice(v.datasets, d => OtherThan(id, d), d => OtherThan(id, d));
  }
}
