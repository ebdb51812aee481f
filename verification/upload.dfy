/**
 The upload page: the first stage. With no current dataset it shows a file
 form; a successful upload records the returned id as the "upload" stage
 and moves on to the metadata page.
 */
module Upload {
  import opened Base
  import opened Strings
  import opened Tracker

  /** The chosen file, reduced to its name; its bytes are not modelled. */
  datatype EdfFile = EdfFile(name: string)

  datatype View = View(file: Option<EdfFile>, error: Option<string>)

  /**
   The reply to `POST /api/datasets/new`: the three fields the page may read
   an id from ("" where a field is absent), or the status text of a failure.
   */
  datatype UploadReply = Uploaded(id: string, datasetId: string, uuid: string) | UploadFailed(statusText: string)

  /** What an upload leaves behind: tracker, page state, the page navigated to, and whether a request went out. */
  datatype UploadOutcome = UploadOutcome(tracker: State, view: View, navigateTo: Option<string>, sent: bool)

  const NoFile := "Please select a file first"
  const MetadataPath := "/preprocessing/metadata"

  /** The file form is shown exactly when no dataset is current; otherwise a "continue" card. */
  predicate FormShown(t: State)
  {
    !HasCurrent(t)
  }

  /** Choosing a file: no file changes nothing, a file replaces the old one and clears the error. */
  function ChooseFile(v: View, selected: Option<EdfFile>): (r: View)
    ensures selected.None? ==> r == v
    ensures selected.Some? ==> r.file == selected && r.error.None?
  {
    if selected.Some? then View(selected, None) else v
  }

  /** `data.id || data.dataset_id || data.uuid`: the first non-empty field, else the last one. */
  function ArtifactIdOf(id: string, datasetId: string, uuid: string): (a: string)
    ensures a in {id, datasetId, uuid}
    ensures a == "" <==> id == "" && datasetId == "" && uuid == ""
  {
    if id != "" then id else if datasetId != "" then datasetId else uuid
  }

  /** The id chosen is the first field, in reply order, that is not empty. */
  lemma ArtifactIdIsFirstPresent(id: string, datasetId: string, uuid: string)
    ensures var first := Find([id, datasetId, uuid], NonEmptyString);
      ArtifactIdOf(id, datasetId, uuid) == if first.Some? then first.value else ""
  {
    var xs := [id, datasetId, uuid];
    assert xs[1..] == [datasetId, uuid];
    assert [datasetId, uuid][1..] == [uuid];
    assert [uuid][1..] == [];
    assert Find([uuid], NonEmptyString) == if uuid != "" then Some(uuid) else None;
    assert Find([datasetId, uuid], NonEmptyString) == if datasetId != "" then Some(datasetId) else Find([uuid], NonEmptyString);
    assert Find(xs, NonEmptyString) == if id != "" then Some(id) else Find([datasetId, uuid], NonEmptyString);
  }

  predicate NonEmptyString(s: string)
  {
    s != ""
  }

  /** `handleUpload`. */
  function HandleUpload(t: State, v: View, reply: UploadReply): (r: UploadOutcome)
    ensures r.sent <==> v.file.Some?
    ensures v.file.None? ==> r.tracker == t && r.view == v.(error := Some(NoFile)) && r.navigateTo.None?
    ensures r.sent && reply.Uploaded? ==>
      && r.tracker == SetArtifactId(t, ArtifactIdOf(reply.id, reply.datasetId, reply.uuid), "upload")
      && r.navigateTo == Some(MetadataPath)
      && r.view.error.None?
    ensures r.sent && reply.UploadFailed? ==>
      r.tracker == t && r.navigateTo.None? && r.view.error == Some("Upload failed: " + reply.statusText)
    ensures r.view.file == v.file
  {
    if v.file.None? then UploadOutcome(t, v.(error := Some(NoFile)), None, false)
    else match reply
      case Uploaded(id, datasetId, uuid) =>
        UploadOutcome(SetArtifactId(t, ArtifactIdOf(id, datasetId, uuid), "upload"), v.(error := None), Some(MetadataPath), true)
      case UploadFailed(statusText) =>
        UploadOutcome(t, v.(error := Some("Upload failed: " + statusText)), None, true)
  }

  /** After a successful upload that carried an id, the form gives way to the "continue" card. */
  lemma SuccessfulUploadHidesForm(t: State, v: View, reply: UploadReply)
    requires v.file.Some? && reply.Uploaded? && (reply.id != "" || reply.datasetId != "" || reply.uuid != "")
    ensures !FormShown(HandleUpload(t, v, reply).tracker)
    ensures HasCompleted(HandleUpload(t, v, reply).tracker.history, "upload")
  {
    var r := HandleUpload(t, v, reply);
    SetArtifactIdKeepsCurrentIsLast(t, ArtifactIdOf(reply.id, reply.datasetId, reply.uuid), "upload");
  }

  /**
   A success reply carrying none of the three fields still appends an
   "upload" step, but with an empty id: no dataset is current afterwards,
   and the page shows the form again.
   */
  lemma UploadWithoutIdLeavesNoDataset(t: State, v: View)
    requires v.file.Some?
    ensures var r := HandleUpload(t, v, Uploaded("", "", ""));
      && FormShown(r.tracker)
      && r.tracker.history == t.history + [Step("upload", "")]
  {
  }
}
