/**
 The channel-selection page: a multi-select over the channels the backend
 reports, shortcuts for the standard 10-20 electrodes, all and none, and a
 submission that picks the selected channels.
 */
module Channels {
  import opened Base
  import opened Strings
  import opened Tracker
  import opened StagePage
  import Selection

  /** The 19 electrode names of the international 10-20 system the page recognises. */
  const TenTwenty: set<string> := {
    "Fp1", "Fp2", "F7", "F3", "Fz", "F4", "F8",
    "T7", "C3", "Cz", "C4", "T8",
    "P7", "P3", "Pz", "P4", "P8",
    "O1", "O2"
  }

  predicate IsTenTwenty(ch: string)
  {
    ch in TenTwenty
  }

  /** The page's list state: channels on offer and channels ticked, plus the displayed error. */
  datatype View = View(available: seq<string>, selected: seq<string>, error: Option<string>)

  /** Body of `POST .../pick_channels`. */
  datatype PickRequest = PickRequest(mode: string, channels: seq<string>)

  /** Clicking a channel in the list. */
  function SelectChannel(v: View, ch: string): (r: View)
    ensures r.available == v.available && r.error == v.error
    ensures (ch in r.selected) <==> (ch !in v.selected)
    ensures forall y :: y != ch ==> (y in r.selected <==> y in v.selected)
    ensures ch !in v.selected ==> r.selected == v.selected + [ch]
    ensures ch in v.selected ==> r.selected == Selection.Without(v.selected, ch)
  {
    v.(selected := Selection.Toggle(v.selected, ch))
  }

  /** "Select EEG": the available channels that are 10-20 electrodes, in the order offered. */
  function SelectEeg(v: View): (r: View)
    ensures r.available == v.available && r.error == v.error
    ensures forall ch :: ch in r.selected <==> ch in v.available && ch in TenTwenty
    ensures IsSubsequence(r.selected, v.available)
    ensures forall ch :: ch in TenTwenty ==> multiset(r.selected)[ch] == multiset(v.available)[ch]
    ensures forall ch :: ch !in TenTwenty ==> multiset(r.selected)[ch] == 0
  {
    KeepIsSelection(v.available, IsTenTwenty);
    v.(selected := Keep(v.available, IsTenTwenty))
  }

  /** "Select all": a copy of the available channels. */
  function SelectAll(v: View): (r: View)
    ensures r.available == v.available && r.error == v.error
    ensures r.selected == v.available
  {
    v.(selected := v.available)
  }

  /** "Clear": nothing selected. */
  function ClearSelection(v: View): (r: View)
    ensures r.available == v.available && r.error == v.error
    ensures forall ch :: ch !in r.selected
  {
    v.(selected := [])
  }

  /**
   The channel list arriving from the backend. When the history already
   holds a "channels" step, every fetched channel is ticked; otherwise the
   ticks are left as they were. A failed fetch only shows an error.
   */
  function ChannelsLoaded(history: seq<Step>, v: View, reply: Fetch<seq<string>>): (r: View)
    ensures reply.Fetched? ==> r.available == reply.data && r.error.None?
    ensures reply.Fetched? && HasCompleted(history, "channels") ==> r.selected == reply.data
    ensures reply.Fetched? && !HasCompleted(history, "channels") ==> r.selected == v.selected
    ensures reply.FetchFailed? ==>
              && r.available == v.available
              && r.selected == v.selected
              && r.error == Some("Failed to fetch channels: " + reply.statusText)
  {
    match reply
    case Fetched(channels) =>
      View(channels, if HasCompleted(history, "channels") then channels else v.selected, None)
    case FetchFailed(_, statusText) =>
      v.(error := Some("Failed to fetch channels: " + statusText))
  }

  /**
   Once a pick has been recorded, reloading the list leaves the page as
   "Select all" would, and a non-empty list can be applied again as it stands.
   */
  lemma CompletedReloadSelectsAll(history: seq<Step>, v: View, reply: Fetch<seq<string>>)
    requires reply.Fetched? && HasCompleted(history, "channels")
    ensures var r := ChannelsLoaded(history, v, reply);
      && SelectAll(r) == r
      && (|reply.data| > 0 ==> CheckPick(r.selected) == Valid(PickRequest("manual", reply.data)))
  {
  }

  const EmptySelection := "Please select at least one channel"

  /** The local check of "Apply": at least one channel, sent as a manual pick. */
  function CheckPick(selected: seq<string>): (c: Check<PickRequest>)
    ensures c.Invalid? <==> |selected| == 0
    ensures c.Valid? ==> c.request.mode == "manual" && c.request.channels == selected
  {
    if |selected| == 0 then Invalid(EmptySelection) else Valid(PickRequest("manual", selected))
  }

  /** "Apply" is enabled only with a non-empty selection and no submission in flight. */
  predicate ApplyEnabled(selected: seq<string>, submitting: bool)
  {
    !(|selected| == 0 || submitting)
  }

  lemma ApplyEnabledPassesCheck(selected: seq<string>, submitting: bool)
    ensures ApplyEnabled(selected, submitting) <==> CheckPick(selected).Valid? && !submitting
  {
  }

  const PickWording := Wording("Failed to pick channels: ", false)

  /** "Apply": the selection goes out as one request; success records the new id as the "channels" stage. */
  function ConfirmChannels(t: State, v: View, reply: Reply): (r: Outcome)
    ensures |v.selected| == 0 ==> !r.sent && r.tracker == t
    ensures HasCurrent(t) && |v.selected| == 0 ==> r.error == Some(EmptySelection)
    ensures r.sent <==> HasCurrent(t) && |v.selected| > 0
    ensures r.sent && reply.Ok? ==> r.tracker == SetArtifactId(t, reply.id, "channels") && r.error.None?
    ensures reply.NotOk? ==> r.tracker == t
    ensures r.sent && reply.NotOk? ==> r.error == Some("Failed to pick channels: " + reply.statusText)
  {
    Submit(t, CheckPick(v.selected), "channels", PickWording, reply)
  }
}
