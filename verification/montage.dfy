/**
 The montage page: a free-text montage name with preset buttons; "Apply"
 sends the name as typed once it is not blank.
 */
module Montage {
  import opened Base
  import opened Strings
  import opened Tracker
  import opened StagePage

  /** A preset button: its caption and the montage name it writes. */
  datatype MontagePreset = MontagePreset(caption: string, value: string)

  const Presets: seq<MontagePreset> := [
    MontagePreset("10-20", "standard_1020"),
    MontagePreset("10-10", "standard_1005"),
    MontagePreset("BioSemi 64", "biosemi64"),
    MontagePreset("BioSemi 128", "biosemi128"),
    MontagePreset("EasyCap M1", "easycap-M1")
  ]

  /** The name field as the page first shows it. */
  const InitialName := "standard_1020"

  /** A preset button is drawn as selected when the field holds exactly its value. */
  predicate Highlighted(name: string, p: MontagePreset)
  {
    name == p.value
  }

  /** Clicking a preset replaces the field with its value. */
  function ClickPreset(name: string, p: MontagePreset): (r: string)
    ensures Highlighted(r, p)
  {
    p.value
  }

  /** After a preset click, that preset and no other is drawn as selected. */
  lemma ClickHighlightsOnlyThatPreset(name: string, i: nat, j: nat)
    requires i < |Presets| && j < |Presets|
    ensures Highlighted(ClickPreset(name, Presets[i]), Presets[j]) <==> i == j
  {
  }

  /** When the page opens, the 10-20 preset is the one drawn as selected. */
  lemma InitialNameIsTenTwenty(j: nat)
    requires j < |Presets|
    ensures Highlighted(InitialName, Presets[j]) <==> j == 0
  {
  }

  const NoName := "Please enter a montage name"

  /** The check of `handleConfirm`: a blank name is refused; otherwise the name goes out untrimmed. */
  function CheckMontage(name: string): (c: Check<string>)
    ensures c.Invalid? <==> IsBlank(name)
    ensures c.Invalid? ==> c.message == NoName
    ensures c.Valid? ==> c.request == name
  {
    if IsBlank(name) then Invalid(NoName) else Valid(name)
  }

  /** "Apply Montage" is enabled for a non-blank name when no submission is in flight. */
  predicate ApplyEnabled(name: string, submitting: bool)
  {
    !(IsBlank(name) || submitting)
  }

  lemma ApplyEnabledPassesCheck(name: string, submitting: bool)
    ensures ApplyEnabled(name, submitting) <==> CheckMontage(name).Valid? && !submitting
  {
  }

  /** Every preset value is a name the page accepts. */
  lemma PresetsAreAccepted(i: nat)
    requires i < |Presets|
    ensures CheckMontage(Presets[i].value) == Valid(Presets[i].value)
  {
    TrimKeepsVisibleEnds(Presets[i].value);
  }

  const MontageWording := Wording("Failed to set montage: ", true)

  /** "Apply Montage": success records the new id as the "montage" stage. */
  function ConfirmMontage(t: State, name: string, reply: Reply): (r: Outcome)
    ensures r.sent <==> HasCurrent(t) && !IsBlank(name)
    ensures HasCurrent(t) && IsBlank(name) ==> r.error == Some(NoName)
    ensures r.sent && reply.Ok? ==> r.tracker == SetArtifactId(t, reply.id, "montage") && r.error.None?
    ensures !(r.sent && reply.Ok?) ==> r.tracker == t
    ensures r.sent && reply.NotOk? ==> r.error == Some(FailureText(MontageWording, reply.detail, reply.statusText))
  {
    Submit(t, CheckMontage(name), "montage", MontageWording, reply)
  }
}
