/**
 The epoching page: a time window around events, a baseline choice, an
 optional rejection threshold, an optional event filter and an optional
 average reference, checked locally and sent as one `create_epochs` request.
 */
module Epochs {
  import opened Base
  import opened Strings
  import opened Numbers
  import opened Tracker
  import opened StagePage
  import Selection

  datatype BaselineOption = NoBaseline | StartToZero | CustomBaseline

  /** The form fields, as typed. */
  datatype Form = Form(
    tmin: string,
    tmax: string,
    baselineOption: BaselineOption,
    baselineStart: string,
    baselineEnd: string,
    rejectEeg: string,
    setReference: bool,
    selectedEvents: seq<string>)

  /** The form as the page first shows it. */
  const InitialForm := Form("-0.2", "0.8", StartToZero, "", "0", "", false, [])

  /** A baseline interval; a `None` side means "from the start" or "to the end". */
  type Interval = (Option<real>, Option<real>)

  /**
   Body of `POST .../create_epochs`. `baseline` is always sent (`None` is
   JSON null); `rejectEeg`, `eventsFilter` are omitted when `None`;
   `set_reference` is sent, as true, only when `setReference` holds.
   */
  datatype EpochsRequest = EpochsRequest(
    tmin: real,
    tmax: real,
    baseline: Option<Interval>,
    rejectEeg: Option<real>,
    eventsFilter: Option<seq<string>>,
    setReference: bool)

  const BadTimes := "Please enter valid time values for tmin and tmax"
  const BadWindow := "tmin must be less than tmax"
  const BadBaselineStart := "Invalid baseline start value"
  const BadBaselineEnd := "Invalid baseline end value"
  const BadReject := "Reject threshold must be a positive number"

  /** A custom baseline side: blank means open-ended, anything else must parse. */
  predicate SideOk(field: string, parse: Parser)
  {
    IsBlank(field) || parse(field).Some?
  }

  function SideValue(field: string, parse: Parser): Option<real>
  {
    if IsBlank(field) then None else parse(field)
  }

  /** The baseline the request carries, or the error for an unreadable custom side. */
  function CheckBaseline(f: Form, parse: Parser): (c: Check<Option<Interval>>)
    ensures f.baselineOption == NoBaseline ==> c == Valid(None)
    ensures f.baselineOption == StartToZero ==> c == Valid(Some((None, Some(0.0))))
    ensures f.baselineOption == CustomBaseline ==>
      && (c.Valid? <==> SideOk(f.baselineStart, parse) && SideOk(f.baselineEnd, parse))
      && (!SideOk(f.baselineStart, parse) ==> c == Invalid(BadBaselineStart))
      && (SideOk(f.baselineStart, parse) && !SideOk(f.baselineEnd, parse) ==> c == Invalid(BadBaselineEnd))
      && (c.Valid? ==>
            && c.request.Some?
            && (c.request.value.0.None? <==> IsBlank(f.baselineStart))
            && (c.request.value.1.None? <==> IsBlank(f.baselineEnd))
            && (c.request.value.0.Some? ==> c.request.value.0 == parse(f.baselineStart))
            && (c.request.value.1.Some? ==> c.request.value.1 == parse(f.baselineEnd)))
  {
    match f.baselineOption
    case NoBaseline => Valid(None)
    case StartToZero => Valid(Some((None, Some(0.0))))
    case CustomBaseline =>
      if !SideOk(f.baselineStart, parse) then Invalid(BadBaselineStart)
      else if !SideOk(f.baselineEnd, parse) then Invalid(BadBaselineEnd)
      else Valid(Some((SideValue(f.baselineStart, parse), SideValue(f.baselineEnd, parse))))
  }

  /** A blank threshold is omitted; otherwise it must parse to a positive number. */
  predicate RejectOk(field: string, parse: Parser)
  {
    IsBlank(field) || (parse(field).Some? && parse(field).value > 0.0)
  }

  /** `handleCreateEpochs`: the checks in order, then the body. */
  function CheckEpochs(f: Form, parse: Parser): (c: Check<EpochsRequest>)
    ensures parse(f.tmin).None? || parse(f.tmax).None? ==> c == Invalid(BadTimes)
    ensures parse(f.tmin).Some? && parse(f.tmax).Some? && parse(f.tmin).value >= parse(f.tmax).value ==> c == Invalid(BadWindow)
    ensures c.Valid? <==>
      && parse(f.tmin).Some? && parse(f.tmax).Some? && parse(f.tmin).value < parse(f.tmax).value
      && CheckBaseline(f, parse).Valid?
      && RejectOk(f.rejectEeg, parse)
    ensures parse(f.tmin).Some? && parse(f.tmax).Some? && parse(f.tmin).value < parse(f.tmax).value ==>
      && (CheckBaseline(f, parse).Invalid? ==> c == Invalid(CheckBaseline(f, parse).message))
      && (CheckBaseline(f, parse).Valid? && !RejectOk(f.rejectEeg, parse) ==> c == Invalid(BadReject))
    ensures c.Valid? ==>
      && Some(c.request.tmin) == parse(f.tmin) && Some(c.request.tmax) == parse(f.tmax)
      && c.request.tmin < c.request.tmax
      && c.request.baseline == CheckBaseline(f, parse).request
      && (c.request.rejectEeg.Some? <==> !IsBlank(f.rejectEeg))
      && (c.request.rejectEeg.Some? ==> c.request.rejectEeg == parse(f.rejectEeg) && c.request.rejectEeg.value > 0.0)
      && (c.request.eventsFilter.Some? <==> |f.selectedEvents| > 0)
      && (c.request.eventsFilter.Some? ==> c.request.eventsFilter.value == f.selectedEvents)
      && c.request.setReference == f.setReference
  {
    var tmin := parse(f.tmin);
    var tmax := parse(f.tmax);
    if tmin.None? || tmax.None? then Invalid(BadTimes)
    else if tmin.value >= tmax.value then Invalid(BadWindow)
    else match CheckBaseline(f, parse)
      case Invalid(m) => Invalid(m)
      case Valid(baseline) =>
        if !RejectOk(f.rejectEeg, parse) then Invalid(BadReject)
        else
          Valid(EpochsRequest(
            tmin.value,
            tmax.value,
            baseline,
            if IsBlank(f.rejectEeg) then None else parse(f.rejectEeg),
            if |f.selectedEvents| > 0 then Some(f.selectedEvents) else None,
            f.setReference))
  }

  const EpochsWording := Wording("Failed to create epochs: ", true)

  /** "Create Epochs": success records the new id as the "epochs" stage; a rejected or failed request leaves the tracker alone. */
  function ConfirmEpochs(t: State, f: Form, parse: Parser, reply: Reply): (r: Outcome)
    ensures r.sent <==> HasCurrent(t) && CheckEpochs(f, parse).Valid?
    ensures HasCurrent(t) && CheckEpochs(f, parse).Invalid? ==> r.error == Some(CheckEpochs(f, parse).message)
    ensures r.sent && reply.Ok? ==> r.tracker == SetArtifactId(t, reply.id, "epochs") && r.error.None?
    ensures !(r.sent && reply.Ok?) ==> r.tracker == t
    ensures r.sent && reply.NotOk? ==> r.error == Some(FailureText(EpochsWording, reply.detail, reply.statusText))
  {
    Submit(t, CheckEpochs(f, parse), "epochs", EpochsWording, reply)
  }

  /** Clicking an event in the picker. */
  function SelectEvent(f: Form, event: string): (r: Form)
    ensures (event in r.selectedEvents) <==> (event !in f.selectedEvents)
    ensures forall y :: y != event ==> (y in r.selectedEvents <==> y in f.selectedEvents)
    ensures event !in f.selectedEvents ==> r.selectedEvents == f.selectedEvents + [event]
    ensures event in f.selectedEvents ==> r.selectedEvents == Selection.Without(f.selectedEvents, event)
    ensures r == f.(selectedEvents := r.selectedEvents)
  {
    f.(selectedEvents := Selection.Toggle(f.selectedEvents, event))
  }

  /** Clicking an unselected event twice leaves the form as it was. */
  lemma SelectEventTwice(f: Form, event: string)
    requires event !in f.selectedEvents
    ensures SelectEvent(SelectEvent(f, event), event) == f
  {
    Selection.ToggleTwiceRestores(f.selectedEvents, event);
  }

  /** "Select all" in the event picker: every event the dataset has, in the order listed. */
  function SelectAllEvents(f: Form, eventNames: seq<string>): (r: Form)
    ensures r == f.(selectedEvents := r.selectedEvents)
    ensures r.selectedEvents == eventNames
  {
    f.(selectedEvents := eventNames)
  }

  /** "Clear" in the event picker; the request then carries no event filter. */
  function ClearEvents(f: Form): (r: Form)
    ensures r == f.(selectedEvents := r.selectedEvents)
    ensures forall e :: e !in r.selectedEvents
  {
    f.(selectedEvents := [])
  }

  /** After "Clear", an accepted form sends no event filter, so every event is epoched. */
  lemma ClearedEventsSendNoFilter(f: Form, parse: Parser)
    requires CheckEpochs(ClearEvents(f), parse).Valid?
    ensures CheckEpochs(ClearEvents(f), parse).request.eventsFilter.None?
  {
  }

  /** The event names arriving from the backend; a 404 reads as a missing dataset. */
  function EventsLoadError(reply: Fetch<seq<string>>): (m: Option<string>)
    ensures reply.Fetched? <==> m.None?
    ensures reply.FetchFailed? && reply.status == 404 ==> m == Some("Dataset not found")
    ensures reply.FetchFailed? && reply.status != 404 ==> m == Some("Failed to fetch event names: " + reply.statusText)
  {
    match reply
    case Fetched(_) => None
    case FetchFailed(status, statusText) =>
      if status == 404 then Some("Dataset not found") else Some("Failed to fetch event names: " + statusText)
  }

  /** `handlePreset`: the four named windows; any other name changes nothing. */
  function ApplyPreset(f: Form, name: string): (r: Form)
    ensures name !in {"erp", "motor", "p300", "ssvep"} ==> r == f
    ensures r.baselineStart == f.baselineStart && r.baselineEnd == f.baselineEnd
    ensures r.rejectEeg == f.rejectEeg && r.setReference == f.setReference && r.selectedEvents == f.selectedEvents
    ensures name == "ssvep" ==> r.baselineOption == NoBaseline
    ensures name in {"erp", "motor", "p300"} ==> r.baselineOption == StartToZero
    ensures name == "erp" ==> r.tmin == "-0.2" && r.tmax == "0.8"
    ensures name == "motor" ==> r.tmin == "-0.5" && r.tmax == "1.0"
    ensures name == "p300" ==> r.tmin == "-0.1" && r.tmax == "0.6"
    ensures name == "ssvep" ==> r.tmin == "0" && r.tmax == "2.0"
  {
    if name == "erp" then f.(tmin := "-0.2", tmax := "0.8", baselineOption := StartToZero)
    else if name == "motor" then f.(tmin := "-0.5", tmax := "1.0", baselineOption := StartToZero)
    else if name == "p300" then f.(tmin := "-0.1", tmax := "0.6", baselineOption := StartToZero)
    else if name == "ssvep" then f.(tmin := "0", tmax := "2.0", baselineOption := NoBaseline)
    else f
  }

  /** The window each named preset is meant to set, in seconds. */
  function PresetWindow(name: string): (real, real)
  {
    if name == "erp" then (-0.2, 0.8)
    else if name == "motor" then (-0.5, 1.0)
    else if name == "p300" then (-0.1, 0.6)
    else (0.0, 2.0)
  }

  /** How a parser that reads plain decimals exactly sees the window fields a preset writes. */
  lemma PresetWindowReads(f: Form, name: string, parse: Parser)
    requires AgreesOnDecimals(parse)
    requires name in {"erp", "motor", "p300", "ssvep"}
    ensures parse(ApplyPreset(f, name).tmin) == Some(PresetWindow(name).0)
    ensures parse(ApplyPreset(f, name).tmax) == Some(PresetWindow(name).1)
  {
    var g := ApplyPreset(f, name);
    PresetWindowLiteral(name);
    assert DecimalLiteral(g.tmin) == Some(PresetWindow(name).0);
    assert DecimalLiteral(g.tmax) == Some(PresetWindow(name).1);
  }

  /** The window fields each preset writes are plain decimals with the intended values. */
  lemma PresetWindowLiteral(name: string)
    requires name in {"erp", "motor", "p300", "ssvep"}
    ensures var g := ApplyPreset(InitialForm, name);
      DecimalLiteral(g.tmin) == Some(PresetWindow(name).0) && DecimalLiteral(g.tmax) == Some(PresetWindow(name).1)
  {
    if name == "ssvep" {
      SsvepLiterals();
    } else if name == "erp" {
      ErpLiterals();
    } else if name == "motor" {
      MotorLiterals();
    } else {
      P300Literals();
    }
  }

  lemma NegativeTenths(s: string)
    requires |s| == 3 && IsDigit(s[0]) && s[1] == '.' && IsDigit(s[2])
    ensures DecimalLiteral(['-'] + s) == Some(-(DigitOf(s[0]) as real + DigitOf(s[2]) as real / 10.0))
  {
    OneDecimalPlace(s);
    assert ['-'] + s == "-" + s;
  }

  lemma MotorLiterals()
    ensures DecimalLiteral("-0.5") == Some(-0.5) && DecimalLiteral("1.0") == Some(1.0)
  {
    NegativeTenths("0.5");
    OneDecimalPlace("1.0");
  }

  lemma P300Literals()
    ensures DecimalLiteral("-0.1") == Some(-0.1) && DecimalLiteral("0.6") == Some(0.6)
  {
    NegativeTenths("0.1");
    OneDecimalPlace("0.6");
  }

  lemma SsvepLiterals()
    ensures DecimalLiteral("0") == Some(0.0) && DecimalLiteral("2.0") == Some(2.0)
  {
    ShortWhole("0");
    OneDecimalPlace("2.0");
  }

  /** The window the page starts with, and the "erp" preset writes. */
  lemma ErpLiterals()
    ensures DecimalLiteral("-0.2") == Some(-0.2) && DecimalLiteral("0.8") == Some(0.8)
  {
    NegativeTenths("0.2");
    OneDecimalPlace("0.8");
  }

  /**
   For a parser that reads plain decimals exactly, every named preset gives a
   window with tmin below tmax, so after a preset the form is accepted exactly
   when its rejection threshold is acceptable.
   */
  lemma PresetWindowsAreOrdered(f: Form, name: string, parse: Parser)
    requires AgreesOnDecimals(parse)
    requires name in {"erp", "motor", "p300", "ssvep"}
    ensures var g := ApplyPreset(f, name);
      parse(g.tmin).Some? && parse(g.tmax).Some? && parse(g.tmin).value < parse(g.tmax).value
    ensures CheckEpochs(ApplyPreset(f, name), parse).Valid? <==> RejectOk(f.rejectEeg, parse)
  {
    PresetWindowReads(f, name, parse);
    var g := ApplyPreset(f, name);
    assert PresetWindow(name).0 < PresetWindow(name).1;
    assert CheckBaseline(g, parse).Valid?;
  }

  /**
   The form as first shown sends the window -0.2 .. 0.8 with the baseline
   from the start to 0, no threshold, no event filter and no reference.
   */
  lemma InitialFormRequest(parse: Parser)
    requires AgreesOnDecimals(parse)
    ensures CheckEpochs(InitialForm, parse) == Valid(EpochsRequest(-0.2, 0.8, Some((None, Some(0.0))), None, None, false))
  {
    ErpLiterals();
    assert IsBlank(InitialForm.rejectEeg) by { assert Trim("") == ""; }
  }

  /** A window whose start is not before its end is refused before anything is sent. */
  lemma ReversedWindowRejected(t: State, f: Form, parse: Parser, reply: Reply)
    requires AgreesOnDecimals(parse)
    requires f.tmin == "1" && f.tmax == "0.5"
    ensures CheckEpochs(f, parse) == Invalid(BadWindow)
    ensures !ConfirmEpochs(t, f, parse, reply).sent && ConfirmEpochs(t, f, parse, reply).tracker == t
  {
    ShortWhole("1");
    OneDecimalPlace("0.5");
  }
}
