/**
 The filter page: two optional cut-off frequencies classify the filter as
 none, high-pass, low-pass or band-pass; "Apply" checks the fields and sends
 only the sides that were filled in.
 */
module FilterPage {
  import opened Base
  import opened Strings
  import opened Numbers
  import opened Tracker
  import opened StagePage

  datatype FilterType = NoFilter | HighPass | LowPass | BandPass

  /** A cut-off side counts when its field is not blank and parses as a number. */
  predicate Present(field: string, parse: Parser)
  {
    !IsBlank(field) && parse(field).Some?
  }

  /** `getFilterType`: a low cut-off alone passes high frequencies, a high cut-off alone passes low ones. */
  function GetFilterType(lFreq: string, hFreq: string, parse: Parser): (ft: FilterType)
    ensures ft == BandPass <==> Present(lFreq, parse) && Present(hFreq, parse)
    ensures ft == HighPass <==> Present(lFreq, parse) && !Present(hFreq, parse)
    ensures ft == LowPass <==> !Present(lFreq, parse) && Present(hFreq, parse)
    ensures ft == NoFilter <==> !Present(lFreq, parse) && !Present(hFreq, parse)
  {
    var hasLow := Present(lFreq, parse);
    var hasHigh := Present(hFreq, parse);
    if hasLow && hasHigh then BandPass
    else if hasLow then HighPass
    else if hasHigh then LowPass
    else NoFilter
  }

  /** `getFilterLabel`. */
  function FilterLabel(ft: FilterType): (name: string)
    ensures |name| > 7 && name[|name| - 7..] == " Filter"
    ensures name == "No Filter" <==> ft == NoFilter
  {
    match ft
    case HighPass => "High-pass Filter"
    case LowPass => "Low-pass Filter"
    case BandPass => "Band-pass Filter"
    case NoFilter => "No Filter"
  }

  /** Each filter type shows its own label, so the badge identifies the type. */
  lemma FilterLabelsDistinct(a: FilterType, b: FilterType)
    ensures FilterLabel(a) == FilterLabel(b) <==> a == b
  {
  }

  /** Body of `POST .../filter`: `l_freq` and `h_freq`, each present or omitted. */
  datatype FilterBody = FilterBody(lFreq: Option<real>, hFreq: Option<real>)

  const NoFrequency := "Please specify at least one frequency (low or high)"
  const BadLow := "Low frequency must be a positive number"
  const BadHigh := "High frequency must be a positive number"
  const BadBand := "Low frequency must be less than high frequency for band-pass filter"

  /** A non-empty field must parse to a number that is not negative (0 is allowed). */
  predicate FieldOk(field: string, parse: Parser)
  {
    field == [] || (parse(field).Some? && parse(field).value >= 0.0)
  }

  /** The checks of `handleConfirm`, in order, and the body it builds. */
  function CheckFilter(lFreq: string, hFreq: string, parse: Parser): (c: Check<FilterBody>)
    ensures GetFilterType(lFreq, hFreq, parse) == NoFilter ==> c == Invalid(NoFrequency)
    ensures GetFilterType(lFreq, hFreq, parse) != NoFilter ==>
      && (!FieldOk(lFreq, parse) ==> c == Invalid(BadLow))
      && (FieldOk(lFreq, parse) && !FieldOk(hFreq, parse) ==> c == Invalid(BadHigh))
      && (FieldOk(lFreq, parse) && FieldOk(hFreq, parse) && GetFilterType(lFreq, hFreq, parse) == BandPass
            && parse(lFreq).value >= parse(hFreq).value
          ==> c == Invalid(BadBand))
    ensures c.Valid? <==>
      && GetFilterType(lFreq, hFreq, parse) != NoFilter
      && FieldOk(lFreq, parse) && FieldOk(hFreq, parse)
      && (GetFilterType(lFreq, hFreq, parse) == BandPass ==> parse(lFreq).value < parse(hFreq).value)
    ensures c.Valid? ==> (c.request.lFreq.Some? <==> !IsBlank(lFreq)) && (c.request.hFreq.Some? <==> !IsBlank(hFreq))
    ensures c.Valid? && c.request.lFreq.Some? ==> c.request.lFreq == parse(lFreq) && c.request.lFreq.value >= 0.0
    ensures c.Valid? && c.request.hFreq.Some? ==> c.request.hFreq == parse(hFreq) && c.request.hFreq.value >= 0.0
    ensures c.Valid? && c.request.lFreq.Some? && c.request.hFreq.Some? ==> c.request.lFreq.value < c.request.hFreq.value
  {
    var ft := GetFilterType(lFreq, hFreq, parse);
    if ft == NoFilter then Invalid(NoFrequency)
    else if lFreq != [] && (parse(lFreq).None? || parse(lFreq).value < 0.0) then Invalid(BadLow)
    else if hFreq != [] && (parse(hFreq).None? || parse(hFreq).value < 0.0) then Invalid(BadHigh)
    else if ft == BandPass && parse(lFreq).value >= parse(hFreq).value then Invalid(BadBand)
    else
      Valid(FilterBody(
        if !IsBlank(lFreq) then parse(lFreq) else None,
        if !IsBlank(hFreq) then parse(hFreq) else None))
  }

  /** The "Apply" button is disabled while no filter is specified or a submission is in flight. */
  predicate ApplyEnabled(lFreq: string, hFreq: string, parse: Parser, submitting: bool)
  {
    !(GetFilterType(lFreq, hFreq, parse) == NoFilter || submitting)
  }

  /** Whenever the checks would accept the fields, the button is enabled. */
  lemma ApplyEnabledWhenCheckPasses(lFreq: string, hFreq: string, parse: Parser, submitting: bool)
    requires CheckFilter(lFreq, hFreq, parse).Valid? && !submitting
    ensures ApplyEnabled(lFreq, hFreq, parse, submitting)
  {
  }

  /**
   The button looks only at the filter type, so it stays enabled for a
   negative low cut-off, which "Apply" then refuses.
   */
  lemma ApplyEnabledAdmitsNegativeLow(lFreq: string, parse: Parser)
    requires !IsBlank(lFreq) && parse(lFreq).Some? && parse(lFreq).value < 0.0
    ensures ApplyEnabled(lFreq, "", parse, false)
    ensures CheckFilter(lFreq, "", parse) == Invalid(BadLow)
  {
    assert IsBlank("");
  }

  /**
   `lFreq` is tested for truthiness, not after trimming: a low field of
   white space only (which `parseFloat` reads as NaN) is refused by the
   low-frequency check even when the high field alone would make a valid
   low-pass filter.
   */
  lemma BlankLowFieldIsRefused(lFreq: string, hFreq: string, parse: Parser)
    requires lFreq != [] && IsBlank(lFreq) && parse(lFreq).None?
    requires Present(hFreq, parse) && parse(hFreq).value >= 0.0
    ensures GetFilterType(lFreq, hFreq, parse) == LowPass
    ensures CheckFilter(lFreq, hFreq, parse) == Invalid(BadLow)
    ensures CheckFilter("", hFreq, parse).Valid?
  {
    assert IsBlank("");
  }

  const FilterWording := Wording("Failed to apply filter: ", true)

  /** "Apply": on success the new id is recorded as the "filter" stage; a rejected or failed request leaves the tracker alone. */
  function ConfirmFilter(t: State, lFreq: string, hFreq: string, parse: Parser, reply: Reply): (r: Outcome)
    ensures r.sent <==> HasCurrent(t) && CheckFilter(lFreq, hFreq, parse).Valid?
    ensures GetFilterType(lFreq, hFreq, parse) == NoFilter ==> !r.sent && r.tracker == t
    ensures HasCurrent(t) && CheckFilter(lFreq, hFreq, parse).Invalid? ==> r.error == Some(CheckFilter(lFreq, hFreq, parse).message)
    ensures r.sent && reply.Ok? ==> r.tracker == SetArtifactId(t, reply.id, "filter") && r.error.None?
    ensures reply.NotOk? ==> r.tracker == t
    ensures r.sent && reply.NotOk? ==> r.error == Some(FailureText(FilterWording, reply.detail, reply.statusText))
  {
    Submit(t, CheckFilter(lFreq, hFreq, parse), "filter", FilterWording, reply)
  }

  /** The preset buttons. */
  datatype Preset = Standard | Wide | HighPassOne | LowPassForty | Alpha | Beta

  /** The low and high fields each preset writes. */
  function PresetFields(p: Preset): (string, string)
  {
    match p
    case Standard => ("1", "40")
    case Wide => ("0.1", "100")
    case HighPassOne => ("1", "")
    case LowPassForty => ("", "40")
    case Alpha => ("8", "13")
    case Beta => ("13", "30")
  }

  /** The request each preset is meant to send. */
  function PresetBody(p: Preset): FilterBody
  {
    match p
    case Standard => FilterBody(Some(1.0), Some(40.0))
    case Wide => FilterBody(Some(0.1), Some(100.0))
    case HighPassOne => FilterBody(Some(1.0), None)
    case LowPassForty => FilterBody(None, Some(40.0))
    case Alpha => FilterBody(Some(8.0), Some(13.0))
    case Beta => FilterBody(Some(13.0), Some(30.0))
  }

  /**
   For a parser that reads plain decimals exactly, every preset passes the
   checks and sends its intended band; the two-sided presets are band-pass
   with low below high.
   */
  lemma PresetsPassChecks(p: Preset, parse: Parser)
    requires AgreesOnDecimals(parse)
    ensures CheckFilter(PresetFields(p).0, PresetFields(p).1, parse) == Valid(PresetBody(p))
    ensures PresetBody(p).lFreq.Some? && PresetBody(p).hFreq.Some? ==>
      GetFilterType(PresetFields(p).0, PresetFields(p).1, parse) == BandPass
  {
    var (l, h) := PresetFields(p);
    ReadsField(l, parse);
    ReadsField(h, parse);
  }

  /** How a parser that reads plain decimals exactly sees the fields the presets write. */
  lemma ReadsField(s: string, parse: Parser)
    requires AgreesOnDecimals(parse)
    requires s == "" || s == "0.1" || s == "1" || s == "8" || s == "13" || s == "30" || s == "40" || s == "100"
    ensures s == "" <==> IsBlank(s)
    ensures s == "0.1" ==> parse(s) == Some(0.1)
    ensures s == "1" ==> parse(s) == Some(1.0)
    ensures s == "8" ==> parse(s) == Some(8.0)
    ensures s == "13" ==> parse(s) == Some(13.0)
    ensures s == "30" ==> parse(s) == Some(30.0)
    ensures s == "40" ==> parse(s) == Some(40.0)
    ensures s == "100" ==> parse(s) == Some(100.0)
  {
    if s != "" {
      TrimKeepsVisibleEnds(s);
      SmallLiterals();
      LargeLiterals();
    }
  }

  lemma SmallLiterals()
    ensures DecimalLiteral("0.1") == Some(0.1)
    ensures DecimalLiteral("1") == Some(1.0)
    ensures DecimalLiteral("8") == Some(8.0)
  {
    OneDecimalPlace("0.1");
    ShortWhole("1");
    ShortWhole("8");
  }

  lemma LargeLiterals()
    ensures DecimalLiteral("13") == Some(13.0)
    ensures DecimalLiteral("30") == Some(30.0)
    ensures DecimalLiteral("40") == Some(40.0)
    ensures DecimalLiteral("100") == Some(100.0)
  {
    ShortWhole("13");
    ShortWhole("30");
    ShortWhole("40");
    ShortWhole("100");
  }
}
