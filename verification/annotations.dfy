/**
 The annotations page: the header line of a chosen CSV file is split into
 column names, the onset, duration and description columns are guessed from
 their names, and "Apply" sends the file with the three column names.
 */
module Annotations {
  import opened Base
  import opened Strings
  import opened Tracker
  import opened StagePage

  // ---------------------------------------------------------------------------
  // Header line

  /**
   `text.split(/\r?\n/)[0]`: everything before the first line break, where a
   line break is a line feed together with a carriage return just before it.
   */
  function FirstLine(text: string): (line: string)
    ensures IsPrefix(line, text)
    ensures '\n' !in line
    ensures '\n' !in text ==> line == text
    ensures '\n' in text ==>
      || text[|line|] == '\n'
      || (text[|line|] == '\r' && |line| + 1 < |text| && text[|line| + 1] == '\n')
    ensures var k := IndexOf(text, '\n');
      k < |text| && 0 < k && text[k - 1] == '\r' ==> |line| == k - 1
  {
    var k := IndexOf(text, '\n');
    if k < |text| && k > 0 && text[k - 1] == '\r' then text[..k - 1] else text[..k]
  }

  /**
   Only the first line is read: whatever follows a line feed, or a carriage
   return and line feed, does not matter.
   */
  lemma FirstLineStopsAtBreak(first: string, rest: string)
    requires '\n' !in first && (|first| == 0 || first[|first| - 1] != '\r')
    ensures FirstLine(first + "\n" + rest) == first
    ensures FirstLine(first + "\r\n" + rest) == first
    ensures HeaderColumns(first + "\n" + rest) == HeaderColumns(first + "\r\n" + rest) == HeaderColumns(first)
  {
    var a := first + "\n" + rest;
    var b := first + "\r\n" + rest;
    assert a[..|first|] == first && a[|first|] == '\n';
    assert b[..|first|] == first && b[|first|] == '\r' && b[|first| + 1] == '\n';
    assert forall j :: 0 <= j < |first| ==> a[j] == first[j] && b[j] == first[j];
    assert FirstLine(first) == first;
  }

  /** A text that starts with a line break has no columns. */
  lemma EmptyFirstLineHasNoColumns(rest: string)
    ensures HeaderColumns("\n" + rest) == [] && HeaderColumns("\r\n" + rest) == [] && HeaderColumns("") == []
  {
    FirstLineStopsAtBreak("", rest);
    assert "" + "\n" + rest == "\n" + rest;
    assert "" + "\r\n" + rest == "\r\n" + rest;
  }

  // ---------------------------------------------------------------------------
  // Tokenizer

  /**
   The raw fields of the rest of a header line, before trimming: a double
   quote toggles quoted mode and is dropped, a comma outside quotes ends the
   field, any other character is appended to the field being read (`cur`).
   */
  function RawFields(line: string, inQuotes: bool, cur: string): (r: seq<string>)
    ensures |r| >= 1
    ensures IsPrefix(cur, r[0])
    ensures '"' !in cur ==> forall f :: f in r ==> '"' !in f
    decreases |line|
  {
    if |line| == 0 then [cur]
    else if line[0] == '"' then RawFields(line[1..], !inQuotes, cur)
    else if line[0] == ',' && !inQuotes then [cur] + RawFields(line[1..], inQuotes, "")
    else RawFields(line[1..], inQuotes, cur + [line[0]])
  }

  function TrimAll(xs: seq<string>): (r: seq<string>)
    ensures |r| == |xs|
    ensures forall i :: 0 <= i < |xs| ==> r[i] == Trim(xs[i])
  {
    seq(|xs|, i requires 0 <= i < |xs| => Trim(xs[i]))
  }

  predicate NonEmpty(s: string)
  {
    |s| > 0
  }

  /** The column names `parseCSVHeader` returns for the text read from the file. */
  function HeaderColumns(text: string): seq<string>
  {
    var line := FirstLine(text);
    if line == [] then [] else Keep(TrimAll(RawFields(line, false, "")), NonEmpty)
  }

  /** One character of the tokenizer, read at position `i` of the line. */
  lemma RawFieldsStep(line: string, i: nat, inQuotes: bool, cur: string)
    requires i < |line|
    ensures RawFields(line[i..], inQuotes, cur) ==
      if line[i] == '"' then RawFields(line[i + 1..], !inQuotes, cur)
      else if line[i] == ',' && !inQuotes then [cur] + RawFields(line[i + 1..], inQuotes, "")
      else RawFields(line[i + 1..], inQuotes, cur + [line[i]])
  {
    assert line[i..][1..] == line[i + 1..];
  }

  lemma TrimAllAppend(xs: seq<string>, x: string)
    ensures TrimAll(xs + [x]) == TrimAll(xs) + [Trim(x)]
  {
  }

  /** `parseCSVHeader`, step by step as the page runs it. */
  method ParseCsvHeader(text: string) returns (columns: seq<string>)
    ensures columns == HeaderColumns(text)
    ensures forall c :: c in columns ==> |c| > 0 && Trim(c) == c && '"' !in c
  {
    var firstLine := FirstLine(text);
    if firstLine == [] {
      return [];
    }
    var cols: seq<string> := [];
    var current := "";
    var inQuotes := false;
    ghost var raw: seq<string> := [];
    assert firstLine[0..] == firstLine;
    for i := 0 to |firstLine|
      invariant cols == TrimAll(raw)
      invariant raw + RawFields(firstLine[i..], inQuotes, current) == RawFields(firstLine, false, "")
    {
      var c := firstLine[i];
      RawFieldsStep(firstLine, i, inQuotes, current);
      if c == '"' {
        inQuotes := !inQuotes;
      } else if c == ',' && !inQuotes {
        TrimAllAppend(raw, current);
        cols := cols + [Trim(current)];
        raw := raw + [current];
        current := "";
      } else {
        current := current + [c];
      }
    }
    assert firstLine[|firstLine|..] == [];
    TrimAllAppend(raw, current);
    cols := cols + [Trim(current)];
    columns := Keep(cols, NonEmpty);
    HeaderColumnsAreClean(text);
  }

  /** Every column name is non-empty, already trimmed, and free of double quotes. */
  lemma HeaderColumnsAreClean(text: string)
    ensures forall c :: c in HeaderColumns(text) ==> |c| > 0 && Trim(c) == c && '"' !in c
  {
    var line := FirstLine(text);
    if line != [] {
      var raw := RawFields(line, false, "");
      forall c | c in HeaderColumns(text)
        ensures |c| > 0 && Trim(c) == c && '"' !in c
      {
        var k :| 0 <= k < |raw| && TrimAll(raw)[k] == c;
        TrimIdempotent(raw[k]);
        TrimSpec(raw[k]);
        assert raw[k] in raw;
        var i, j :| 0 <= i <= j <= |raw[k]| && c == raw[k][i..j];
      }
    }
  }

  // ---------------------------------------------------------------------------
  // Reference readings of the tokenizer

  /** `s.split(sep)`. */
  function SplitOn(s: string, sep: char): (r: seq<string>)
    ensures |r| >= 1
  {
    if |s| == 0 then [""]
    else
      var rest := SplitOn(s[1..], sep);
      if s[0] == sep then [""] + rest else [[s[0]] + rest[0]] + rest[1..]
  }

  /** Without quotes, the raw fields are the comma-separated pieces, the first one prefixed by `cur`. */
  lemma {:induction false} RawFieldsWithoutQuotes(line: string, cur: string)
    requires '"' !in line
    ensures var s := SplitOn(line, ',');
      RawFields(line, false, cur) == [cur + s[0]] + s[1..]
    decreases |line|
  {
    if |line| == 0 {
      assert cur + "" == cur;
    } else {
      var c := line[0];
      assert c in line;
      assert forall x :: x in line[1..] ==> x in line;
      var rest := SplitOn(line[1..], ',');
      if c == ',' {
        RawFieldsWithoutQuotes(line[1..], "");
        assert "" + rest[0] == rest[0];
        assert RawFields(line, false, cur) == [cur] + ([rest[0]] + rest[1..]);
        assert [rest[0]] + rest[1..] == rest;
        assert SplitOn(line, ',') == [""] + rest;
        assert cur + "" == cur;
      } else {
        RawFieldsWithoutQuotes(line[1..], cur + [c]);
        assert RawFields(line, false, cur) == [cur + [c] + rest[0]] + rest[1..];
        assert SplitOn(line, ',') == [[c] + rest[0]] + rest[1..];
        assert cur + [c] + rest[0] == cur + ([c] + rest[0]);
      }
    }
  }

  /**
   A header line without double quotes is split on every comma, each piece is
   trimmed, empty pieces are dropped, and the order is kept.
   */
  lemma HeaderWithoutQuotes(text: string)
    requires '"' !in FirstLine(text)
    ensures HeaderColumns(text) == Keep(TrimAll(SplitOn(FirstLine(text), ',')), NonEmpty)
  {
    var line := FirstLine(text);
    RawFieldsWithoutQuotes(line, "");
    var s := SplitOn(line, ',');
    assert "" + s[0] == s[0];
    assert [s[0]] + s[1..] == s;
    if line == [] {
      assert TrimAll([""]) == [""] by { assert Trim("") == ""; }
      assert Keep([""], NonEmpty) == [];
    }
  }

  function Join(xs: seq<string>, sep: char): string
  {
    if |xs| == 0 then "" else if |xs| == 1 then xs[0] else xs[0] + [sep] + Join(xs[1..], sep)
  }

  /** The line with every double quote deleted. */
  function Unquote(s: string): (r: string)
    ensures '"' !in r
  {
    if |s| == 0 then "" else (if s[0] == '"' then "" else [s[0]]) + Unquote(s[1..])
  }

  lemma JoinCons(a: string, rest: seq<string>, sep: char)
    requires |rest| >= 1
    ensures Join([a] + rest, sep) == a + [sep] + Join(rest, sep)
  {
    assert ([a] + rest)[1..] == rest;
  }

  /**
   The tokenizer loses nothing but quotes: joining the raw fields with commas
   gives back the line with its double quotes deleted.
   */
  lemma {:induction false} RawFieldsJoinBack(line: string, inQuotes: bool, cur: string)
    ensures Join(RawFields(line, inQuotes, cur), ',') == cur + Unquote(line)
    decreases |line|, 1
  {
    if |line| == 0 {
      assert cur + Unquote(line) == cur;
    } else if line[0] == '"' {
      QuoteJoinsBack(line, inQuotes, cur);
    } else if line[0] == ',' && !inQuotes {
      SeparatorJoinsBack(line, inQuotes, cur);
    } else {
      CharJoinsBack(line, inQuotes, cur);
    }
  }

  lemma {:induction false} QuoteJoinsBack(line: string, inQuotes: bool, cur: string)
    requires |line| > 0 && line[0] == '"'
    ensures Join(RawFields(line, inQuotes, cur), ',') == cur + Unquote(line)
    decreases |line|, 0
  {
    var tail := Unquote(line[1..]);
    assert RawFields(line, inQuotes, cur) == RawFields(line[1..], !inQuotes, cur);
    RawFieldsJoinBack(line[1..], !inQuotes, cur);
    assert Unquote(line) == "" + tail == tail;
  }

  lemma {:induction false} SeparatorJoinsBack(line: string, inQuotes: bool, cur: string)
    requires |line| > 0 && line[0] == ',' && !inQuotes
    ensures Join(RawFields(line, inQuotes, cur), ',') == cur + Unquote(line)
    decreases |line|, 0
  {
    var tail := Unquote(line[1..]);
    var rest := RawFields(line[1..], inQuotes, "");
    assert RawFields(line, inQuotes, cur) == [cur] + rest;
    RawFieldsJoinBack(line[1..], inQuotes, "");
    assert Join(rest, ',') == tail by { assert "" + tail == tail; }
    JoinCons(cur, rest, ',');
    assert Unquote(line) == [','] + tail;
    assert cur + [','] + tail == cur + ([','] + tail);
  }

  lemma {:induction false} CharJoinsBack(line: string, inQuotes: bool, cur: string)
    requires |line| > 0 && line[0] != '"' && !(line[0] == ',' && !inQuotes)
    ensures Join(RawFields(line, inQuotes, cur), ',') == cur + Unquote(line)
    decreases |line|, 0
  {
    var c := line[0];
    var tail := Unquote(line[1..]);
    assert RawFields(line, inQuotes, cur) == RawFields(line[1..], inQuotes, cur + [c]);
    RawFieldsJoinBack(line[1..], inQuotes, cur + [c]);
    assert Unquote(line) == [c] + tail;
    assert cur + [c] + tail == cur + ([c] + tail);
  }

  /**
   Inside quotes every character but a quote joins the field being read,
   commas included.
   */
  lemma {:induction false} QuotedRunStaysInField(s: string, tail: string, cur: string)
    requires '"' !in s
    ensures RawFields(s + tail, true, cur) == RawFields(tail, true, cur + s)
    decreases |s|
  {
    if |s| == 0 {
      assert s + tail == tail;
      assert cur + s == cur;
    } else {
      assert s[0] in s;
      assert forall x :: x in s[1..] ==> x in s;
      assert (s + tail)[1..] == s[1..] + tail;
      QuotedRunStaysInField(s[1..], tail, cur + [s[0]]);
      assert cur + [s[0]] + s[1..] == cur + s;
    }
  }

  /**
   A quoted segment is read as plain text of the current field: its commas
   do not split, and reading continues outside quotes after it.
   */
  lemma QuotedSegmentStaysInField(s: string, rest: string, cur: string)
    requires '"' !in s
    ensures RawFields("\"" + s + "\"" + rest, false, cur) == RawFields(rest, false, cur + s)
  {
    var line := "\"" + s + "\"" + rest;
    var after := "\"" + rest;
    assert line[1..] == s + after;
    QuotedRunStaysInField(s, after, cur);
    assert after[1..] == rest;
  }

  /** A quoted comma stays inside its column: `"a,b",c` gives the columns `a,b` and `c`. */
  lemma QuotedCommaExample()
    ensures HeaderColumns("\"a,b\",c") == ["a,b", "c"]
  {
    QuotedCommaLine();
    QuotedCommaFields();
    QuotedCommaTrimmed();
    assert Keep(["a,b", "c"], NonEmpty) == ["a,b", "c"];
  }

  lemma QuotedCommaLine()
    ensures FirstLine("\"a,b\",c") == "\"a,b\",c"
  {
    var line := "\"a,b\",c";
    assert forall k :: 0 <= k < |line| ==> line[k] != '\n';
  }

  lemma QuotedCommaTrimmed()
    ensures TrimAll(["a,b", "c"]) == ["a,b", "c"]
  {
    TrimKeepsVisibleEnds("a,b");
    TrimKeepsVisibleEnds("c");
  }

  lemma QuotedCommaFields()
    ensures RawFields("\"a,b\",c", false, "") == ["a,b", "c"]
  {
    var line := "\"a,b\",c";
    calc {
      RawFields(line, false, "");
      { assert line[1..] == "a,b\",c"; }
      RawFields("a,b\",c", true, "");
      { assert "a,b\",c"[1..] == ",b\",c"; assert "" + ['a'] == "a"; }
      RawFields(",b\",c", true, "a");
      { assert ",b\",c"[1..] == "b\",c"; assert "a" + [','] == "a,"; }
      RawFields("b\",c", true, "a,");
    }
    QuotedCommaFieldsTail();
  }

  lemma QuotedCommaFieldsTail()
    ensures RawFields("b\",c", true, "a,") == ["a,b", "c"]
  {
    calc {
      RawFields("b\",c", true, "a,");
      { assert "b\",c"[1..] == "\",c"; assert "a," + ['b'] == "a,b"; }
      RawFields("\",c", true, "a,b");
      { assert "\",c"[1..] == ",c"; }
      RawFields(",c", false, "a,b");
      { assert ",c"[1..] == "c"; }
      ["a,b"] + RawFields("c", false, "");
      { assert "c"[1..] == ""; assert "" + ['c'] == "c"; }
      ["a,b"] + RawFields("", false, "c");
      ["a,b", "c"];
    }
  }

  // ---------------------------------------------------------------------------
  // Column auto-mapping

  datatype Mapping = Mapping(onset: Option<string>, duration: Option<string>, description: Option<string>)

  const Unmapped := Mapping(None, None, None)

  /** Names that suggest the onset column, compared in lower case. */
  predicate IsOnsetName(col: string)
  {
    var l := Lower(col);
    Contains(l, "onset") || l == "start" || l == "time"
  }

  predicate IsDurationName(col: string)
  {
    var l := Lower(col);
    Contains(l, "duration") || l == "length"
  }

  predicate IsDescriptionName(col: string)
  {
    var l := Lower(col);
    Contains(l, "description") || Contains(l, "desc") || l == "event" || l == "label" || l == "type"
  }

  /** Each field gets the first column, in header order, whose name suggests it. */
  function Guess(cols: seq<string>): Mapping
  {
    Mapping(Find(cols, IsOnsetName), Find(cols, IsDurationName), Find(cols, IsDescriptionName))
  }

  /** No keyword matches the empty name, so a filled field is always truthy. */
  lemma EmptyNameMatchesNothing()
    ensures !IsOnsetName("") && !IsDurationName("") && !IsDescriptionName("")
  {
    assert Lower("") == "";
  }

  /**
   One field's update for one more column: the field, still empty, takes the
   column when the column matches; afterwards it holds the first match.
   */
  lemma FieldStep(xs: seq<string>, x: string, p: string -> bool, before: Option<string>, after: Option<string>)
    requires before == Find(xs, p)
    requires !p("")
    requires after == if p(x) && !Truthy(before) then Some(x) else before
    ensures after == Find(xs + [x], p)
  {
    FindAppend(xs, x, p);
  }

  /**
   The auto-detection loop of `handleFileChange`: for each column in order,
   every field whose keywords it matches and that is still empty takes it.
   */
  method AutoDetect(cols: seq<string>) returns (m: Mapping)
    ensures m == Guess(cols)
  {
    m := Unmapped;
    EmptyNameMatchesNothing();
    for i := 0 to |cols|
      invariant m == Guess(cols[..i])
    {
      var col := cols[i];
      assert cols[..i + 1] == cols[..i] + [col];
      var before := m;
      if IsOnsetName(col) {
        if !Truthy(m.onset) {
          m := m.(onset := Some(col));
        }
      }
      FieldStep(cols[..i], col, IsOnsetName, before.onset, m.onset);
      if IsDurationName(col) {
        if !Truthy(m.duration) {
          m := m.(duration := Some(col));
        }
      }
      FieldStep(cols[..i], col, IsDurationName, before.duration, m.duration);
      if IsDescriptionName(col) {
        if !Truthy(m.description) {
          m := m.(description := Some(col));
        }
      }
      FieldStep(cols[..i], col, IsDescriptionName, before.description, m.description);
    }
    assert cols[..|cols|] == cols;
  }

  /**
   The fields are guessed independently: a leading column whose name matches
   both the onset and the duration keywords fills both fields.
   */
  lemma OneColumnCanFillTwoFields(col: string, rest: seq<string>)
    requires IsOnsetName(col) && IsDurationName(col)
    ensures Guess([col] + rest).onset == Some(col) && Guess([col] + rest).duration == Some(col)
  {
  }

  // ---------------------------------------------------------------------------
  // Page state

  /** The chosen file: its name and the text read from its first 4 KB. */
  datatype CsvFile = CsvFile(name: string, head: string)

  datatype View = View(file: Option<CsvFile>, columns: seq<string>, mapping: Mapping, error: Option<string>)

  const UnreadableHeader := "Could not parse CSV headers. Please check the file format."

  /**
   Choosing a file and reading its header. No choice changes nothing; a
   header without columns clears the file and columns and shows an error;
   otherwise the columns are listed and the mapping guessed from them.
   */
  method ChooseFile(v: View, selected: Option<CsvFile>) returns (r: View)
    ensures selected.None? ==> r == v
    ensures selected.Some? && HeaderColumns(selected.value.head) == [] ==>
      r == View(None, [], Unmapped, Some(UnreadableHeader))
    ensures selected.Some? && HeaderColumns(selected.value.head) != [] ==>
      r == View(selected, HeaderColumns(selected.value.head), Guess(HeaderColumns(selected.value.head)), None)
  {
    if selected.None? {
      return v;
    }
    r := v.(error := None, file := selected, mapping := Unmapped);
    var parsed := ParseCsvHeader(selected.value.head);
    if |parsed| == 0 {
      r := r.(error := Some(UnreadableHeader), file := None, columns := []);
      return;
    }
    r := r.(columns := parsed);
    var m := AutoDetect(parsed);
    r := r.(mapping := m);
  }

  /** "Clear": no file, no columns, nothing mapped. */
  function ClearFile(v: View): (r: View)
    ensures r.file.None? && r.columns == [] && r.mapping == Unmapped && r.error == v.error
  {
    v.(file := None, columns := [], mapping := Unmapped)
  }

  datatype Field = Onset | Duration | Description

  /** Picking a column for one field in its drop-down; the other fields keep theirs. */
  function ChooseColumn(v: View, field: Field, column: string): (r: View)
    ensures r.file == v.file && r.columns == v.columns && r.error == v.error
    ensures field == Onset ==> r.mapping == v.mapping.(onset := Some(column))
    ensures field == Duration ==> r.mapping == v.mapping.(duration := Some(column))
    ensures field == Description ==> r.mapping == v.mapping.(description := Some(column))
  {
    match field
    case Onset => v.(mapping := v.mapping.(onset := Some(column)))
    case Duration => v.(mapping := v.mapping.(duration := Some(column)))
    case Description => v.(mapping := v.mapping.(description := Some(column)))
  }

  // ---------------------------------------------------------------------------
  // Submission

  /** Body of `POST .../set_annotations`: the file and the three column names. */
  datatype AnnotationsRequest = AnnotationsRequest(file: CsvFile, onsetColumn: string, durationColumn: string, descriptionColumn: string)

  const NoFile := "Please select a CSV file"
  const Unmapped3 := "Please map all three columns: onset, duration, and description"

  predicate AllMapped(m: Mapping)
  {
    Truthy(m.onset) && Truthy(m.duration) && Truthy(m.description)
  }

  /** The guards of `handleConfirm`, then the request. */
  function CheckAnnotations(v: View): (c: Check<AnnotationsRequest>)
    ensures v.file.None? ==> c == Invalid(NoFile)
    ensures v.file.Some? && !AllMapped(v.mapping) ==> c == Invalid(Unmapped3)
    ensures c.Valid? <==> v.file.Some? && AllMapped(v.mapping)
    ensures c.Valid? ==>
      && c.request.file == v.file.value
      && Some(c.request.onsetColumn) == v.mapping.onset
      && Some(c.request.durationColumn) == v.mapping.duration
      && Some(c.request.descriptionColumn) == v.mapping.description
  {
    if v.file.None? then Invalid(NoFile)
    else if !AllMapped(v.mapping) then Invalid(Unmapped3)
    else Valid(AnnotationsRequest(v.file.value, v.mapping.onset.value, v.mapping.duration.value, v.mapping.description.value))
  }

  /** "Apply Annotations" is enabled with a file, all three columns mapped and no submission in flight. */
  predicate ApplyEnabled(v: View, submitting: bool)
  {
    !(v.file.None? || !AllMapped(v.mapping) || submitting)
  }

  lemma ApplyEnabledPassesCheck(v: View, submitting: bool)
    ensures ApplyEnabled(v, submitting) <==> CheckAnnotations(v).Valid? && !submitting
  {
  }

  const AnnotationsWording := Wording("Failed to set annotations: ", true)

  /** "Apply Annotations": success records the new id as the "annotations" stage. */
  function ConfirmAnnotations(t: State, v: View, reply: Reply): (r: Outcome)
    ensures r.sent <==> HasCurrent(t) && v.file.Some? && AllMapped(v.mapping)
    ensures HasCurrent(t) && CheckAnnotations(v).Invalid? ==> r.error == Some(CheckAnnotations(v).message)
    ensures r.sent && reply.Ok? ==> r.tracker == SetArtifactId(t, reply.id, "annotations") && r.error.None?
    ensures !(r.sent && reply.Ok?) ==> r.tracker == t
    ensures r.sent && reply.NotOk? ==> r.error == Some(FailureText(AnnotationsWording, reply.detail, reply.statusText))
  {
    Submit(t, CheckAnnotations(v), "annotations", AnnotationsWording, reply)
  }

  /** A freshly parsed file whose guess filled all three fields can be submitted as it stands. */
  lemma GuessedMappingIsSubmittable(v: View, selected: CsvFile)
    requires var cols := HeaderColumns(selected.head);
      cols != [] && Guess(cols).onset.Some? && Guess(cols).duration.Some? && Guess(cols).description.Some?
    ensures var cols := HeaderColumns(selected.head);
      CheckAnnotations(View(Some(selected), cols, Guess(cols), None)).Valid?
  {
    EmptyNameMatchesNothing();
  }
}
