/** The history screen's logic (src/screens/DataScreen.tsx): the "Mm Ss" duration
    text, the colour band of a level (Types.DbColour), the export guard and the CSV
    text the export builds, one line per stored reading.

    The locale-dependent date and time text and `toFixed(1)` are outside the model:
    they are the functions of a Formats value, and the model only fixes which field
    of a reading goes into which column. */
module DataScreen {
  import opened Numeric
  import opened Seqs
  import opened Types

  // ------------------------------------------------------------- durations

  /** The three numbers formatDuration computes from a duration in milliseconds. */
  datatype DurationParts = DurationParts(seconds: int, minutes: int, remaining: int)

  /** `seconds = Math.floor(ms / 1000)`, `minutes = Math.floor(seconds / 60)`,
      `remaining = seconds % 60` with JavaScript's sign-of-dividend remainder. */
  function SplitDuration(ms: int): (p: DurationParts)
    ensures p.seconds * 1000 <= ms < p.seconds * 1000 + 1000
    ensures p.minutes * 60 <= p.seconds < p.minutes * 60 + 60
    ensures ms >= 0 ==> 0 <= p.remaining < 60 && p.minutes * 60 + p.remaining == p.seconds
    ensures ms < 0 ==> p.minutes < 0 && -60 < p.remaining <= 0
  {
    var seconds := ms / 1000;
    var minutes := seconds / 60;
    DurationParts(seconds, minutes, JsRem(seconds, 60))
  }

  /** The decimal digit character for 0..9. */
  function DigitChar(d: int): (c: char)
    requires 0 <= d < 10
    ensures '0' <= c <= '9' && c as int - '0' as int == d
  {
    ('0' as int + d) as char
  }

  predicate IsDigits(s: string)
  {
    forall i :: 0 <= i < |s| ==> '0' <= s[i] <= '9'
  }

  /** A natural number in decimal, as a template literal renders it. */
  function ShowNat(n: nat): (s: string)
    ensures |s| >= 1 && IsDigits(s)
  {
    if n < 10 then [DigitChar(n)] else ShowNat(n / 10) + [DigitChar(n % 10)]
  }

  /** An integer in decimal with a leading '-' when negative. */
  function ShowInt(i: int): (s: string)
    ensures |s| >= 1
    ensures forall k :: 0 <= k < |s| ==> s[k] == '-' || '0' <= s[k] <= '9'
    ensures i >= 0 ==> s == ShowNat(i)
    ensures i < 0 ==> s == "-" + ShowNat(-i)
  {
    if i < 0 then "-" + ShowNat(-i) else ShowNat(i)
  }

  /** The number a string of decimal digits denotes. */
  function DigitsValue(s: string): nat
    requires IsDigits(s)
  {
    if s == [] then 0 else 10 * DigitsValue(s[..|s| - 1]) + (s[|s| - 1] as int - '0' as int)
  }

  /** Reading back the decimal text of n gives n. */
  lemma {:induction false} ShowNatRoundTrip(n: nat)
    ensures DigitsValue(ShowNat(n)) == n
  {
    if n >= 10 {
      ShowNatRoundTrip(n / 10);
      var s := ShowNat(n);
      assert s[..|s| - 1] == ShowNat(n / 10);
    }
  }

  /** formatDuration: "Mm Ss" when at least a minute, otherwise "Ss". */
  function FormatDuration(ms: int): (t: string)
    ensures |t| >= 2 && t[|t| - 1] == 's'
  {
    var p := SplitDuration(ms);
    if p.minutes > 0 then ShowInt(p.minutes) + "m " + ShowInt(p.remaining) + "s"
    else ShowInt(p.remaining) + "s"
  }

  /** The text has a minutes part exactly when the duration is at least a minute. */
  lemma FormatDurationShape(ms: int)
    ensures 'm' in FormatDuration(ms) <==> SplitDuration(ms).minutes > 0
    ensures ' ' in FormatDuration(ms) <==> SplitDuration(ms).minutes > 0
  {
    var p := SplitDuration(ms);
    var t := FormatDuration(ms);
    if p.minutes > 0 {
      assert t[|ShowInt(p.minutes)|] == 'm';
      assert t[|ShowInt(p.minutes)| + 1] == ' ';
    } else {
      var d := ShowInt(p.remaining);
      assert t == d + "s";
      assert forall k :: 0 <= k < |t| ==> t[k] == 's' || t[k] == d[k];
    }
  }

  /** A non-empty run of decimal digits read as a number. */
  function ParseNumber(s: string): Option<int>
  {
    if s != [] && IsDigits(s) then Some(DigitsValue(s)) else None
  }

  /** Reading back the decimal text of n gives n. */
  lemma ParseShowNat(n: nat)
    ensures ParseNumber(ShowNat(n)) == Some(n)
  {
    ShowNatRoundTrip(n);
  }

  /** The space-separated pieces of a duration text without its final 's': either
      "S", or "Mm" and "S". */
  function ParsePieces(parts: seq<string>): Option<int>
  {
    if |parts| == 1 then ParseNumber(parts[0])
    else if |parts| == 2 && parts[0] != [] && parts[0][|parts[0]| - 1] == 'm' then
      match (ParseNumber(parts[0][..|parts[0]| - 1]), ParseNumber(parts[1]))
      case (Some(minutes), Some(seconds)) => Some(60 * minutes + seconds)
      case _ => None
    else None
  }

  /** Reads a duration text of the form "Ss" or "Mm Ss" back into whole seconds. */
  function ParseDuration(t: string): Option<int>
  {
    if t == [] || t[|t| - 1] != 's' then None
    else ParsePieces(Split(t[..|t| - 1], ' '))
  }

  /** Dropping the final 's' leaves the pieces to read. */
  lemma ParseDurationStrip(body: string)
    ensures ParseDuration(body + "s") == ParsePieces(Split(body, ' '))
  {
    var t := body + "s";
    assert t[..|t| - 1] == body;
  }

  /** "Ss" reads back as S seconds. */
  lemma ParseSeconds(r: nat)
    ensures ParseDuration(ShowNat(r) + "s") == Some(r)
  {
    var d := ShowNat(r);
    ParseDurationStrip(d);
    SplitNone(d, ' ');
    ParseShowNat(r);
  }

  /** The pieces "Mm" and "S" read as 60 * M + S seconds. */
  lemma ParseTwoPieces(dm: string, dr: string, m: int, r: int)
    requires ParseNumber(dm) == Some(m) && ParseNumber(dr) == Some(r)
    ensures ParsePieces([dm + "m", dr]) == Some(60 * m + r)
  {
    var head := dm + "m";
    assert head[..|head| - 1] == dm;
  }

  /** "Mm Ss" reads back as 60 * M + S seconds. */
  lemma ParseMinutesSeconds(m: nat, r: nat)
    ensures ParseDuration(ShowNat(m) + "m " + ShowNat(r) + "s") == Some(60 * m + r)
  {
    var dm, dr := ShowNat(m), ShowNat(r);
    var body := dm + "m" + [' '] + dr;
    assert dm + "m " + dr + "s" == body + "s";
    ParseDurationStrip(body);
    MinutesSecondsParts(dm, dr);
    ParseShowNat(m);
    ParseShowNat(r);
    ParseTwoPieces(dm, dr, m, r);
  }

  /** The two pieces of "M" + "m" + " " + "S" are "Mm" and "S". */
  lemma MinutesSecondsParts(dm: string, dr: string)
    requires IsDigits(dm) && IsDigits(dr)
    ensures Split(dm + "m" + [' '] + dr, ' ') == [dm + "m", dr]
  {
    var head := dm + "m";
    assert ' ' !in head by {
      assert forall k :: 0 <= k < |head| ==> head[k] == 'm' || head[k] == dm[k];
    }
    SplitCons(head, dr, ' ');
    SplitNone(dr, ' ');
  }

  /** For any non-negative duration the text names exactly its whole seconds: the
      minutes and the 0..59 remaining seconds add back up to Math.floor(ms / 1000). */
  lemma FormatDurationRoundTrip(ms: int)
    requires ms >= 0
    ensures ParseDuration(FormatDuration(ms)) == Some(ms / 1000)
  {
    var p := SplitDuration(ms);
    assert p.seconds == ms / 1000;
    if p.minutes > 0 {
      assert FormatDuration(ms) == ShowNat(p.minutes) + "m " + ShowNat(p.remaining) + "s";
      ParseMinutesSeconds(p.minutes, p.remaining);
    } else {
      assert FormatDuration(ms) == ShowNat(p.remaining) + "s";
      ParseSeconds(p.remaining);
    }
  }

  // ---------------------------------------------------------------- export

  /** What pressing the export button leads to. */
  datatype ExportStep = NoData | OfferRewardedAd | ExportNow

  /** handleExport's guard: no readings is refused with an alert; with a rewarded ad
      loaded the user is offered the ad (whose reward runs the export); otherwise the
      export runs at once. */
  function ExportStepFor(readings: seq<Reading>, adLoaded: bool): (step: ExportStep)
    ensures step == NoData <==> readings == []
    ensures step == OfferRewardedAd <==> readings != [] && adLoaded
    ensures step == ExportNow <==> readings != [] && !adLoaded
  {
    if |readings| == 0 then NoData
    else if adLoaded then OfferRewardedAd
    else ExportNow
  }

  /** The column titles of the CSV header. */
  const HeaderFields: seq<string> :=
    ["Date", "Time", "Duration (s)", "Min (dB)", "Avg (dB)", "Max (dB)", "Current (dB)"]

  /** Fields joined by one separator character. */
  function Join(fields: seq<string>, sep: char): string
    requires |fields| >= 1
    decreases |fields|
  {
    if |fields| == 1 then fields[0] else fields[0] + [sep] + Join(fields[1..], sep)
  }

  /** A character that is neither the separator nor in any field is not in the join. */
  lemma {:induction false} JoinFree(fields: seq<string>, sep: char, c: char)
    requires |fields| >= 1 && c != sep
    requires forall i :: 0 <= i < |fields| ==> c !in fields[i]
    ensures c !in Join(fields, sep)
    decreases |fields|
  {
    if |fields| > 1 {
      JoinFree(fields[1..], sep, c);
    }
  }

  /** Splitting a join of separator-free fields gives the fields back. */
  lemma {:induction false} SplitJoin(fields: seq<string>, sep: char)
    requires |fields| >= 1
    requires forall i :: 0 <= i < |fields| ==> sep !in fields[i]
    ensures Split(Join(fields, sep), sep) == fields
    decreases |fields|
  {
    if |fields| == 1 {
      SplitNone(fields[0], sep);
    } else {
      var rest := fields[1..];
      assert Join(fields, sep) == fields[0] + [sep] + Join(rest, sep);
      assert forall i :: 0 <= i < |rest| ==> rest[i] == fields[i + 1];
      SplitJoin(rest, sep);
      SplitCons(fields[0], Join(rest, sep), sep);
      assert [fields[0]] + rest == fields;
    }
  }

  /** The locale-dependent renderings the export uses: toLocaleDateString and
      toLocaleTimeString of a timestamp, and toFixed(1) of a number. */
  datatype Formats = Formats(date: int -> string, time: int -> string, fixed1: real -> string)

  /** A reading's seven CSV fields: date, time, duration in seconds, min, avg, max and
      the level, in that order. */
  function RowFields(r: Reading, f: Formats): (fields: seq<string>)
    ensures |fields| == |HeaderFields|
  {
    [f.date(r.timestamp), f.time(r.timestamp), f.fixed1(r.duration as real / 1000.0),
     f.fixed1(r.min), f.fixed1(r.avg), f.fixed1(r.max), f.fixed1(r.decibels)]
  }

  function RowLine(r: Reading, f: Formats): string
  {
    Join(RowFields(r, f), ',')
  }

  /** The CSV's first line, without its newline: the column titles joined by commas. */
  function HeaderLine(): string
  {
    Join(HeaderFields, ',')
  }


  /** Lines each followed by a newline. */
  function Terminated(lines: seq<string>): string
  {
    if lines == [] then "" else lines[0] + "\n" + Terminated(lines[1..])
  }

  lemma {:induction false} TerminatedAppend(lines: seq<string>, l: string)
    ensures Terminated(lines + [l]) == Terminated(lines) + l + "\n"
  {
    if lines != [] {
      assert (lines + [l])[1..] == lines[1..] + [l];
      TerminatedAppend(lines[1..], l);
    }
  }

  /** Newline-free lines, each terminated, split on newlines into themselves and a
      final empty piece. */
  lemma {:induction false} SplitTerminated(lines: seq<string>)
    requires forall i :: 0 <= i < |lines| ==> '\n' !in lines[i]
    ensures Split(Terminated(lines), '\n') == lines + [""]
  {
    if lines != [] {
      SplitTerminated(lines[1..]);
      SplitCons(lines[0], Terminated(lines[1..]), '\n');
      assert [lines[0]] + (lines[1..] + [""]) == lines + [""];
    }
  }

  function RowLines(rs: seq<Reading>, f: Formats): (lines: seq<string>)
    ensures |lines| == |rs|
    ensures forall i :: 0 <= i < |rs| ==> lines[i] == RowLine(rs[i], f)
  {
    seq(|rs|, i requires 0 <= i < |rs| => RowLine(rs[i], f))
  }

  /** The export's CSV: the header line, then one line per reading in list order. */
  function Csv(rs: seq<Reading>, f: Formats): string
  {
    Terminated([HeaderLine()] + RowLines(rs, f))
  }

  /** One more reading adds its row line at the end. */
  lemma LinesStep(rs: seq<Reading>, i: nat, f: Formats)
    requires i < |rs|
    ensures [HeaderLine()] + RowLines(rs[..i + 1], f) == [HeaderLine()] + RowLines(rs[..i], f) + [RowLine(rs[i], f)]
  {
    var longer, shorter := RowLines(rs[..i + 1], f), RowLines(rs[..i], f);
    assert longer == shorter + [RowLine(rs[i], f)];
  }

  /** exportData's loop: start from the header line and append one row per reading. */
  method ExportData(readings: seq<Reading>, f: Formats) returns (csv: string)
    ensures csv == Csv(readings, f)
  {
    csv := HeaderLine() + "\n";
    assert csv == Terminated([HeaderLine()] + RowLines(readings[..0], f));
    for i := 0 to |readings|
      invariant csv == Terminated([HeaderLine()] + RowLines(readings[..i], f))
    {
      TerminatedAppend([HeaderLine()] + RowLines(readings[..i], f), RowLine(readings[i], f));
      LinesStep(readings, i, f);
      csv := csv + RowLine(readings[i], f) + "\n";
    }
    assert readings[..|readings|] == readings;
  }

  /** Every rendered field of a reading is free of the two CSV separators. */
  predicate RowClean(r: Reading, f: Formats)
  {
    forall k :: 0 <= k < |HeaderFields| ==> ',' !in RowFields(r, f)[k] && '\n' !in RowFields(r, f)[k]
  }

  predicate FieldsClean(rs: seq<Reading>, f: Formats)
  {
    forall i :: 0 <= i < |rs| ==> RowClean(rs[i], f)
  }

  /** No header title holds a comma or a newline. */
  lemma HeaderFieldsClean()
    ensures forall i :: 0 <= i < |HeaderFields| ==> ',' !in HeaderFields[i] && '\n' !in HeaderFields[i]
  {
    forall i | 0 <= i < |HeaderFields|
      ensures ',' !in HeaderFields[i] && '\n' !in HeaderFields[i]
    {
      var h := HeaderFields[i];
      assert forall k :: 0 <= k < |h| ==> h[k] != ',' && h[k] != '\n';
    }
  }

  /** The header line splits into the seven column titles. */
  lemma HeaderColumns()
    ensures Split(HeaderLine(), ',') == HeaderFields && |HeaderFields| == 7
  {
    HeaderFieldsClean();
    SplitJoin(HeaderFields, ',');
  }

  /** The header is a single line. */
  lemma HeaderOneLine()
    ensures '\n' !in HeaderLine()
  {
    HeaderFieldsClean();
    JoinFree(HeaderFields, ',', '\n');
  }

  /** When no rendered field contains a comma or newline, the CSV reads back as the
      header line, exactly one line per reading in list order, and the empty piece
      after the final newline; every row splits into that reading's seven fields. */
  lemma CsvLayout(rs: seq<Reading>, f: Formats)
    requires FieldsClean(rs, f)
    ensures var lines := Split(Csv(rs, f), '\n');
      && |lines| == |rs| + 2
      && lines[0] == HeaderLine() && lines[|rs| + 1] == ""
      && (forall i :: 0 <= i < |rs| ==> lines[i + 1] == RowLine(rs[i], f))
      && (forall i :: 0 <= i < |rs| ==> Split(lines[i + 1], ',') == RowFields(rs[i], f))
  {
    var body := [HeaderLine()] + RowLines(rs, f);
    HeaderOneLine();
    LinesClean(HeaderLine(), rs, f);
    SplitTerminated(body);
    forall i | 0 <= i < |rs|
      ensures Split(RowLine(rs[i], f), ',') == RowFields(rs[i], f)
    {
      RowLineClean(rs[i], f);
    }
  }

  /** A clean reading's row line has no newline and splits into its seven fields. */
  lemma RowLineClean(r: Reading, f: Formats)
    requires RowClean(r, f)
    ensures '\n' !in RowLine(r, f)
    ensures Split(RowLine(r, f), ',') == RowFields(r, f)
  {
    var fields := RowFields(r, f);
    JoinFree(fields, ',', '\n');
    SplitJoin(fields, ',');
  }

  /** A newline-free header followed by clean row lines: no line holds a newline. */
  lemma LinesClean(header: string, rs: seq<Reading>, f: Formats)
    requires '\n' !in header
    requires FieldsClean(rs, f)
    ensures forall j :: 0 <= j < |rs| + 1 ==> '\n' !in ([header] + RowLines(rs, f))[j]
  {
    var body := [header] + RowLines(rs, f);
    forall j | 0 <= j < |rs| + 1
      ensures '\n' !in body[j]
    {
      if j > 0 {
        assert body[j] == RowLine(rs[j - 1], f);
        RowLineClean(rs[j - 1], f);
      }
    }
  }

  /** Pressing export: nothing is built without readings or while the ad is offered;
      otherwise the CSV is built, with one line per reading. */
  method HandleExport(readings: seq<Reading>, adLoaded: bool, f: Formats)
    returns (step: ExportStep, csv: Option<string>)
    ensures step == ExportStepFor(readings, adLoaded)
    ensures csv.Some? <==> readings != [] && !adLoaded
    ensures csv.Some? ==> csv.value == Csv(readings, f)
  {
    step := ExportStepFor(readings, adLoaded);
    if step == ExportNow {
      var text := ExportData(readings, f);
      csv := Some(text);
    } else {
      csv := None;
    }
  }
}
