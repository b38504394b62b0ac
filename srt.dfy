/**
 * The transcript readers of the component: `timeToSeconds`, which turns a
 * colon-separated timestamp into seconds, and `parseTranscriptSegments`,
 * which turns SubRip (SRT) text into timed segments or, when any block is
 * malformed, into one fixed error segment. Seconds are exact `real`s.
 */
module Srt {
  import opened Wrappers
  import opened Text

  // ---------------------------------------------------------------------------
  // parseFloat
  // ---------------------------------------------------------------------------

  /** The text starts with something `parseFloat` reads as a number. */
  predicate StartsNumeric(t: string)
  {
    |t| > 0 && (IsDigit(t[0]) || (t[0] == '.' && |t| > 1 && IsDigit(t[1])))
  }

  /**
   * `parseFloat(s)`: skip leading white space, then read the longest prefix
   * of the form `digits`, `digits.digits`, `digits.` or `.digits`; `None`
   * stands for NaN, when no such prefix exists.
   */
  function ParseFloat(s: string): (r: Option<real>)
    ensures r.Some? <==> StartsNumeric(TrimStart(s))
    ensures r.Some? ==> r.value >= 0.0
  {
    ReadNumber(TrimStart(s))
  }

  /** The number at the start of text that no longer starts with white space. */
  function ReadNumber(t: string): (r: Option<real>)
    ensures r.Some? <==> StartsNumeric(t)
    ensures r.Some? ==> r.value >= 0.0
  {
    var n := LeadingDigits(t);
    if n < |t| && t[n] == '.' then
      var rest := t[n + 1..];
      var f := LeadingDigits(rest);
      if n == 0 && f == 0 then None
      else Some(Decimal(t[..n], rest[..f]))
    else if n == 0 then None
    else Some(DigitsValue(t[..n]) as real)
  }

  /** The value of `whole.fraction` written in decimal digits. */
  function Decimal(whole: string, fraction: string): (x: real)
    requires AllDigits(whole) && AllDigits(fraction)
    ensures x >= 0.0
  {
    DigitsValue(whole) as real + Fraction(fraction)
  }

  /** The value of the digits after a decimal point. */
  function Fraction(ds: string): (x: real)
    requires AllDigits(ds)
    ensures 0.0 <= x
  {
    var p := Pow10(|ds|) as real;
    assert p > 0.0;
    (DigitsValue(ds) as real) / p
  }

  /** `parseFloat` stops at the first character that cannot continue a number. */
  lemma ParseFloatDigits(ds: string, rest: string)
    requires |ds| > 0 && AllDigits(ds)
    requires rest == [] || (!IsDigit(rest[0]) && rest[0] != '.')
    ensures ParseFloat(ds + rest) == Some(DigitsValue(ds) as real)
  {
    var t := ds + rest;
    assert t[0] == ds[0];
    TrimStartAtDigit(t);
    LeadingDigitsOf(ds, rest);
    assert t[..|ds|] == ds;
    assert |ds| < |t| ==> t[|ds|] == rest[0];
  }

  /** `parseFloat` of `digits.digits`: the fraction counts, and the number ends at the next non-digit. */
  lemma ParseFloatDecimal(ds: string, fs: string, rest: string)
    requires |ds| > 0 && AllDigits(ds) && AllDigits(fs)
    requires rest == [] || !IsDigit(rest[0])
    ensures ParseFloat(ds + "." + fs + rest) == Some(Decimal(ds, fs))
  {
    var after := "." + fs + rest;
    var t := ds + after;
    assert ds + "." + fs + rest == t;
    assert t[0] == ds[0];
    TrimStartAtDigit(t);
    ReadDecimal(ds, fs, rest);
  }

  lemma ReadDecimal(ds: string, fs: string, rest: string)
    requires |ds| > 0 && AllDigits(ds) && AllDigits(fs)
    requires rest == [] || !IsDigit(rest[0])
    ensures ReadNumber(ds + ("." + fs + rest)) == Some(Decimal(ds, fs))
  {
    var after := "." + fs + rest;
    var t := ds + after;
    assert after[0] == '.';
    LeadingDigitsOf(ds, after);
    var n := |ds|;
    assert t[..n] == ds && t[n] == '.';
    var tail := t[n + 1..];
    assert tail == fs + rest;
    LeadingDigitsOf(fs, rest);
    assert tail[..|fs|] == fs;
    ReadNumberDecimal(t, n, |fs|);
  }

  /** How `ReadNumber` reads a number whose whole part is followed by `.`. */
  lemma ReadNumberDecimal(t: string, n: nat, f: nat)
    requires 0 < n == LeadingDigits(t) && n < |t| && t[n] == '.'
    requires f == LeadingDigits(t[n + 1..])
    ensures ReadNumber(t) == Some(Decimal(t[..n], t[n + 1..][..f]))
  {
    var whole, fraction := t[..n], t[n + 1..][..f];
    assert AllDigits(whole) && AllDigits(fraction);
    assert ReadNumber(t) == Some(Decimal(whole, fraction));
  }

  /** `parseFloat` of `.digits`: there is no whole part, only the fraction. */
  lemma ParseFloatLeadingDot(fs: string, rest: string)
    requires |fs| > 0 && AllDigits(fs)
    requires rest == [] || !IsDigit(rest[0])
    ensures ParseFloat("." + fs + rest) == Some(Decimal([], fs))
  {
    var t := "." + fs + rest;
    assert t[0] == '.' && !IsSpace(t[0]);
    assert TrimStart(t) == t;
    assert LeadingDigits(t) == 0;
    assert t[..0] == [];
    assert t[1..] == fs + rest;
    LeadingDigitsOf(fs, rest);
    assert (fs + rest)[..|fs|] == fs;
  }

  /** `parseFloat` skips leading white space. */
  lemma ParseFloatSkipsSpace(c: char, s: string)
    requires IsSpace(c)
    ensures ParseFloat([c] + s) == ParseFloat(s)
  {
    var cs := [c] + s;
    assert cs != [] && IsSpace(cs[0]) && cs[1..] == s;
    assert TrimStart(cs) == TrimStart(s);
  }

  lemma TrimStartAtDigit(t: string)
    requires |t| > 0 && IsDigit(t[0])
    ensures TrimStart(t) == t
  {
    assert !IsSpace(t[0]);
  }

  lemma {:induction false} LeadingDigitsOf(ds: string, rest: string)
    requires AllDigits(ds)
    requires rest == [] || !IsDigit(rest[0])
    ensures LeadingDigits(ds + rest) == |ds|
    decreases |ds|
  {
    if ds != [] {
      assert (ds + rest)[1..] == ds[1..] + rest;
      LeadingDigitsOf(ds[1..], rest);
    } else {
      assert ds + rest == rest;
    }
  }

  // ---------------------------------------------------------------------------
  // timeToSeconds
  // ---------------------------------------------------------------------------

  /**
   * `timeToSeconds`: three `:`-separated parts are hours, minutes and
   * seconds, two are minutes and seconds; any other shape, or a part that
   * `parseFloat` reads as NaN, is caught and gives 0.
   */
  function TimeToSeconds(timeString: string): (r: real)
    ensures r >= 0.0
    ensures |Split(timeString, ":")| != 2 && |Split(timeString, ":")| != 3 ==> r == 0.0
  {
    SecondsOfParts(Split(timeString, ":"))
  }

  /** The arithmetic of `timeToSeconds` once the string is split at `:`. */
  function SecondsOfParts(parts: seq<string>): (r: real)
    ensures r >= 0.0
  {
    if |parts| == 3 then
      var h, m, s := ParseFloat(parts[0]), ParseFloat(parts[1]), ParseFloat(parts[2]);
      if h.Some? && m.Some? && s.Some? then h.value * 3600.0 + m.value * 60.0 + s.value else 0.0
    else if |parts| == 2 then
      var m, s := ParseFloat(parts[0]), ParseFloat(parts[1]);
      if m.Some? && s.Some? then m.value * 60.0 + s.value else 0.0
    else
      0.0
  }

  /** `H:M:S` with digit fields and an arbitrary non-numeric tail after the seconds. */
  lemma TimeToSecondsHms(h: string, m: string, s: string, tail: string)
    requires |h| > 0 && |m| > 0 && |s| > 0 && AllDigits(h) && AllDigits(m) && AllDigits(s)
    requires ':' !in tail && (tail == [] || (!IsDigit(tail[0]) && tail[0] != '.'))
    ensures TimeToSeconds(h + ":" + m + ":" + s + tail)
         == (DigitsValue(h) as real) * 3600.0 + (DigitsValue(m) as real) * 60.0 + DigitsValue(s) as real
  {
    SplitHms(h, m, s, tail);
    ParseFloatDigits(h, []);
    ParseFloatDigits(m, []);
    ParseFloatDigits(s, tail);
    assert h + [] == h && m + [] == m;
    SecondsOfThree(h, m, s + tail, DigitsValue(h) as real, DigitsValue(m) as real, DigitsValue(s) as real);
  }

  lemma SecondsOfThree(a: string, b: string, c: string, hours: real, minutes: real, seconds: real)
    requires ParseFloat(a) == Some(hours) && ParseFloat(b) == Some(minutes) && ParseFloat(c) == Some(seconds)
    ensures SecondsOfParts([a, b, c]) == hours * 3600.0 + minutes * 60.0 + seconds
  {
    var parts := [a, b, c];
    assert parts[0] == a && parts[1] == b && parts[2] == c;
  }

  lemma SplitHms(h: string, m: string, s: string, tail: string)
    requires AllDigits(h) && AllDigits(m) && AllDigits(s) && ':' !in tail
    ensures Split(h + ":" + m + ":" + s + tail, ":") == [h, m, s + tail]
  {
    NoColonInDigits(h);
    NoColonInDigits(m);
    NoColonInDigits(s);
    assert ':' !in s + tail by { assert forall c :: c in s + tail ==> c in s || c in tail; }
    assert h + ":" + m + ":" + s + tail == h + ":" + (m + ":" + (s + tail));
    SplitAtSeparator(h, ":", m + ":" + (s + tail));
    SplitAtSeparator(m, ":", s + tail);
    SplitWithoutSeparator(s + tail, ":");
  }

  /** `M:S` with digit fields. */
  lemma TimeToSecondsMs(m: string, s: string)
    requires |m| > 0 && |s| > 0 && AllDigits(m) && AllDigits(s)
    ensures TimeToSeconds(m + ":" + s) == (DigitsValue(m) as real) * 60.0 + DigitsValue(s) as real
  {
    assert Split(m + ":" + s, ":") == [m, s] by {
      NoColonInDigits(m);
      NoColonInDigits(s);
      SplitAtSeparator(m, ":", s);
      SplitWithoutSeparator(s, ":");
    }
    ParseFloatDigits(m, []);
    ParseFloatDigits(s, []);
    assert m + [] == m && s + [] == s;
    SecondsOfTwo(m, s, DigitsValue(m) as real, DigitsValue(s) as real);
  }

  lemma SecondsOfTwo(a: string, b: string, minutes: real, seconds: real)
    requires ParseFloat(a) == Some(minutes) && ParseFloat(b) == Some(seconds)
    ensures SecondsOfParts([a, b]) == minutes * 60.0 + seconds
  {
    var parts := [a, b];
    assert parts[0] == a && parts[1] == b;
  }

  /** Three `:`-free parts joined by `:` split back into those parts. */
  lemma SplitThree(a: string, b: string, c: string)
    requires ':' !in a && ':' !in b && ':' !in c
    ensures Split(a + ":" + b + ":" + c, ":") == [a, b, c]
  {
    assert a + ":" + b + ":" + c == a + ":" + (b + ":" + c);
    SplitAtSeparator(a, ":", b + ":" + c);
    SplitAtSeparator(b, ":", c);
    SplitWithoutSeparator(c, ":");
  }

  /** Any three `:`-free parts: each counts as `parseFloat` reads it. */
  lemma TimeToSecondsThreeParts(a: string, b: string, c: string)
    requires ':' !in a && ':' !in b && ':' !in c
    ensures TimeToSeconds(a + ":" + b + ":" + c) == SecondsOfParts([a, b, c])
  {
    SplitThree(a, b, c);
  }

  /** Any two `:`-free parts: each counts as `parseFloat` reads it. */
  lemma TimeToSecondsTwoParts(a: string, b: string)
    requires ':' !in a && ':' !in b
    ensures TimeToSeconds(a + ":" + b) == SecondsOfParts([a, b])
  {
    SplitAtSeparator(a, ":", b);
    SplitWithoutSeparator(b, ":");
  }

  /**
   * A two- or three-part time with a part `parseFloat` reads as NaN is
   * caught and gives 0, whatever the other parts are.
   */
  lemma TimeToSecondsNaNPart(timeString: string, k: nat)
    requires |Split(timeString, ":")| == 2 || |Split(timeString, ":")| == 3
    requires k < |Split(timeString, ":")| && !StartsNumeric(TrimStart(Split(timeString, ":")[k]))
    ensures TimeToSeconds(timeString) == 0.0
  {
    SecondsOfPartsNaN(Split(timeString, ":"), k);
  }

  lemma SecondsOfPartsNaN(parts: seq<string>, k: nat)
    requires (|parts| == 2 || |parts| == 3) && k < |parts| && ParseFloat(parts[k]).None?
    ensures SecondsOfParts(parts) == 0.0
  {
    assert k == 0 || k == 1 || k == 2;
    if k == 0 {
      assert ParseFloat(parts[0]).None?;
    } else if k == 1 {
      assert ParseFloat(parts[1]).None?;
    } else {
      assert ParseFloat(parts[2]).None?;
    }
  }

  /** `H:M:S.F` with digit fields: the fraction of the seconds field counts. */
  lemma TimeToSecondsHmsDecimal(h: string, m: string, s: string, fs: string)
    requires |h| > 0 && |m| > 0 && |s| > 0 && AllDigits(h) && AllDigits(m) && AllDigits(s) && AllDigits(fs)
    ensures TimeToSeconds(h + ":" + m + ":" + s + ("." + fs))
         == (DigitsValue(h) as real) * 3600.0 + (DigitsValue(m) as real) * 60.0 + Decimal(s, fs)
  {
    var tail := "." + fs;
    assert ':' !in tail by { NoColonInDigits(fs); assert tail == ['.'] + fs; }
    SplitHms(h, m, s, tail);
    WholeField(h);
    WholeField(m);
    DecimalField(s, fs);
    SecondsOfThree(h, m, s + tail, DigitsValue(h) as real, DigitsValue(m) as real, Decimal(s, fs));
  }

  lemma WholeField(ds: string)
    requires |ds| > 0 && AllDigits(ds)
    ensures ParseFloat(ds) == Some(DigitsValue(ds) as real)
  {
    ParseFloatDigits(ds, []);
    assert ds + [] == ds;
  }

  lemma DecimalField(ds: string, fs: string)
    requires |ds| > 0 && AllDigits(ds) && AllDigits(fs)
    ensures ParseFloat(ds + ("." + fs)) == Some(Decimal(ds, fs))
  {
    var after := "." + fs;
    assert after + [] == after;
    var t := ds + after;
    assert t[0] == ds[0];
    TrimStartAtDigit(t);
    ReadDecimal(ds, fs, []);
  }

  /** A fractional seconds field counts: `00:01:02.5` is 62.5 seconds. */
  lemma TimeToSecondsFractionExample()
    ensures TimeToSeconds("00:01:02.5") == 62.5
  {
    assert "00:01:02.5" == "00" + ":" + "01" + ":" + "02" + ("." + "5");
    assert AllDigits("00") && DigitsValue("00") == 0 by { TwoDigits('0', '0'); }
    assert AllDigits("01") && DigitsValue("01") == 1 by { TwoDigits('0', '1'); }
    assert AllDigits("02") && DigitsValue("02") == 2 by { TwoDigits('0', '2'); }
    assert AllDigits("5");
    TimeToSecondsHmsDecimal("00", "01", "02", "5");
    DecimalExample();
  }

  lemma DecimalExample()
    ensures Decimal("02", "5") == 2.5
  {
    assert AllDigits("02") && DigitsValue("02") == 2 by { TwoDigits('0', '2'); }
    assert DigitsValue("5") == 5 by { assert "5"[..0] == []; }
    assert Pow10(1) == 10;
    assert Fraction("5") == 0.5;
  }

  /** A part that is not a number is caught: `ab:00` is 0. */
  lemma TimeToSecondsNaNExample()
    ensures TimeToSeconds("ab:00") == 0.0
  {
    assert "ab:00" == "ab" + ":" + "00";
    SplitAtSeparator("ab", ":", "00");
    SplitWithoutSeparator("00", ":");
    assert TrimStart("ab") == "ab" by { assert !IsSpace('a'); }
    TimeToSecondsNaNPart("ab:00", 0);
  }

  lemma NoColonInDigits(s: string)
    requires AllDigits(s)
    ensures ':' !in s
  {
  }

  /** Hours, minutes and seconds: `01:02:03` is 3723 seconds. */
  lemma TimeToSecondsHmsExample()
    ensures TimeToSeconds("01:02:03") == 3723.0
  {
    assert "01:02:03" == "01" + ":" + "02" + ":" + "03" + [];
    assert AllDigits("01") && DigitsValue("01") == 1 by { TwoDigits('0', '1'); }
    assert AllDigits("02") && DigitsValue("02") == 2 by { TwoDigits('0', '2'); }
    assert AllDigits("03") && DigitsValue("03") == 3 by { TwoDigits('0', '3'); }
    TimeToSecondsHms("01", "02", "03", []);
  }

  /** Minutes and seconds: `02:03` is 123 seconds. */
  lemma TimeToSecondsMsExample()
    ensures TimeToSeconds("02:03") == 123.0
  {
    assert "02:03" == "02" + ":" + "03";
    assert AllDigits("02") && DigitsValue("02") == 2 by { TwoDigits('0', '2'); }
    assert AllDigits("03") && DigitsValue("03") == 3 by { TwoDigits('0', '3'); }
    TimeToSecondsMs("02", "03");
  }

  /** A string with no `:` is caught and read as 0. */
  lemma TimeToSecondsBadExample()
    ensures TimeToSeconds("bad") == 0.0
  {
    SplitWithoutSeparator("bad", ":");
  }

  lemma TwoDigits(a: char, b: char)
    requires IsDigit(a) && IsDigit(b)
    ensures AllDigits([a, b]) && DigitsValue([a, b]) == 10 * DigitValue(a) + DigitValue(b)
  {
    assert [a, b][..1] == [a];
    assert [a][..0] == [];
    assert DigitsValue([a]) == DigitValue(a);
  }

  /** An SRT timestamp such as `00:00:03,500` reads as 3: `parseFloat` stops at the comma. */
  lemma TimeToSecondsSrtComma()
    ensures TimeToSeconds("00:00:03,500") == 3.0
  {
    assert "00:00:03,500" == "00" + ":" + "00" + ":" + "03" + ",500";
    assert AllDigits("00") && DigitsValue("00") == 0 by { TwoDigits('0', '0'); }
    assert AllDigits("03") && DigitsValue("03") == 3 by { TwoDigits('0', '3'); }
    TimeToSecondsHms("00", "00", "03", ",500");
  }

  // ---------------------------------------------------------------------------
  // parseTranscriptSegments
  // ---------------------------------------------------------------------------

  datatype Segment = Segment(id: string, startTime: real, endTime: real, text: string)

  /** The single segment that replaces the whole result when any block is malformed. */
  const ErrorSegment := Segment("1", 0.0, 0.0, "Error parsing transcript. Please check the format.")

  /** The blocks of a document: its trimmed text split at blank lines. */
  function Blocks(srt: string): seq<string>
  {
    Split(Trim(srt), "\n\n")
  }

  /**
   * A block that does not throw: at least three lines (id, time line, text),
   * and a time line with a ` --> ` so that the end time is defined.
   */
  predicate WellFormedBlock(block: string)
  {
    var lines := Split(block, "\n");
    |lines| >= 3 && |Split(lines[1], " --> ")| >= 2
  }

  /**
   * One block to one segment; `None` where the source throws. Any malformed
   * timestamp is 0 (never NaN), so only the shape of the block can fail.
   */
  function ParseBlock(block: string): (r: Option<Segment>)
    ensures r.Some? <==> WellFormedBlock(block)
  {
    var lines := Split(block, "\n");
    if |lines| < 3 then None
    else
      var times := Split(lines[1], " --> ");
      if |times| < 2 then None
      else Some(Segment(lines[0], TimeToSeconds(times[0]), TimeToSeconds(times[1]), Join(lines[2..], "\n")))
  }

  /** An SRT block as a subtitle file lays it out: id line, `start --> end` line, text lines. */
  function BlockLayout(id: string, start: string, end: string, textLines: seq<string>): string
  {
    id + "\n" + (start + " --> " + end) + "\n" + Join(textLines, "\n")
  }

  /** A block printed in SRT layout reads back as the segment it was printed from. */
  lemma ParseBlockOfLayout(id: string, start: string, end: string, textLines: seq<string>)
    requires '\n' !in id && '\n' !in start && ' ' !in start && '\n' !in end && ' ' !in end
    requires |textLines| >= 1 && forall k :: 0 <= k < |textLines| ==> '\n' !in textLines[k]
    ensures ParseBlock(BlockLayout(id, start, end, textLines))
         == Some(Segment(id, TimeToSeconds(start), TimeToSeconds(end), Join(textLines, "\n")))
  {
    var timeLine := start + " --> " + end;
    TimeLineFree(start, end);
    LayoutLines(id, timeLine, textLines);
    TimeLineParts(start, end);
    ParseBlockOfLines(BlockLayout(id, start, end, textLines), [id, timeLine] + textLines, [start, end]);
    assert ([id, timeLine] + textLines)[2..] == textLines;
  }

  lemma TimeLineFree(start: string, end: string)
    requires '\n' !in start && '\n' !in end
    ensures '\n' !in start + " --> " + end
  {
    assert forall c :: c in start + " --> " + end ==> c in start || c in " --> " || c in end;
  }

  lemma TimeLineParts(start: string, end: string)
    requires ' ' !in start && ' ' !in end
    ensures Split(start + " --> " + end, " --> ") == [start, end]
  {
    SplitAtSeparator(start, " --> ", end);
    SplitWithoutSeparator(end, " --> ");
  }

  lemma LayoutLines(id: string, timeLine: string, textLines: seq<string>)
    requires '\n' !in id && '\n' !in timeLine
    requires |textLines| >= 1 && forall k :: 0 <= k < |textLines| ==> '\n' !in textLines[k]
    ensures Split(id + "\n" + timeLine + "\n" + Join(textLines, "\n"), "\n") == [id, timeLine] + textLines
  {
    var rest := Join(textLines, "\n");
    var tail := [timeLine] + textLines;
    var parts := [id] + tail;
    assert tail[1..] == textLines;
    assert parts[1..] == tail;
    assert Join(tail, "\n") == timeLine + "\n" + rest;
    assert Join(parts, "\n") == id + "\n" + (timeLine + "\n" + rest);
    assert id + "\n" + (timeLine + "\n" + rest) == id + "\n" + timeLine + "\n" + rest;
    forall k | 0 <= k < |parts|
      ensures '\n' !in parts[k]
    {
      if k >= 2 {
        assert parts[k] == textLines[k - 2];
      }
    }
    JoinSplit(parts, '\n');
    assert [id, timeLine] + textLines == parts;
  }

  lemma ParseBlockOfLines(block: string, lines: seq<string>, times: seq<string>)
    requires |lines| >= 3 && Split(block, "\n") == lines && Split(lines[1], " --> ") == times && |times| == 2
    ensures ParseBlock(block) == Some(Segment(lines[0], TimeToSeconds(times[0]), TimeToSeconds(times[1]), Join(lines[2..], "\n")))
  {
  }

  /** All the values, or `None` when any is missing: the all-or-nothing of a `map` that may throw. */
  function Collect<T>(xs: seq<Option<T>>): (r: Option<seq<T>>)
    ensures r.Some? <==> forall i :: 0 <= i < |xs| ==> xs[i].Some?
    ensures r.Some? ==> |r.value| == |xs| && forall i :: 0 <= i < |xs| ==> xs[i] == Some(r.value[i])
  {
    if xs == [] then Some([])
    else if xs[0].None? then None
    else
      match Collect(xs[1..])
      case None =>
        assert exists i :: 0 <= i < |xs[1..]| && xs[1..][i].None?;
        None
      case Some(tail) =>
        assert forall i :: 1 <= i < |xs| ==> xs[i] == xs[1..][i - 1];
        Some([xs[0].value] + tail)
  }

  /** Every block's segment, or `None` as soon as one block is malformed. */
  function ParseBlocks(blocks: seq<string>): (r: Option<seq<Segment>>)
    ensures r.Some? <==> forall i :: 0 <= i < |blocks| ==> WellFormedBlock(blocks[i])
    ensures r.Some? ==> |r.value| == |blocks|
    ensures r.Some? ==> forall i :: 0 <= i < |blocks| ==> ParseBlock(blocks[i]) == Some(r.value[i])
  {
    var parsed := seq(|blocks|, i requires 0 <= i < |blocks| => ParseBlock(blocks[i]));
    assert forall i :: 0 <= i < |blocks| ==> parsed[i] == ParseBlock(blocks[i]) && (parsed[i].Some? <==> WellFormedBlock(blocks[i]));
    Collect(parsed)
  }

  /**
   * `parseTranscriptSegments`: `[]` for null, undefined or the empty string;
   * otherwise one segment per block in order, or exactly `[ErrorSegment]`
   * when any block is malformed.
   */
  function ParseTranscriptSegments(srtContent: Option<string>): (r: seq<Segment>)
    ensures srtContent.None? || srtContent == Some("") ==> r == []
    ensures srtContent.Some? && srtContent.value != "" ==>
      var blocks := Blocks(srtContent.value);
      && ((forall i :: 0 <= i < |blocks| ==> WellFormedBlock(blocks[i])) ==>
            |r| == |blocks| && forall i :: 0 <= i < |blocks| ==> ParseBlock(blocks[i]) == Some(r[i]))
      && ((exists i :: 0 <= i < |blocks| && !WellFormedBlock(blocks[i])) ==> r == [ErrorSegment])
  {
    if srtContent.None? || srtContent.value == "" then []
    else
      match ParseBlocks(Blocks(srtContent.value))
      case Some(segments) => segments
      case None => [ErrorSegment]
  }

  /** White space alone is truthy but trims to one empty block, which is malformed. */
  lemma WhitespaceOnlyIsError(s: string)
    requires s != "" && forall i :: 0 <= i < |s| ==> IsSpace(s[i])
    ensures ParseTranscriptSegments(Some(s)) == [ErrorSegment]
  {
    assert Trim(s) == "";
    assert Split("", "\n\n") == [""];
    assert Split("", "\n") == [""];
    assert !WellFormedBlock(Blocks(s)[0]);
  }

  /** A block with fewer than three lines makes the whole result the error segment. */
  lemma ShortBlockIsError(srt: string, i: nat)
    requires srt != "" && i < |Blocks(srt)| && |Split(Blocks(srt)[i], "\n")| < 3
    ensures ParseTranscriptSegments(Some(srt)) == [ErrorSegment]
  {
  }

  /** A block with no blank line inside and no trailing newline: a `\n\n` after it ends it. */
  predicate NoBlankLine(block: string)
  {
    && (forall i :: 0 <= i < |block| - 1 ==> block[i] != '\n' || block[i + 1] != '\n')
    && (block == [] || block[|block| - 1] != '\n')
  }

  /** A blank line starts at `i` exactly where two newlines follow each other. */
  lemma BlankLineAt(s: string, i: nat)
    ensures MatchAt(s, "\n\n", i) <==> i + 1 < |s| && s[i] == '\n' && s[i + 1] == '\n'
  {
    if i + 1 < |s| {
      assert s[i..i + 2] == [s[i], s[i + 1]];
    }
  }

  /** The first block of a document ends at the first blank line. */
  lemma BlankLineEndsBlock(a: string, b: string)
    requires NoBlankLine(a)
    ensures Split(a + "\n\n" + b, "\n\n") == [a] + Split(b, "\n\n")
  {
    var s := a + "\n\n" + b;
    forall i | 0 <= i < |a|
      ensures !MatchAt(s, "\n\n", i)
    {
      BlankLineAt(s, i);
      assert s[i] == a[i];
      if i < |a| - 1 {
        assert s[i + 1] == a[i + 1];
      }
    }
    SplitAtFirstMatch(a, "\n\n", b);
  }

  /** A block without a blank line is the last block. */
  lemma LastBlock(b: string)
    requires NoBlankLine(b)
    ensures Split(b, "\n\n") == [b]
  {
    forall i | 0 <= i < |b|
      ensures !MatchAt(b, "\n\n", i)
    {
      BlankLineAt(b, i);
    }
    SplitWithoutMatch(b, "\n\n");
  }

  /**
   * A document of two well-formed blocks separated by a blank line gives
   * exactly their two segments, in order.
   */
  lemma TwoBlockDocument(b1: string, b2: string)
    requires WellFormedBlock(b1) && WellFormedBlock(b2) && NoBlankLine(b1) && NoBlankLine(b2)
    requires |b1| > 0 && |b2| > 0 && !IsSpace(b1[0]) && !IsSpace(b2[|b2| - 1])
    ensures ParseTranscriptSegments(Some(b1 + "\n\n" + b2)) == [ParseBlock(b1).value, ParseBlock(b2).value]
  {
    TwoBlocks(b1, b2);
    ParseTwoBlocks(b1, b2);
  }

  lemma TwoBlocks(b1: string, b2: string)
    requires NoBlankLine(b1) && NoBlankLine(b2)
    requires |b1| > 0 && |b2| > 0 && !IsSpace(b1[0]) && !IsSpace(b2[|b2| - 1])
    ensures Blocks(b1 + "\n\n" + b2) == [b1, b2]
  {
    var doc := b1 + "\n\n" + b2;
    assert doc[0] == b1[0] && doc[|doc| - 1] == b2[|b2| - 1];
    TrimOfTrimmed(doc);
    BlankLineEndsBlock(b1, b2);
    LastBlock(b2);
  }

  lemma ParseTwoBlocks(b1: string, b2: string)
    requires WellFormedBlock(b1) && WellFormedBlock(b2)
    ensures ParseBlocks([b1, b2]) == Some([ParseBlock(b1).value, ParseBlock(b2).value])
  {
    var blocks := [b1, b2];
    assert blocks[0] == b1 && blocks[1] == b2;
    var r := ParseBlocks(blocks);
    assert r.Some? && |r.value| == 2;
    assert ParseBlock(b1) == Some(r.value[0]) && ParseBlock(b2) == Some(r.value[1]);
    assert r.value == [r.value[0], r.value[1]];
  }

  /** An SRT timestamp `00:00:0d,000` with one non-zero digit reads as `d` seconds. */
  lemma SrtSecond(d: char)
    requires '0' <= d <= '9'
    ensures TimeToSeconds(['0', '0', ':', '0', '0', ':', '0', d, ',', '0', '0', '0']) == DigitValue(d) as real
  {
    assert ['0', '0', ':', '0', '0', ':', '0', d, ',', '0', '0', '0'] == "00" + ":" + "00" + ":" + ['0', d] + ",000";
    assert AllDigits("00") && DigitsValue("00") == 0 by { TwoDigits('0', '0'); }
    assert AllDigits(['0', d]) && DigitsValue(['0', d]) == DigitValue(d) by { TwoDigits('0', d); }
    TimeToSecondsHms("00", "00", ['0', d], ",000");
  }

  /** A line without a newline has no blank line. */
  lemma LineNoBlankLine(x: string)
    requires '\n' !in x
    ensures NoBlankLine(x)
  {
    assert forall i :: 0 <= i < |x| ==> x[i] in x;
  }

  /** Two lines' worth of text joined by one newline has no blank line. */
  lemma JoinNoBlankLine(x: string, y: string)
    requires NoBlankLine(x) && NoBlankLine(y) && |x| > 0 && |y| > 0 && y[0] != '\n'
    ensures NoBlankLine(x + "\n" + y)
  {
    var s := x + "\n" + y;
    forall i | 0 <= i < |s| - 1
      ensures s[i] != '\n' || s[i + 1] != '\n'
    {
      if i < |x| - 1 {
        assert s[i] == x[i] && s[i + 1] == x[i + 1];
      } else if i == |x| - 1 {
        assert s[i] == x[|x| - 1];
      } else if i == |x| {
        assert s[i + 1] == y[0];
      } else {
        assert s[i] == y[i - |x| - 1] && s[i + 1] == y[i - |x|];
      }
    }
    assert s[|s| - 1] == y[|y| - 1];
  }

  /** Three newline-free lines, the middle one not empty, joined by newlines have no blank line. */
  lemma ThreeLinesNoBlankLine(x: string, y: string, z: string)
    requires |x| > 0 && |y| > 0 && |z| > 0 && '\n' !in x && '\n' !in y && '\n' !in z
    ensures NoBlankLine(x + "\n" + y + "\n" + z)
  {
    LineNoBlankLine(x);
    LineNoBlankLine(y);
    LineNoBlankLine(z);
    assert y[0] in y && z[0] in z;
    JoinNoBlankLine(y, z);
    var yz := y + "\n" + z;
    assert yz[0] == y[0];
    JoinNoBlankLine(x, yz);
    assert x + "\n" + y + "\n" + z == x + "\n" + yz;
  }

  /** A one-text-line block `id`, `start --> end`, `text` in SRT layout. */
  lemma SrtBlockExample(id: string, start: string, end: string, text: string)
    requires |id| > 0 && |text| > 0 && '\n' !in id && '\n' !in text
    requires '\n' !in start && ' ' !in start && '\n' !in end && ' ' !in end
    ensures var b := BlockLayout(id, start, end, [text]);
      && ParseBlock(b) == Some(Segment(id, TimeToSeconds(start), TimeToSeconds(end), text))
      && WellFormedBlock(b) && NoBlankLine(b)
  {
    var timeLine := start + " --> " + end;
    assert Join([text], "\n") == text;
    assert BlockLayout(id, start, end, [text]) == id + "\n" + timeLine + "\n" + text;
    ParseBlockOfLayout(id, start, end, [text]);
    TimeLineFree(start, end);
    ThreeLinesNoBlankLine(id, timeLine, text);
  }

  /** The two-block example document. */
  const TwoBlockSrt := "1\n00:00:01,000 --> 00:00:02,000\nHello\n\n2\n00:00:03,000 --> 00:00:04,000\nWorld"

  lemma LayoutOneLine(id: string, start: string, end: string, text: string)
    ensures BlockLayout(id, start, end, [text]) == id + "\n" + (start + " --> " + end) + "\n" + text
  {
    assert Join([text], "\n") == text;
  }

  const FirstBlock := "1\n00:00:01,000 --> 00:00:02,000\nHello"
  const SecondBlock := "2\n00:00:03,000 --> 00:00:04,000\nWorld"

  lemma FirstBlockLayout()
    ensures FirstBlock == BlockLayout("1", "00:00:01,000", "00:00:02,000", ["Hello"])
  {
    LayoutOneLine("1", "00:00:01,000", "00:00:02,000", "Hello");
  }

  lemma SecondBlockLayout()
    ensures SecondBlock == BlockLayout("2", "00:00:03,000", "00:00:04,000", ["World"])
  {
    LayoutOneLine("2", "00:00:03,000", "00:00:04,000", "World");
  }

  lemma TwoBlockSrtBlocks()
    ensures TwoBlockSrt == FirstBlock + "\n\n" + SecondBlock
  {
  }

  lemma FirstBlockSegment()
    ensures ParseBlock(FirstBlock) == Some(Segment("1", 1.0, 2.0, "Hello"))
    ensures WellFormedBlock(FirstBlock) && NoBlankLine(FirstBlock)
    ensures |FirstBlock| > 0 && !IsSpace(FirstBlock[0])
  {
    FirstBlockLayout();
    SrtBlockExample("1", "00:00:01,000", "00:00:02,000", "Hello");
    SrtSecond('1');
    SrtSecond('2');
  }

  lemma SecondBlockSegment()
    ensures ParseBlock(SecondBlock) == Some(Segment("2", 3.0, 4.0, "World"))
    ensures WellFormedBlock(SecondBlock) && NoBlankLine(SecondBlock)
    ensures |SecondBlock| > 0 && !IsSpace(SecondBlock[|SecondBlock| - 1])
  {
    SecondBlockLayout();
    SrtBlockExample("2", "00:00:03,000", "00:00:04,000", "World");
    SrtSecond('3');
    SrtSecond('4');
  }

  /** A two-block subtitle document gives two segments, in order, each ending after it starts. */
  lemma TwoBlockExample(doc: string)
    requires doc == TwoBlockSrt
    ensures ParseTranscriptSegments(Some(doc)) == [Segment("1", 1.0, 2.0, "Hello"), Segment("2", 3.0, 4.0, "World")]
  {
    FirstBlockSegment();
    SecondBlockSegment();
    TwoBlockSrtBlocks();
    TwoBlockDocument(FirstBlock, SecondBlock);
  }

  /**
   * A malformed timestamp alone does not reject a block: a time field with
   * no `:` reads as 0 and the block still yields its segment.
   */
  lemma MalformedTimestampIsZero(id: string, start: string, end: string, textLines: seq<string>)
    requires '\n' !in id && '\n' !in start && ' ' !in start && '\n' !in end && ' ' !in end
    requires ':' !in start && ':' !in end
    requires |textLines| >= 1 && forall k :: 0 <= k < |textLines| ==> '\n' !in textLines[k]
    ensures ParseBlock(BlockLayout(id, start, end, textLines)) == Some(Segment(id, 0.0, 0.0, Join(textLines, "\n")))
  {
    ParseBlockOfLayout(id, start, end, textLines);
    SplitWithoutSeparator(start, ":");
    SplitWithoutSeparator(end, ":");
  }
}
