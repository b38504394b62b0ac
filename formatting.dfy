/**
 * The small formatters of the component: the recording clock, the
 * newline-to-`<br>` conversion applied before content reaches the editor,
 * and the export of a task as an `.srt` or tag-stripped `.md` file.
 */
module Formatting {
  import opened Wrappers
  import opened Text
  import opened Srt
  import opened Tasks

  // ---------------------------------------------------------------------------
  // formatRecordingTime
  // ---------------------------------------------------------------------------

  /**
   * `r` shows `seconds` as a clock: a field of at least two digits, a colon,
   * and two digits below 60, reading back as minutes * 60 + seconds.
   */
  predicate ShowsSeconds(r: string, seconds: nat)
  {
    && |r| >= 5 && r[|r| - 3] == ':'
    && AllDigits(r[..|r| - 3]) && AllDigits(r[|r| - 2..])
    && DigitsValue(r[|r| - 2..]) < 60
    && DigitsValue(r[..|r| - 3]) * 60 + DigitsValue(r[|r| - 2..]) == seconds
  }

  /**
   * `formatRecordingTime`: minutes and remaining seconds, each padded to two
   * digits, as `MM:SS`; the minutes field grows past two digits after an hour.
   */
  function FormatRecordingTime(seconds: nat): (r: string)
    ensures ShowsSeconds(r, seconds)
    ensures seconds < 6000 ==> |r| == 5
  {
    var mm := Field(seconds / 60);
    var ss := Field(seconds % 60);
    assert |ss| == 2;
    ClockAssembly(seconds, mm, ss);
    mm + ":" + ss
  }

  lemma ClockAssembly(seconds: nat, mm: string, ss: string)
    requires AllDigits(mm) && AllDigits(ss) && |ss| == 2 && |mm| >= 2
    requires DigitsValue(mm) == seconds / 60 && DigitsValue(ss) == seconds % 60
    ensures ShowsSeconds(mm + ":" + ss, seconds)
  {
    var r := mm + ":" + ss;
    assert r[..|r| - 3] == mm && r[|r| - 2..] == ss;
  }

  /** A clock reads back through `timeToSeconds` as the number of seconds it shows. */
  lemma ShowsSecondsReadsBack(r: string, seconds: nat)
    requires ShowsSeconds(r, seconds)
    ensures TimeToSeconds(r) == seconds as real
  {
    var mm, ss := r[..|r| - 3], r[|r| - 2..];
    assert r == mm + ":" + ss;
    TimeToSecondsMs(mm, ss);
  }

  lemma FormatRecordingTimeRoundTrip(seconds: nat)
    ensures TimeToSeconds(FormatRecordingTime(seconds)) == seconds as real
  {
    ShowsSecondsReadsBack(FormatRecordingTime(seconds), seconds);
  }

  /** One clock field: the decimal digits of `n`, with zeros added on the left up to two characters. */
  function Field(n: nat): (f: string)
    ensures AllDigits(f) && DigitsValue(f) == n && |f| >= 2
    ensures n < 100 ==> |f| == 2
  {
    PadStartValue(NatToString(n), 2);
    PadStart(NatToString(n), 2, '0')
  }

  // ---------------------------------------------------------------------------
  // formatContent
  // ---------------------------------------------------------------------------

  /** Every newline of the content replaced by a `<br>` tag. */
  function FormatContent(content: string): (r: string)
    ensures '\n' !in r
    ensures '\n' !in content ==> r == content
  {
    if content == [] then []
    else (if content[0] == '\n' then "<br>" else [content[0]]) + FormatContent(content[1..])
  }

  /** Replacing every newline is splitting at newlines and joining with `<br>`. */
  lemma {:induction false} FormatContentIsSplitJoin(content: string)
    ensures FormatContent(content) == Join(Split(content, "\n"), "<br>")
    decreases |content|
  {
    if content != [] {
      var t := Split(content[1..], "\n");
      FormatContentIsSplitJoin(content[1..]);
      if content[0] == '\n' {
        assert content[..1] == "\n";
        JoinConsEmpty(t, "<br>");
      } else {
        assert content[..1] != "\n";
        JoinConsChar(content[0], t, "<br>");
      }
    }
  }

  /** Formatting twice is formatting once. */
  lemma FormatContentIdempotent(content: string)
    ensures FormatContent(FormatContent(content)) == FormatContent(content)
  {
  }

  // ---------------------------------------------------------------------------
  // the tag strip of the markdown export
  // ---------------------------------------------------------------------------

  /** `/<[^>]+>/` matches at `i`: a `<`, at least one non-`>` character, then a `>`. */
  predicate TagAt(s: string, i: nat)
  {
    && i + 1 < |s| && s[i] == '<' && s[i + 1] != '>'
    && exists j :: i + 2 <= j < |s| && s[j] == '>'
  }

  /** No match of `/<[^>]+>/` anywhere. */
  predicate NoTag(s: string)
  {
    forall i :: 0 <= i < |s| ==> !TagAt(s, i)
  }

  /** A match one place into `[c] + t` is a match in `t`. */
  lemma TagAtCons(c: char, t: string, i: nat)
    ensures TagAt([c] + t, i + 1) <==> TagAt(t, i)
  {
    var r := [c] + t;
    if TagAt(t, i) {
      var j :| i + 2 <= j < |t| && t[j] == '>';
      assert r[j + 1] == '>';
    }
    if TagAt(r, i + 1) {
      var j :| i + 3 <= j < |r| && r[j] == '>';
      assert t[j - 1] == '>';
    }
  }

  /** The first index at or after `from` where `s` holds `c`. */
  function FirstIndexFrom(s: string, c: char, from: nat): (k: nat)
    requires exists j :: from <= j < |s| && s[j] == c
    ensures from <= k < |s| && s[k] == c
    ensures forall j :: from <= j < k ==> s[j] != c
    decreases |s| - from
  {
    if s[from] == c then from else FirstIndexFrom(s, c, from + 1)
  }

  /**
   * Remove every match of `/<[^>]+>/`, scanning left to right; a match runs
   * from a `<` to the first `>` after it.
   */
  function StripTags(s: string): (r: string)
    ensures NoTag(r)
    ensures forall c :: c in r ==> c in s
    decreases |s|
  {
    if s == [] then []
    else if TagAt(s, 0) then
      var k := FirstIndexFrom(s, '>', 2);
      var r := StripTags(s[k + 1..]);
      assert forall c :: c in s[k + 1..] ==> c in s;
      r
    else
      var rest := StripTags(s[1..]);
      var r := [s[0]] + rest;
      assert forall c :: c in s[1..] ==> c in s;
      assert !TagAt(r, 0) by {
        if s[0] == '<' && |s| > 1 {
          if s[1] == '>' {
            assert !TagAt(s[1..], 0);
            assert rest[0] == '>';
          } else {
            assert forall j :: 1 <= j < |s| ==> s[j] != '>';
            assert '>' !in s[1..];
            assert '>' !in rest;
            assert forall j :: 2 <= j < |r| ==> r[j] == rest[j - 1];
          }
        }
      }
      assert NoTag(r) by {
        forall i | 0 <= i < |r| ensures !TagAt(r, i) {
          if i > 0 {
            TagAtCons(s[0], rest, i - 1);
            assert !TagAt(rest, i - 1);
          }
        }
      }
      r
  }

  /** Text without tags is left as it is. */
  lemma {:induction false} StripTagsOfTagFree(s: string)
    requires NoTag(s)
    ensures StripTags(s) == s
    decreases |s|
  {
    if s != [] {
      assert !TagAt(s, 0);
      assert s == [s[0]] + s[1..];
      forall i | 0 <= i < |s| - 1 ensures !TagAt(s[1..], i) {
        TagAtCons(s[0], s[1..], i);
        assert !TagAt(s, i + 1);
      }
      StripTagsOfTagFree(s[1..]);
    }
  }

  /**
   * One tag goes, and the text before it stays: text in which no match
   * starts (a stray `<`, as in `<>`, is kept), then `<`, a non-empty run
   * without `>`, then `>`.
   */
  lemma {:induction false} StripTagsRemovesTag(a: string, t: string, b: string)
    requires |t| > 0 && '>' !in t
    requires forall i :: 0 <= i < |a| ==> !TagAt(a + "<" + t + ">" + b, i)
    ensures StripTags(a + "<" + t + ">" + b) == a + StripTags(b)
    decreases |a|
  {
    var s := a + "<" + t + ">" + b;
    if a == [] {
      assert s == "<" + t + ">" + b;
      StripTagsAtTag(t, b);
    } else {
      assert !TagAt(s, 0);
      var s' := a[1..] + "<" + t + ">" + b;
      assert s == [s[0]] + s';
      forall i | 0 <= i < |a| - 1 ensures !TagAt(s', i) {
        TagAtCons(s[0], s', i);
        assert !TagAt(s, i + 1);
      }
      StripTagsRemovesTag(a[1..], t, b);
      assert a == [a[0]] + a[1..];
    }
  }

  /** A tag at the very start goes, and stripping goes on after it. */
  lemma StripTagsAtTag(t: string, b: string)
    requires |t| > 0 && '>' !in t
    ensures StripTags("<" + t + ">" + b) == StripTags(b)
  {
    var s := "<" + t + ">" + b;
    var k := |t| + 1;
    assert s[0] == '<' && s[1] == t[0] && s[k] == '>';
    assert TagAt(s, 0);
    assert forall j :: 2 <= j < k ==> s[j] == t[j - 1];
    FirstIndexIs(s, '>', 2, k);
    assert s[k + 1..] == b;
  }

  /** `FirstIndexFrom` is the first match, so any first match is it. */
  lemma FirstIndexIs(s: string, c: char, from: nat, k: nat)
    requires from <= k < |s| && s[k] == c
    requires forall j :: from <= j < k ==> s[j] != c
    ensures FirstIndexFrom(s, c, from) == k
  {
  }

  /** So stripping twice is stripping once. */
  lemma StripTagsIdempotent(s: string)
    ensures StripTags(StripTags(s)) == StripTags(s)
  {
    StripTagsOfTagFree(StripTags(s));
  }

  // ---------------------------------------------------------------------------
  // handleSaveAsFile
  // ---------------------------------------------------------------------------

  datatype ExportFormat = SrtExport | MarkdownExport

  /** The file the browser is asked to download. */
  datatype Download = Download(fileName: string, content: string)

  /**
   * `handleSaveAsFile`: the raw transcript as `<name>.srt`, or the notes with
   * their tags stripped as `<name>.md`; nothing is downloaded when the chosen
   * content is empty or absent.
   */
  function SaveAsFile(task: Task, format: ExportFormat): (r: Option<Download>)
    ensures format == SrtExport ==>
      && (r.Some? <==> Truthy(task.transcriptionResult))
      && (r.Some? ==> r.value == Download(task.name + ".srt", task.transcriptionResult.value))
    ensures format == MarkdownExport ==>
      && (r.Some? <==> StripTags(task.content) != "")
      && (r.Some? ==> r.value.fileName == task.name + ".md" && r.value.content == StripTags(task.content))
      && (r.Some? ==> NoTag(r.value.content))
  {
    var (content, ext) :=
      if format == SrtExport && Truthy(task.transcriptionResult) then (task.transcriptionResult.value, "srt")
      else if format == MarkdownExport then (StripTags(task.content), "md")
      else ("", "");
    if content != "" then Some(Download(task.name + "." + ext, content)) else None
  }
}
