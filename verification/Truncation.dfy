/** Cutting an oversized tool result down to a head and a tail. */
module Truncation {
  import opened Prelude
  import opened Messages

  // ---------- Character boundaries ----------

  /** A place where UTF-8 text may be cut. */
  predicate Boundary(s: string, i: int) {
    0 <= i <= |s| && (i == 0 || i == |s| || !IsContinuation(s[i]))
  }

  /** The last boundary at or before `i`. */
  function Floor(s: string, i: nat): (r: nat)
    requires i <= |s|
    ensures r <= i && Boundary(s, r)
    ensures forall j :: r < j <= i ==> !Boundary(s, j)
  {
    if Boundary(s, i) then i else Floor(s, i - 1)
  }

  /** The first boundary at or after `i`. */
  function Ceiling(s: string, i: nat): (r: nat)
    requires i <= |s|
    ensures i <= r <= |s| && Boundary(s, r)
    ensures forall j :: i <= j < r ==> !Boundary(s, j)
    decreases |s| - i
  {
    if Boundary(s, i) then i else Ceiling(s, i + 1)
  }

  method FloorCharBoundary(s: string, max: nat) returns (end: nat)
    ensures end == Floor(s, Min(max, |s|))
  {
    if max >= |s| {
      return |s|;
    }
    end := max;
    while end > 0 && !Boundary(s, end)
      invariant end <= max
      invariant Floor(s, max) == Floor(s, end)
    {
      end := end - 1;
    }
  }

  // ---------- The preview ----------

  function Digit(d: nat): char
    requires d < 10
  {
    (48 + d) as char
  }

  function Decimal(n: nat): string {
    if n < 10 then [Digit(n)] else Decimal(n / 10) + [Digit(n % 10)]
  }

  function Half(max: nat): nat {
    if max < 2 then 1 else max / 2
  }

  function HeadEnd(text: string, max: nat): nat
    requires max < |text|
  {
    Floor(text, Half(max))
  }

  function TailStart(text: string, max: nat): nat
    requires max < |text|
  {
    Ceiling(text, |text| - Half(max))
  }

  const NOTE_HEAD := "\n\n[... "
  const NOTE_BODY := " bytes truncated to fit the context window; "
  const NOTE_HINT := "re-run the tool if the full output "
  const NOTE_TAIL := "is needed ...]\n\n"

  function Note(dropped: nat): string {
    NOTE_HEAD + Decimal(dropped) + NOTE_BODY + NOTE_HINT + NOTE_TAIL
  }

  function Preview(text: string, max: nat): string
    requires 0 < max < |text|
  {
    CutsInOrder(text, max);
    var h, t := HeadEnd(text, max), TailStart(text, max);
    text[..h] + Note(t - h) + text[t..]
  }

  /** Text bytes of a result body: the part that truncation and clearing can remove. */
  function TextLength(content: seq<Block>): nat {
    if content == [] then 0
    else (if content[0].Text? then |content[0].text| else 0) + TextLength(content[1..])
  }

  function Texts(content: seq<Block>): (r: string)
    ensures |r| == TextLength(content)
  {
    if content == [] then ""
    else (if content[0].Text? then content[0].text else "") + Texts(content[1..])
  }

  function NonText(content: seq<Block>): seq<Block> {
    if content == [] then []
    else (if content[0].Text? then [] else [content[0]]) + NonText(content[1..])
  }

  function Capped(content: seq<Block>, max: nat): seq<Block> {
    if max == 0 || TextLength(content) <= max then content
    else [Text(Preview(Texts(content), max))] + NonText(content)
  }

  lemma ContentStep(content: seq<Block>, rest: seq<Block>)
    requires content != [] && rest == content[1..]
    ensures Texts(content) == if content[0].Text? then content[0].text + Texts(rest) else Texts(rest)
    ensures NonText(content) == if content[0].Text? then NonText(rest) else [content[0]] + NonText(rest)
  {
    hide TextLength;
    assert "" + Texts(rest) == Texts(rest) && [] + NonText(rest) == NonText(rest);
  }

  method SplitContent(content: seq<Block>) returns (text: string, others: seq<Block>)
    ensures text == Texts(content) && others == NonText(content)
  {
    hide TextLength;
    text, others := "", [];
    var i := 0;
    assert content[0..] == content;
    while i < |content|
      invariant 0 <= i <= |content|
      invariant Texts(content) == text + Texts(content[i..])
      invariant NonText(content) == others + NonText(content[i..])
    {
      ContentStep(content[i..], content[i + 1..]);
      if content[i].Text? {
        Glue(text, content[i].text, Texts(content[i + 1..]));
        text := text + content[i].text;
      } else {
        Glue(others, [content[i]], NonText(content[i + 1..]));
        others := others + [content[i]];
      }
      i := i + 1;
    }
    assert content[i..] == [];
  }

  method CapToolResultContent(content: seq<Block>, max: nat) returns (out: seq<Block>)
    ensures out == Capped(content, max)
  {
    if max == 0 || TextLength(content) <= max {
      return content;
    }
    hide Boundary, TextLength, Texts, NonText;
    var text, others := SplitContent(content);
    var half := Half(max);
    var headEnd := FloorCharBoundary(text, half);
    var tailStart := SaturatingSub(|text|, half);
    while tailStart < |text| && !Boundary(text, tailStart)
      invariant tailStart <= |text|
      invariant TailStart(text, max) == Ceiling(text, tailStart)
    {
      tailStart := tailStart + 1;
    }
    CutsInOrder(text, max);
    // The cuts are already in order, so this changes nothing.
    tailStart := Max(tailStart, headEnd);
    var dropped := SaturatingSub(tailStart, headEnd);
    out := [Text(text[..headEnd] + Note(dropped) + text[tailStart..])] + others;
  }

  // ---------- What is cut ----------

  /** The head ends before the tail starts, so the two never overlap. */
  lemma CutsInOrder(text: string, max: nat)
    requires 0 < max < |text|
    ensures HeadEnd(text, max) <= TailStart(text, max)
  {
  }

  predicate AllDigits(s: string) {
    forall i :: 0 <= i < |s| ==> '0' <= s[i] <= '9'
  }

  predicate Ascii(s: string) {
    forall i :: 0 <= i < |s| ==> s[i] as int < 0x80
  }

  function NumberOf(digits: string): nat
    requires AllDigits(digits)
  {
    if digits == "" then 0
    else NumberOf(digits[..|digits| - 1]) * 10 + (digits[|digits| - 1] as int - 48)
  }

  lemma {:induction false} DecimalReadsBack(n: nat)
    ensures AllDigits(Decimal(n))
    ensures NumberOf(Decimal(n)) == n
  {
    if n >= 10 {
      DecimalReadsBack(n / 10);
      var d := Decimal(n);
      assert d[..|d| - 1] == Decimal(n / 10);
    } else {
      assert Decimal(n)[..0] == "";
    }
  }

  /**
   * An over-limit body becomes head, note, tail: both cuts are character boundaries, neither part exceeds half the
   * limit and both are as long as that allows, nothing but the middle is lost, and the note counts exactly that.
   */
  lemma TruncationIsExact(text: string, max: nat)
    requires 0 < max < |text|
    ensures var h, t := HeadEnd(text, max), TailStart(text, max);
            && h <= t <= |text| && Boundary(text, h) && Boundary(text, t)
            && h <= Max(1, max / 2) && |text| - t <= Max(1, max / 2)
            && (forall i :: h < i <= Max(1, max / 2) ==> !Boundary(text, i))
            && (forall i :: |text| - Max(1, max / 2) <= i < t ==> !Boundary(text, i))
            && text == text[..h] + text[h..t] + text[t..]
            && Preview(text, max) == text[..h] + Note(|text[h..t]|) + text[t..]
  {
    hide Note, Boundary;
    var h, t := HeadEnd(text, max), TailStart(text, max);
    CutsInOrder(text, max);
    assert |text[h..t]| == t - h;
  }

  // ---------- UTF-8 ----------

  function CharLength(lead: char): nat {
    if lead as int < 0x80 then 1
    else if 0xC0 <= lead as int < 0xE0 then 2
    else if 0xE0 <= lead as int < 0xF0 then 3
    else if 0xF0 <= lead as int < 0xF8 then 4
    else 0
  }

  predicate StartsWithChar(s: string) {
    s != "" && 0 < CharLength(s[0]) <= |s| && forall i :: 0 < i < CharLength(s[0]) ==> IsContinuation(s[i])
  }

  /** A sequence of whole characters: a lead byte and its continuation bytes (section 3 of RFC 3629). */
  predicate Utf8(s: string)
    decreases |s|
  {
    s == "" || (StartsWithChar(s) && Utf8(s[CharLength(s[0])..]))
  }

  /** Cutting at a boundary leaves whole characters on both sides. */
  lemma {:induction false} CutKeepsUtf8(s: string, i: nat)
    requires Utf8(s) && Boundary(s, i)
    ensures Utf8(s[..i]) && Utf8(s[i..])
    decreases |s|
  {
    if i == 0 || i == |s| {
      assert s[..|s|] == s && s[0..] == s;
    } else {
      var n := CharLength(s[0]);
      assert n <= i;
      assert i < |s| ==> s[n..][i - n] == s[i];
      CutKeepsUtf8(s[n..], i - n);
      assert s[n..][i - n..] == s[i..];
      assert s[..i][n..] == s[n..][..i - n];
    }
  }

  lemma {:induction false} JoinKeepsUtf8(a: string, b: string)
    requires Utf8(a) && Utf8(b)
    ensures Utf8(a + b)
    decreases |a|
  {
    if a == "" {
      assert a + b == b;
    } else {
      var n := CharLength(a[0]);
      assert (a + b)[n..] == a[n..] + b;
      assert (a + b)[..n] == a[..n];
      assert forall i :: 0 < i < n ==> (a + b)[i] == a[..n][i];
      JoinKeepsUtf8(a[n..], b);
    }
  }

  lemma {:induction false} AsciiIsUtf8(s: string)
    requires Ascii(s)
    ensures Utf8(s)
  {
    if s != "" {
      AsciiIsUtf8(s[1..]);
    }
  }

  /** A boundary is never more than three bytes away. */
  lemma {:induction false} BoundaryIsNear(s: string, i: nat)
    requires Utf8(s) && i <= |s|
    ensures i - Floor(s, i) <= 3 && Ceiling(s, i) - i <= 3
    decreases |s|
  {
    if 0 < i < |s| {
      var n := CharLength(s[0]);
      if i < n {
        assert Boundary(s, n) by {
          if n < |s| {
            assert StartsWithChar(s[n..]) && s[n..][0] == s[n];
          }
        }
      } else {
        BoundaryIsNear(s[n..], i - n);
        var f, c := n + Floor(s[n..], i - n), n + Ceiling(s[n..], i - n);
        assert c < |s| ==> s[n..][c - n] == s[c];
        assert f < |s| ==> s[n..][f - n] == s[f];
        assert n < |s| ==> StartsWithChar(s[n..]) && s[n..][0] == s[n];
        assert Boundary(s, f) && Boundary(s, c);
      }
    }
  }

  /** On UTF-8 text at most six bytes more than the limit asks for are given up. */
  lemma TruncationLosesLittle(text: string, max: nat)
    requires 0 < max < |text| && Utf8(text)
    ensures TailStart(text, max) - HeadEnd(text, max) <= |text| - 2 * Half(max) + 6
  {
    hide Utf8, Floor, Ceiling;
    BoundaryIsNear(text, Half(max));
    BoundaryIsNear(text, |text| - Half(max));
  }

  /** Truncated UTF-8 text is UTF-8 text. */
  lemma TruncationKeepsUtf8(text: string, max: nat)
    requires 0 < max < |text| && Utf8(text)
    ensures Utf8(Preview(text, max))
  {
    hide Utf8, Note;
    CutsInOrder(text, max);
    PreviewKeepsUtf8(text, HeadEnd(text, max), TailStart(text, max));
  }

  lemma PreviewKeepsUtf8(text: string, h: nat, t: nat)
    requires Utf8(text) && h <= t <= |text| && Boundary(text, h) && Boundary(text, t)
    ensures Utf8(text[..h] + Note(t - h) + text[t..])
  {
    hide Utf8, Note, Boundary;
    CutKeepsUtf8(text, h);
    CutKeepsUtf8(text, t);
    NoteIsAscii(t - h);
    AsciiIsUtf8(Note(t - h));
    JoinKeepsUtf8(text[..h], Note(t - h));
    JoinKeepsUtf8(text[..h] + Note(t - h), text[t..]);
  }

  lemma NoteIsAscii(n: nat)
    ensures Ascii(Note(n))
  {
    hide Decimal;
    DecimalReadsBack(n);
    AsciiJoin(NOTE_HEAD, Decimal(n));
    NoteBodyIsAscii();
    AsciiJoin(NOTE_HEAD + Decimal(n), NOTE_BODY);
    NoteHintIsAscii();
    AsciiJoin(NOTE_HEAD + Decimal(n) + NOTE_BODY, NOTE_HINT);
    AsciiJoin(NOTE_HEAD + Decimal(n) + NOTE_BODY + NOTE_HINT, NOTE_TAIL);
  }

  lemma AsciiJoin(a: string, b: string)
    requires Ascii(a) && Ascii(b)
    ensures Ascii(a + b)
  {
  }

  lemma NoteBodyIsAscii()
    ensures Ascii(NOTE_BODY)
  {
  }

  lemma NoteHintIsAscii()
    ensures Ascii(NOTE_HINT)
  {
  }

  lemma NoteIsLong(n: nat)
    ensures |Note(n)| >= 100
  {
    hide Decimal;
  }

  /** The note is not counted against the limit, so a preview is always longer than the limit it was cut to ... */
  lemma PreviewExceedsLimit(text: string, max: nat)
    requires 0 < max < |text| && Utf8(text)
    ensures |Preview(text, max)| > max
  {
    hide Utf8, Floor, Ceiling, Note;
    BoundaryIsNear(text, Half(max));
    BoundaryIsNear(text, |text| - Half(max));
    CutsInOrder(text, max);
    NoteIsLong(TailStart(text, max) - HeadEnd(text, max));
  }

  lemma CappedParts(content: seq<Block>, max: nat)
    requires 0 < max < TextLength(content)
    ensures Texts(Capped(content, max)) == Preview(Texts(content), max)
    ensures NonText(Capped(content, max)) == NonText(content)
  {
    hide Preview;
    var preview, others := Preview(Texts(content), max), NonText(content);
    NonTextAgain(content);
    ContentStep([Text(preview)] + others, others);
    assert preview + "" == preview;
  }

  lemma {:induction false} NonTextAgain(content: seq<Block>)
    ensures Texts(NonText(content)) == "" && NonText(NonText(content)) == NonText(content)
  {
    if content != [] {
      var rest := NonText(content[1..]);
      NonTextAgain(content[1..]);
      ContentStep(content, content[1..]);
      if !content[0].Text? {
        ContentStep([content[0]] + rest, rest);
      }
    }
  }

  /** ... and a capped body fits its limit if and only if it was not truncated at all. */
  lemma CappedFitsIff(content: seq<Block>, max: nat)
    requires max > 0 && Utf8(Texts(content))
    ensures TextLength(Capped(content, max)) <= max <==> TextLength(content) <= max
  {
    hide Preview, Utf8, Capped, TextLength, Texts;
    if TextLength(content) > max {
      CappedParts(content, max);
      PreviewExceedsLimit(Texts(content), max);
      assert |Texts(Capped(content, max))| == TextLength(Capped(content, max));
    } else {
      CappedWhole(content, max);
    }
  }

  lemma CappedWhole(content: seq<Block>, max: nat)
    requires TextLength(content) <= max
    ensures Capped(content, max) == content
  {
  }

  /** So capping a truncated body once more, as happens when the history is loaded, truncates the preview itself. */
  lemma CappingTwiceCutsThePreview(content: seq<Block>, max: nat)
    requires 0 < max < TextLength(content) && Utf8(Texts(content))
    ensures |Preview(Texts(content), max)| > max
    ensures Capped(Capped(content, max), max)
         == [Text(Preview(Preview(Texts(content), max), max))] + NonText(content)
  {
    hide Preview, Utf8;
    PreviewExceedsLimit(Texts(content), max);
    CappedParts(content, max);
  }
}
