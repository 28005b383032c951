/** The protected-fence stripper: the one-shot form and the incremental scrubber. */
module Fence {
  import opened Prelude

  const MEMORY_CONTEXT := "memory-context"
  const ATTACHMENTS := "attachments"
  const PROTECTED_FENCES: seq<string> := [MEMORY_CONTEXT, ATTACHMENTS]

  // One byte for `<`, the longest protected name, and one byte after it.
  const DECIDED_LENGTH := 16

  // ---------- Byte-level vocabulary ----------

  function Lower(c: char): char {
    if 'A' <= c <= 'Z' then (c as int + 32) as char else c
  }

  predicate EqIgnoreCase(a: string, b: string) {
    |a| == |b| && forall j :: 0 <= j < |a| ==> Lower(a[j]) == Lower(b[j])
  }

  /** `pattern` occurs in `s` at `i`, up to ASCII case. */
  predicate MatchAt(s: string, pattern: string, i: int) {
    0 <= i <= |s| - |pattern| && EqIgnoreCase(s[i..i + |pattern|], pattern)
  }

  function IndexOf(s: string, c: char, from: nat): (i: nat)
    requires from <= |s|
    ensures from <= i <= |s|
    ensures i < |s| ==> s[i] == c
    ensures forall j :: from <= j < i ==> s[j] != c
    decreases |s| - from
  {
    if from == |s| || s[from] == c then from else IndexOf(s, c, from + 1)
  }

  function FindTag(s: string, tag: string, from: nat): (r: Option<nat>)
    ensures r.Some? ==> from <= r.value <= |s| - |tag| && MatchAt(s, tag, r.value)
    ensures r.Some? ==> forall j :: from <= j < r.value ==> !MatchAt(s, tag, j)
    ensures r.None? ==> forall j :: from <= j ==> !MatchAt(s, tag, j)
    decreases |s| + 1 - from
  {
    if from > |s| then None
    else if MatchAt(s, tag, from) then Some(from)
    else FindTag(s, tag, from + 1)
  }

  predicate EndsName(c: char) {
    c == '>' || c == ' ' || c == '\t' || c == '\n' || c == '/'
  }

  // ---------- One-shot stripping ----------

  /** `s` begins with an open tag of fence `name`: the name, then a byte that ends it. */
  predicate OpensWith(s: string, name: string) {
    |s| > 1 + |name| && s[0] == '<' && MatchAt(s, name, 1) && EndsName(s[1 + |name|])
  }

  function OpenedName(s: string, k: nat := 0): (r: Option<string>)
    ensures r.Some? ==> OpensWith(s, r.value) && r.value in PROTECTED_FENCES
    ensures r.None? ==> forall i :: k <= i < |PROTECTED_FENCES| ==> !OpensWith(s, PROTECTED_FENCES[i])
    decreases |PROTECTED_FENCES| - k
  {
    if k >= |PROTECTED_FENCES| then None
    else if OpensWith(s, PROTECTED_FENCES[k]) then Some(PROTECTED_FENCES[k])
    else OpenedName(s, k + 1)
  }

  /** Bytes the one-shot form skips for the block of `name` that opens at the start of `s`. */
  function BlockLength(s: string, name: string): (n: nat)
    requires OpensWith(s, name)
    ensures 0 < n <= |s|
  {
    var j := IndexOf(s, '>', 1 + |name|);
    if j == |s| then |s|
    else if s[j - 1] == '/' then j + 1
    else
      match FindTag(s, "</" + name, j + 1)
      case None => |s|
      case Some(k) =>
        var end := IndexOf(s, '>', k + 2 + |name|);
        if end < |s| then end + 1 else |s|
  }

  function Sanitized(s: string): string
    decreases |s|
  {
    if s == "" then ""
    else match OpenedName(s)
      case Some(name) => Sanitized(s[BlockLength(s, name)..])
      case None => [s[0]] + Sanitized(s[1..])
  }

  // ---------- Streaming ----------

  datatype OpenClass =
    | NotProtected
    | Incomplete
    | Protected(name: string, openLen: nat)
    | ProtectedSelfClosing(openLen: nat)

  /** The class of a tag that opens fence `name`: decided once its `>` is there. */
  function ClassifyOpened(s: string, name: string): (r: OpenClass)
    requires OpensWith(s, name)
    ensures r.Protected? ==> 1 < r.openLen <= |s| && r.name == name
    ensures r.ProtectedSelfClosing? ==> 1 < r.openLen <= |s|
  {
    var j := IndexOf(s, '>', 1 + |name|);
    if j == |s| then Incomplete
    else if s[j - 1] == '/' then ProtectedSelfClosing(j + 1)
    else Protected(name, j + 1)
  }

  /** Classify the open tag at the start of `s`, trying the protected names from the `k`-th on. */
  function ClassifyFrom(s: string, k: nat): (r: OpenClass)
    requires |s| >= 2 && s[0] == '<'
    ensures r.Protected? ==> 1 < r.openLen <= |s| && r.name in PROTECTED_FENCES
    ensures r.ProtectedSelfClosing? ==> 1 < r.openLen <= |s|
    decreases |PROTECTED_FENCES| - k
  {
    if k >= |PROTECTED_FENCES| then
      if |s| < DECIDED_LENGTH then Incomplete else NotProtected
    else
      var name := PROTECTED_FENCES[k];
      var need := 1 + |name|;
      if |s| <= need then
        if MatchAt(s, name[..|s| - 1], 1) then Incomplete else ClassifyFrom(s, k + 1)
      else if !OpensWith(s, name) then ClassifyFrom(s, k + 1)
      else ClassifyOpened(s, name)
  }

  function Classify(s: string): (r: OpenClass)
    requires s != "" && s[0] == '<'
    ensures r.Protected? ==> 1 < r.openLen <= |s| && r.name in PROTECTED_FENCES
    ensures r.ProtectedSelfClosing? ==> 1 < r.openLen <= |s|
  {
    if |s| < 2 then Incomplete
    else if s[1] == '/' then NotProtected
    else ClassifyFrom(s, 0)
  }

  /** The last `m` bytes of `held` could be the first `m` bytes of `close`. */
  predicate TailMatches(held: string, close: string, m: int) {
    0 <= m <= |held| && m <= |close| && EqIgnoreCase(held[|held| - m..], close[..m])
  }

  function OverlapUpTo(held: string, close: string, m: nat): (r: nat)
    requires m <= |held| && m <= |close|
    ensures r <= m && TailMatches(held, close, r)
    ensures forall k :: r < k <= m ==> !TailMatches(held, close, k)
  {
    if m == 0 || TailMatches(held, close, m) then m else OverlapUpTo(held, close, m - 1)
  }

  /** Longest proper prefix of `close` that ends `held`. */
  function Overlap(held: string, close: string): (r: nat)
    requires close != ""
    ensures r <= |held| && r < |close| && TailMatches(held, close, r)
    ensures forall k :: r < k <= |held| && k < |close| ==> !TailMatches(held, close, k)
  {
    OverlapUpTo(held, close, Min(|held|, |close| - 1))
  }

  function CloseTag(name: string): (r: string)
    ensures |r| == |name| + 3
  {
    "</" + name + ">"
  }

  datatype ScrubState = ScrubState(held: string, inside: Option<string>)

  const FRESH := ScrubState("", None)

  datatype Pushed = Pushed(out: string, next: ScrubState)

  function Emit(out: string, p: Pushed): Pushed {
    Pushed(out + p.out, p.next)
  }

  /** What the scrubber's loop does from a state until it returns. */
  function Drive(st: ScrubState): Pushed
    decreases |st.held|, 1
  {
    match st.inside
    case Some(name) => DriveInside(st.held, name)
    case None =>
      var lt := IndexOf(st.held, '<', 0);
      if lt == |st.held| then Pushed(st.held, FRESH)
      else Emit(st.held[..lt], DriveTag(st.held[lt..]))
  }

  /** ... on a buffer that begins with `<`, outside any block. */
  function DriveTag(s: string): Pushed
    requires s != "" && s[0] == '<'
    decreases |s|, 0
  {
    match Classify(s)
    case NotProtected => Emit("<", Drive(ScrubState(s[1..], None)))
    case Incomplete => Pushed("", ScrubState(s, None))
    case Protected(name, n) => Drive(ScrubState(s[n..], Some(name)))
    case ProtectedSelfClosing(n) => Drive(ScrubState(s[n..], None))
  }

  /** ... inside a block of `name`. */
  function DriveInside(held: string, name: string): Pushed
    decreases |held|, 0
  {
    var close := CloseTag(name);
    match FindTag(held, close, 0)
    case Some(p) => Drive(ScrubState(held[p + |close|..], None))
    case None => Pushed("", ScrubState(held[|held| - Overlap(held, close)..], Some(name)))
  }

  function Push(st: ScrubState, chunk: string): Pushed {
    Drive(st.(held := st.held + chunk))
  }

  function Flush(st: ScrubState): string {
    if st.inside.Some? then "" else st.held
  }

  function PushAll(st: ScrubState, chunks: seq<string>): Pushed
    decreases |chunks|
  {
    if chunks == [] then Pushed("", st)
    else
      var p := Push(st, chunks[0]);
      Emit(p.out, PushAll(p.next, chunks[1..]))
  }

  /** Everything a stream emits: the pushes, then the flush. */
  function Streamed(chunks: seq<string>): string {
    var p := PushAll(FRESH, chunks);
    p.out + Flush(p.next)
  }

  /** The same for a text that arrives in one piece. */
  function Scrub(text: string): string {
    var p := Push(FRESH, text);
    p.out + Flush(p.next)
  }

  /** The states a push can stop in. */
  predicate Settled(st: ScrubState) {
    match st.inside
    case Some(name) =>
      && name in PROTECTED_FENCES
      && |st.held| < |CloseTag(name)|
      && TailMatches(st.held, CloseTag(name), |st.held|)
    case None => st.held == "" || (st.held[0] == '<' && Classify(st.held).Incomplete?)
  }

  // ---------- Chunk independence ----------

  lemma IndexOfAppend(s: string, more: string, c: char, from: nat)
    requires from <= |s|
    ensures IndexOf(s, c, from) < |s| ==> IndexOf(s + more, c, from) == IndexOf(s, c, from)
  {
    var i, k := IndexOf(s, c, from), IndexOf(s + more, c, from);
    if i < |s| {
      assert (s + more)[i] == c;
      assert k <= i;
      assert k < |s + more| && (s + more)[k] == s[k];
    }
  }

  lemma MatchAppend(s: string, more: string, pattern: string, i: int)
    ensures i + |pattern| <= |s| ==> MatchAt(s, pattern, i) == MatchAt(s + more, pattern, i)
  {
    if i + |pattern| <= |s| && 0 <= i {
      assert s[i..i + |pattern|] == (s + more)[i..i + |pattern|];
    }
  }

  lemma OpensAppend(s: string, more: string, name: string)
    requires |s| > 1 + |name|
    ensures OpensWith(s + more, name) == OpensWith(s, name)
  {
    MatchAppend(s, more, name, 1);
  }

  /** A prefix that already differs from a name still differs when it grows. */
  lemma NameMismatchAppend(s: string, more: string, name: string)
    requires 2 <= |s| <= 1 + |name| && !MatchAt(s, name[..|s| - 1], 1)
    ensures var m := Min(|s + more| - 1, |name|); !MatchAt(s + more, name[..m], 1)
    ensures !OpensWith(s + more, name)
  {
    var m := Min(|s + more| - 1, |name|);
    var j :| 0 <= j < |s| - 1 && Lower(s[1..][j]) != Lower(name[j]);
    assert s[1..1 + |name[..|s| - 1]|] == s[1..];
    assert (s + more)[1..1 + m][j] == s[1..][j];
    assert name[..m][j] == name[j];
    assert m == |name| ==> name[..m] == name;
  }

  lemma {:induction false} ClassifyFromStable(s: string, more: string, k: nat)
    requires |s| >= 2 && s[0] == '<'
    requires !ClassifyFrom(s, k).Incomplete?
    ensures ClassifyFrom(s + more, k) == ClassifyFrom(s, k)
    decreases |PROTECTED_FENCES| - k
  {
    if k < |PROTECTED_FENCES| {
      var name := PROTECTED_FENCES[k];
      var need := 1 + |name|;
      if |s| <= need {
        NameMismatchAppend(s, more, name);
        ClassifyFromStable(s, more, k + 1);
      } else {
        OpensAppend(s, more, name);
        if OpensWith(s, name) {
          IndexOfAppend(s, more, '>', need);
        } else {
          ClassifyFromStable(s, more, k + 1);
        }
      }
    }
  }

  /** Once an open tag is decided, later bytes never change the answer. */
  lemma ClassifyStable(s: string, more: string)
    requires s != "" && s[0] == '<'
    requires !Classify(s).Incomplete?
    ensures Classify(s + more) == Classify(s)
  {
    if s[1] != '/' {
      ClassifyFromStable(s, more, 0);
    }
  }

  /** A close tag that lies in `held` is found at the same place when more bytes follow. */
  lemma FoundAppend(held: string, more: string, tag: string)
    requires FindTag(held, tag, 0).Some?
    ensures FindTag(held + more, tag, 0) == FindTag(held, tag, 0)
  {
    var p := FindTag(held, tag, 0).value;
    forall i | 0 <= i <= p
      ensures MatchAt(held, tag, i) == MatchAt(held + more, tag, i)
    {
      MatchAppend(held, more, tag, i);
    }
  }

  lemma MatchDrop(s: string, pattern: string, n: nat, i: int)
    requires n <= |s|
    ensures 0 <= i ==> MatchAt(s[n..], pattern, i) == MatchAt(s, pattern, n + i)
  {
    if 0 <= i && n + i + |pattern| <= |s| {
      assert s[n..][i..i + |pattern|] == s[n + i..n + i + |pattern|];
    }
  }

  /** No suffix of `held` longer than the overlap starts a close tag, so none is lost by dropping the rest. */
  lemma NoMatchBeforeOverlap(held: string, more: string, close: string, i: nat)
    requires close != "" && FindTag(held, close, 0).None?
    requires i < |held| - Overlap(held, close)
    ensures !MatchAt(held + more, close, i)
  {
    if MatchAt(held + more, close, i) {
      MatchAppend(held, more, close, i);
      var m := |held| - i;
      assert m < |close|;
      EqIgnoreCasePrefix((held + more)[i..i + |close|], close, m);
      assert (held + more)[i..i + |close|][..m] == held[|held| - m..];
      assert TailMatches(held, close, m);
    }
  }

  lemma EqIgnoreCasePrefix(a: string, b: string, m: nat)
    requires EqIgnoreCase(a, b) && m <= |a|
    ensures EqIgnoreCase(a[..m], b[..m])
  {
  }

  lemma TailDrop(held: string, close: string, n: nat, m: nat)
    requires n <= |held| && m <= |held| - n
    ensures TailMatches(held[n..], close, m) == TailMatches(held, close, m)
  {
    if m <= |close| {
      assert held[n..][|held[n..]| - m..] == held[|held| - m..];
    }
  }

  /** The first close tag is the one found in what is kept. */
  lemma OverlapKeepsClose(held: string, more: string, close: string, n: nat, kept: string)
    requires close != "" && FindTag(held, close, 0).None?
    requires n == |held| - Overlap(held, close) && kept == held[n..] + more
    ensures match FindTag(kept, close, 0)
            case Some(p) => FindTag(held + more, close, 0) == Some(n + p)
            case None => FindTag(held + more, close, 0).None?
  {
    hide FindTag, Overlap;
    var all := held + more;
    assert all[n..] == kept;
    forall i: nat | i < n ensures !MatchAt(all, close, i) {
      NoMatchBeforeOverlap(held, more, close, i);
    }
    forall i: nat ensures MatchAt(kept, close, i) == MatchAt(all, close, n + i) {
      MatchDrop(all, close, n, i);
    }
    FirstMatchShift(all, kept, close, n);
  }

  lemma FirstMatchShift(all: string, kept: string, tag: string, n: nat)
    requires forall i: nat :: i < n ==> !MatchAt(all, tag, i)
    requires forall i: nat :: MatchAt(kept, tag, i) == MatchAt(all, tag, n + i)
    ensures match FindTag(kept, tag, 0)
            case Some(p) => FindTag(all, tag, 0) == Some(n + p)
            case None => FindTag(all, tag, 0).None?
  {
    hide FindTag, MatchAt;
    var found := FindTag(kept, tag, 0);
    forall i: nat | found.Some? ==> i < n + found.value
      ensures !MatchAt(all, tag, i)
    {
      if n <= i {
        assert !MatchAt(kept, tag, i - n);
      }
    }
    if found.Some? {
      assert MatchAt(all, tag, n + found.value);
      FirstMatch(all, tag, n + found.value);
    }
  }

  /** And what is kept has the same overlap once more bytes are there. */
  lemma OverlapKeepsOverlap(held: string, more: string, close: string, n: nat, kept: string)
    requires close != "" && FindTag(held, close, 0).None?
    requires n == |held| - Overlap(held, close) && kept == held[n..] + more
    ensures Overlap(held + more, close) == Overlap(kept, close)
  {
    var all := held + more;
    assert all[n..] == kept;
    var m, k := Overlap(all, close), Overlap(kept, close);
    if m > |kept| {
      TailPrefix(held, more, close, m);
      assert false;
    }
    TailDrop(all, close, n, m);
    TailDrop(all, close, n, k);
  }

  lemma TailPrefix(held: string, more: string, close: string, m: nat)
    requires |more| <= m <= |held + more|
    requires TailMatches(held + more, close, m)
    ensures TailMatches(held, close, m - |more|)
  {
    var all, t := held + more, m - |more|;
    EqIgnoreCasePrefix(all[|all| - m..], close[..m], t);
    assert all[|all| - m..][..t] == held[|held| - t..];
    assert close[..m][..t] == close[..t];
  }

  lemma FirstMatch(s: string, tag: string, p: nat)
    requires MatchAt(s, tag, p)
    requires forall i: nat :: i < p ==> !MatchAt(s, tag, i)
    ensures FindTag(s, tag, 0) == Some(p)
  {
  }

  lemma EmitTwice(a: string, b: string, p: Pushed)
    ensures Emit(a, Emit(b, p)) == Emit(a + b, p)
  {
    assert a + (b + p.out) == a + b + p.out;
  }

  lemma EmitNothing(p: Pushed)
    ensures Emit("", p) == p
  {
    assert "" + p.out == p.out;
  }

  lemma IndexOfSkip(before: string, rest: string, c: char)
    requires c !in before
    ensures IndexOf(before + rest, c, 0) == |before| + IndexOf(rest, c, 0)
  {
    var all := before + rest;
    var i, k := IndexOf(all, c, 0), IndexOf(rest, c, 0);
    assert all[..|before|] == before && all[|before|..] == rest;
    assert |before| <= i < |all| ==> rest[i - |before|] == c;
    assert k < |rest| ==> all[|before| + k] == c;
  }

  /** Text without `<` passes straight through. */
  lemma DrivePlain(before: string, rest: string)
    requires '<' !in before
    ensures Drive(ScrubState(before + rest, None)) == Emit(before, Drive(ScrubState(rest, None)))
  {
    hide DriveTag, DriveInside;
    var all := before + rest;
    var k := IndexOf(rest, '<', 0);
    IndexOfSkip(before, rest, '<');
    if k < |rest| {
      assert all[..|before| + k] == before + rest[..k];
      assert all[|before| + k..] == rest[k..];
      EmitTwice(before, rest[..k], DriveTag(rest[k..]));
    }
  }

  lemma DriveAtTag(s: string)
    requires s != "" && s[0] == '<'
    ensures Drive(ScrubState(s, None)) == DriveTag(s)
  {
    hide DriveTag, DriveInside;
    assert IndexOf(s, '<', 0) == 0;
    assert s[..0] == "" && s[0..] == s;
    EmitNothing(DriveTag(s));
  }

  /** Bytes that arrive later can be processed later. */
  lemma {:induction false} DriveAppend(st: ScrubState, more: string)
    ensures Drive(st.(held := st.held + more)) == Emit(Drive(st).out, Push(Drive(st).next, more))
    decreases |st.held|, 1
  {
    match st.inside
    case Some(name) => DriveAppendInside(st.held, name, more);
    case None =>
      hide DriveTag, DriveInside;
      var lt := IndexOf(st.held, '<', 0);
      var before, rest := st.held[..lt], st.held[lt..];
      assert st.held == before + rest;
      assert st.held + more == before + (rest + more);
      DrivePlain(before, rest + more);
      if lt == |st.held| {
        assert Drive(st) == Pushed(before, FRESH);
        assert rest + more == more && "" + more == more;
      } else {
        assert Drive(st) == Emit(before, DriveTag(rest));
        DriveAppendTag(rest, more);
        EmitTwice(before, DriveTag(rest).out, Push(DriveTag(rest).next, more));
      }
  }

  lemma {:induction false} DriveAppendTag(s: string, more: string)
    requires s != "" && s[0] == '<'
    ensures Drive(ScrubState(s + more, None)) == Emit(DriveTag(s).out, Push(DriveTag(s).next, more))
    decreases |s|, 0
  {
    hide Drive, DriveInside, Classify;
    DriveAtTag(s + more);
    EmitNothing(Drive(ScrubState(s + more, None)));
    var c := Classify(s);
    if !c.Incomplete? {
      ClassifyStable(s, more);
      var n := match c case NotProtected => 1 case Protected(_, n) => n case ProtectedSelfClosing(n) => n;
      var q := ScrubState(s[n..], if c.Protected? then Some(c.name) else None);
      assert (s + more)[n..] == s[n..] + more;
      DriveAppend(q, more);
      if c.NotProtected? {
        EmitTwice("<", Drive(q).out, Push(Drive(q).next, more));
      }
    }
  }

  lemma {:induction false} DriveAppendInside(held: string, name: string, more: string)
    ensures DriveInside(held + more, name)
         == Emit(DriveInside(held, name).out, Push(DriveInside(held, name).next, more))
    decreases |held|, 0
  {
    hide FindTag, Overlap, Drive, MatchAt, TailMatches;
    var close := CloseTag(name);
    match FindTag(held, close, 0)
    case Some(k) =>
      FoundAppend(held, more, close);
      assert (held + more)[k + |close|..] == held[k + |close|..] + more;
      DriveAppend(ScrubState(held[k + |close|..], None), more);
    case None =>
      var n := |held| - Overlap(held, close);
      DriveInsideKept(held, name, close, more, n, held[n..] + more);
      DriveWhileInside(held[n..] + more, name);
      EmitNothing(DriveInside(held[n..] + more, name));
  }

  lemma DriveWhileInside(held: string, name: string)
    ensures Drive(ScrubState(held, Some(name))) == DriveInside(held, name)
  {
  }

  lemma DriveInsideKept(held: string, name: string, close: string, more: string, n: nat, kept: string)
    requires close == CloseTag(name) && FindTag(held, close, 0).None?
    requires n == |held| - Overlap(held, close) && kept == held[n..] + more
    ensures DriveInside(held + more, name) == DriveInside(kept, name)
  {
    hide FindTag, Overlap, Drive, MatchAt, TailMatches, CloseTag;
    OverlapKeepsClose(held, more, close, n, kept);
    OverlapKeepsOverlap(held, more, close, n, kept);
    assert (held + more)[n..] == kept;
    match FindTag(kept, close, 0)
    case Some(k) =>
      assert (held + more)[n + k + |close|..] == kept[k + |close|..];
    case None =>
      var m := Overlap(kept, close);
      assert (held + more)[|held + more| - m..] == kept[|kept| - m..];
  }

  /** Every push stops in a settled state. */
  lemma {:induction false} DriveSettles(st: ScrubState)
    requires st.inside.Some? ==> st.inside.value in PROTECTED_FENCES
    ensures Settled(Drive(st).next)
    decreases |st.held|
  {
    hide EqIgnoreCase, FindTag, Overlap, Classify;
    match st.inside
    case Some(name) =>
      var close := CloseTag(name);
      match FindTag(st.held, close, 0) {
        case Some(p) => DriveSettles(ScrubState(st.held[p + |close|..], None));
        case None =>
          var m := Overlap(st.held, close);
          TailDrop(st.held, close, |st.held| - m, m);
      }
    case None =>
      var lt := IndexOf(st.held, '<', 0);
      if lt < |st.held| {
        var rest := st.held[lt..];
        match Classify(rest)
        case NotProtected => DriveSettles(ScrubState(rest[1..], None));
        case Incomplete =>
        case Protected(name, n) => DriveSettles(ScrubState(rest[n..], Some(name)));
        case ProtectedSelfClosing(n) => DriveSettles(ScrubState(rest[n..], None));
      }
  }

  /** What is emitted now and flushed later is never longer than what is held. */
  lemma {:induction false} DriveShrinks(st: ScrubState)
    ensures |Drive(st).out| + |Flush(Drive(st).next)| <= |st.held|
    decreases |st.held|, 1
  {
    match st.inside
    case Some(name) =>
      hide FindTag, Overlap, DriveTag;
      var r := FindTag(st.held, CloseTag(name), 0);
      if r.Some? {
        DriveShrinks(ScrubState(st.held[r.value + |CloseTag(name)|..], None));
      }
    case None =>
      hide DriveInside, DriveTag, IndexOf;
      var lt := IndexOf(st.held, '<', 0);
      if lt < |st.held| {
        TagShrinks(st.held[lt..]);
      }
  }

  lemma {:induction false} TagShrinks(s: string)
    requires s != "" && s[0] == '<'
    ensures |DriveTag(s).out| + |Flush(DriveTag(s).next)| <= |s|
    decreases |s|, 0
  {
    hide Drive, DriveInside, Classify;
    match Classify(s)
    case NotProtected => DriveShrinks(ScrubState(s[1..], None));
    case Incomplete =>
    case Protected(name, n) => DriveShrinks(ScrubState(s[n..], Some(name)));
    case ProtectedSelfClosing(n) => DriveShrinks(ScrubState(s[n..], None));
  }

  /** A settled state has nothing left to do until more bytes arrive. */
  lemma SettledIsQuiet(st: ScrubState)
    requires Settled(st)
    ensures Drive(st) == Pushed("", st)
  {
    match st.inside
    case Some(name) =>
      assert forall i: nat :: !MatchAt(st.held, CloseTag(name), i);
      assert Overlap(st.held, CloseTag(name)) == |st.held|;
    case None =>
      if st.held != "" {
        assert IndexOf(st.held, '<', 0) == 0;
      }
  }

  lemma {:induction false} PushAllFrom(st: ScrubState, chunks: seq<string>)
    requires Settled(st)
    ensures PushAll(st, chunks) == Push(st, Concat(chunks))
    ensures Settled(PushAll(st, chunks).next)
    decreases |chunks|
  {
    hide Drive;
    if chunks == [] {
      assert st.held + "" == st.held;
      SettledIsQuiet(st);
    } else {
      var c, rest := chunks[0], Concat(chunks[1..]);
      var p := Push(st, c);
      DriveSettles(st.(held := st.held + c));
      PushAllFrom(p.next, chunks[1..]);
      DriveAppend(st.(held := st.held + c), rest);
      assert st.held + c + rest == st.held + (c + rest);
    }
  }

  /**
   * Chunk independence: however a text is cut, the pushes leave the scrubber in the state, and emit the bytes,
   * that one push of the whole text does; and the state is one of the three settled kinds.
   */
  lemma ChunkIndependence(chunks: seq<string>)
    ensures PushAll(FRESH, chunks) == Push(FRESH, Concat(chunks))
    ensures Streamed(chunks) == Scrub(Concat(chunks))
    ensures Settled(PushAll(FRESH, chunks).next)
  {
    PushAllFrom(FRESH, chunks);
  }
}
