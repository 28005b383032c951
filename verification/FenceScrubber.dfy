/** The imperative forms of the fence stripper, each proved against its specification function in `Fence`. */
module FenceScrubber {
  import opened Prelude
  import opened Fence
  import opened FenceOneShot

  /** First character boundary after `i`. */
  method NextCharBoundary(input: string, i: nat) returns (end: nat)
    requires i < |input|
    ensures i < end <= |input|
    ensures forall j :: i < j < end ==> IsContinuation(input[j])
    ensures end < |input| ==> !IsContinuation(input[end])
  {
    end := i + 1;
    while end < |input| && IsContinuation(input[end])
      invariant i < end <= |input|
      invariant forall j :: i < j < end ==> IsContinuation(input[j])
    {
      end := end + 1;
    }
  }

  method FindByte(s: string, c: char, from: nat) returns (i: nat)
    requires from <= |s|
    ensures i == IndexOf(s, c, from)
  {
    i := from;
    while i < |s| && s[i] != c
      invariant from <= i <= |s|
      invariant IndexOf(s, c, from) == IndexOf(s, c, i)
    {
      i := i + 1;
    }
  }

  /** Linear search for `tag` from `from` on. */
  method FindTagFrom(s: string, tag: string, from: nat) returns (r: Option<nat>)
    ensures r == FindTag(s, tag, from)
  {
    hide EqIgnoreCase;
    var k := from;
    while k + |tag| <= |s|
      invariant from <= k
      invariant FindTag(s, tag, from) == FindTag(s, tag, k)
      decreases |s| - k
    {
      if MatchAt(s, tag, k) {
        return Some(k);
      }
      k := k + 1;
    }
    r := None;
    assert forall j :: k <= j ==> !MatchAt(s, tag, j);
  }

  /** Length of the protected block that opens at the start of `s`, if one does. */
  method StripProtectedBlock(s: string) returns (skip: Option<nat>)
    requires s != "" && s[0] == '<'
    ensures match OpenedName(s)
            case None => skip.None?
            case Some(name) => skip == Some(BlockLength(s, name))
  {
    hide MatchAt, EndsName, FindTag, IndexOf;
    var n := 0;
    while n < |PROTECTED_FENCES|
      invariant n <= |PROTECTED_FENCES|
      invariant OpenedName(s) == OpenedName(s, n)
    {
      var name := PROTECTED_FENCES[n];
      if OpensWith(s, name) {
        assert OpenedName(s) == Some(name);
        var j := FindByte(s, '>', 1 + |name|);
        if j == |s| {
          return Some(|s|);
        }
        if s[j - 1] == '/' {
          return Some(j + 1);
        }
        var close := FindTagFrom(s, "</" + name, j + 1);
        if close.None? {
          return Some(|s|);
        }
        var end := FindByte(s, '>', close.value + 2 + |name|);
        return Some(if end < |s| then end + 1 else end);
      }
      n := n + 1;
    }
    skip := None;
  }

  lemma {:induction false} SanitizedCopies(s: string, n: nat)
    requires 0 < n <= |s| && OpenedName(s).None?
    requires forall j :: 0 < j < n ==> s[j] != '<'
    ensures Sanitized(s) == s[..n] + Sanitized(s[n..])
    decreases n
  {
    hide OpenedName, Sanitized;
    SanitizedStep(s);
    if n > 1 {
      assert s[1] != '<';
      NotATag(s[1..]);
      SanitizedCopies(s[1..], n - 1);
      assert s[1..][n - 1..] == s[n..];
      assert s[..n] == [s[0]] + s[1..][..n - 1];
    }
  }

  lemma SanitizedStep(s: string)
    requires s != ""
    ensures match OpenedName(s)
            case None => Sanitized(s) == [s[0]] + Sanitized(s[1..])
            case Some(name) => Sanitized(s) == Sanitized(s[BlockLength(s, name)..])
  {
    hide OpenedName, BlockLength;
  }

  method SanitizeContext(input: string) returns (out: string)
    ensures out == Sanitized(input)
  {
    hide OpenedName, BlockLength, Sanitized;
    if '<' !in input {
      SanitizedWhole(input);
      return input;
    }
    out := "";
    var i := 0;
    assert input[0..] == input;
    while i < |input|
      invariant 0 <= i <= |input|
      invariant Sanitized(input) == out + Sanitized(input[i..])
      decreases |input| - i
    {
      ghost var rest := input[i..];
      SanitizedStep(rest);
      var skip: Option<nat> := None;
      if input[i] == '<' {
        skip := StripProtectedBlock(input[i..]);
      } else {
        NotATag(rest);
      }
      if skip.Some? {
        assert rest[skip.value..] == input[i + skip.value..];
        assert Sanitized(rest) == Sanitized(input[i + skip.value..]);
        i := i + skip.value;
      } else {
        var end := NextCharBoundary(input, i);
        SanitizedCopiesAt(input, i, end);
        Glue(out, input[i..end], Sanitized(input[end..]));
        assert Sanitized(input) == out + input[i..end] + Sanitized(input[end..]);
        out := out + input[i..end];
        i := end;
      }
    }
    assert input[i..] == "";
    SanitizedWhole("");
  }

  lemma SanitizedCopiesAt(s: string, i: nat, end: nat)
    requires i < end <= |s| && OpenedName(s[i..]).None?
    requires forall j :: i < j < end ==> IsContinuation(s[j])
    ensures Sanitized(s[i..]) == s[i..end] + Sanitized(s[end..])
  {
    hide OpenedName, Sanitized;
    var rest := s[i..];
    assert forall j :: 0 < j < end - i ==> rest[j] == s[i + j];
    SanitizedCopies(rest, end - i);
    assert rest[..end - i] == s[i..end];
    assert rest[end - i..] == s[end..];
  }

  method ClassifyOpen(s: string) returns (r: OpenClass)
    requires s != "" && s[0] == '<'
    ensures r == Classify(s)
  {
    hide EqIgnoreCase, EndsName, IndexOf;
    if |s| < 2 {
      return Incomplete;
    }
    if s[1] == '/' {
      return NotProtected;
    }
    var k := 0;
    while k < |PROTECTED_FENCES|
      invariant k <= |PROTECTED_FENCES|
      invariant Classify(s) == ClassifyFrom(s, k)
    {
      var name := PROTECTED_FENCES[k];
      var need := 1 + |name|;
      if |s| <= need {
        if MatchAt(s, name[..|s| - 1], 1) {
          return Incomplete;
        }
      } else if OpensWith(s, name) {
        var j := FindByte(s, '>', need);
        if j == |s| {
          return Incomplete;
        }
        if s[j - 1] == '/' {
          return ProtectedSelfClosing(j + 1);
        }
        return Protected(name, j + 1);
      }
      k := k + 1;
    }
    r := if |s| < DECIDED_LENGTH then Incomplete else NotProtected;
  }

  method HeldTailOverlap(held: string, close: string) returns (m: nat)
    requires close != ""
    ensures m == Overlap(held, close)
  {
    m := Min(|held|, |close| - 1);
    while m > 0 && !TailMatches(held, close, m)
      invariant m <= |held| && m < |close|
      invariant Overlap(held, close) == OverlapUpTo(held, close, m)
    {
      m := m - 1;
    }
  }

  class StreamingScrubber {
    // Bytes not decided yet: a partial open tag, or the possible start of a close tag.
    var held: string
    // The protected block being dropped, if any.
    var inside: Option<string>

    function State(): ScrubState
      reads this
    {
      ScrubState(held, inside)
    }

    constructor ()
      ensures State() == FRESH
    {
      held, inside := "", None;
    }

    method Push(chunk: string) returns (out: string)
      modifies this
      ensures Pushed(out, State()) == Fence.Push(old(State()), chunk)
    {
      hide Fence.Drive, DriveTag, DriveInside, FindTag, Overlap, Classify, IndexOf;
      held := held + chunk;
      ghost var start := State();
      out := "";
      assert Emit("", Drive(start)) == Drive(start) by {
        EmitNothing(Drive(start));
      }
      while true
        invariant Drive(start) == Emit(out, Drive(State()))
        decreases |held|
      {
        if inside.Some? {
          var close := CloseTag(inside.value);
          DriveInsideStep(held, inside.value, close);
          var pos := FindTagFrom(held, close, 0);
          if pos.Some? {
            held := held[pos.value + |close|..];
            inside := None;
            continue;
          }
          var keep := HeldTailOverlap(held, close);
          held := held[|held| - keep..];
          return;
        }
        var lt := FindByte(held, '<', 0);
        DriveOutsideStep(held);
        if lt == |held| {
          out := out + held;
          held := "";
          return;
        }
        EmitTwice(out, held[..lt], DriveTag(held[lt..]));
        out := out + held[..lt];
        held := held[lt..];
        DriveTagStep(held);
        var c := ClassifyOpen(held);
        match c
        case NotProtected =>
          EmitTwice(out, "<", Drive(ScrubState(held[1..], None)));
          out := out + "<";
          held := held[1..];
        case Incomplete =>
          return;
        case Protected(name, openLen) =>
          held := held[openLen..];
          inside := Some(name);
        case ProtectedSelfClosing(openLen) =>
          held := held[openLen..];
      }
    }

    /** Ends the stream: emits the held bytes, or drops them inside an unterminated block. */
    method Flush() returns (out: string)
      modifies this
      ensures out == Fence.Flush(old(State())) && State() == FRESH
    {
      out := "";
      if inside.Some? {
        held := "";
        inside := None;
        return;
      }
      out := held;
      held := "";
    }
  }

  lemma DriveInsideStep(held: string, name: string, close: string)
    requires close == CloseTag(name)
    ensures var r := FindTag(held, close, 0);
            var kept := held[|held| - Overlap(held, close)..];
            && (r.Some? ==> Drive(ScrubState(held, Some(name))) == Drive(ScrubState(held[r.value + |close|..], None)))
            && (r.None? ==> Drive(ScrubState(held, Some(name))) == Pushed("", ScrubState(kept, Some(name))))
  {
    hide Drive, FindTag, Overlap, CloseTag;
    DriveWhileInside(held, name);
  }

  lemma DriveOutsideStep(held: string)
    ensures var lt := IndexOf(held, '<', 0);
            Drive(ScrubState(held, None)) ==
            if lt == |held| then Pushed(held, FRESH) else Emit(held[..lt], DriveTag(held[lt..]))
  {
  }

  lemma DriveTagStep(s: string)
    requires s != "" && s[0] == '<'
    ensures var c := Classify(s);
            && (c.NotProtected? ==> DriveTag(s) == Emit("<", Drive(ScrubState(s[1..], None))))
            && (c.Incomplete? ==> DriveTag(s) == Pushed("", ScrubState(s, None)))
            && (c.Protected? ==> DriveTag(s) == Drive(ScrubState(s[c.openLen..], Some(c.name))))
            && (c.ProtectedSelfClosing? ==> DriveTag(s) == Drive(ScrubState(s[c.openLen..], None)))
  {
  }
}
