/** Conditions on the text alone: when the two strippers agree, when the scrubber changes nothing, what can reopen. */
module FenceTail {
  import opened Prelude
  import opened Fence
  import opened FenceOneShot

  // ---------- What stays undecided ----------

  /** A `<` this close to the end of the text is held, unless it begins a close tag. */
  predicate Short(s: string) {
    |s| < DECIDED_LENGTH && (|s| < 2 || s[1] != '/')
  }

  lemma {:induction false} UndecidedFrom(s: string, k: nat)
    requires |s| >= 2 && s[0] == '<' && OpenedName(s, k).None?
    ensures ClassifyFrom(s, k) == if |s| < DECIDED_LENGTH then Incomplete else NotProtected
    decreases |PROTECTED_FENCES| - k
  {
    hide OpensWith, MatchAt;
    if k < |PROTECTED_FENCES| && !(|s| <= 1 + |PROTECTED_FENCES[k]| && MatchAt(s, PROTECTED_FENCES[k][..|s| - 1], 1)) {
      UndecidedFrom(s, k + 1);
    }
  }

  /** A `<` that opens nothing is held exactly if it is short; an open tag exactly if it has no end. */
  lemma HeldIff(s: string)
    requires s != "" && s[0] == '<'
    ensures Classify(s).Incomplete?
       <==> match OpenedName(s) case None => Short(s) case Some(name) => OpenEnd(s, name) > |s|
    ensures Classify(s).NotProtected? <==> OpenedName(s).None? && !Short(s)
  {
    hide OpensWith, ClassifyFrom;
    match OpenedName(s)
    case None =>
      if |s| >= 2 && s[1] != '/' {
        UndecidedFrom(s, 0);
      }
    case Some(name) => ClassifyNamed(s, name);
  }

  // ---------- When streaming agrees with one-shot ----------

  /**
   * The scan of the one-shot form meets an open tag without an end, or a `<` too close to the end behind which a
   * protected fence opens.
   */
  ghost predicate Stuck(s: string)
    decreases |s|
  {
    s != "" &&
    match OpenedName(s)
    case Some(name) => OpenEnd(s, name) > |s| || Stuck(s[BlockLength(s, name)..])
    case None => if s[0] == '<' && Short(s) then ContainsOpener(s) else Stuck(s[1..])
  }

  lemma {:induction false} StuckPlain(before: string, rest: string)
    requires '<' !in before
    ensures Stuck(before + rest) <==> Stuck(rest)
  {
    hide Short, ContainsOpener, OpenedName;
    if before == "" {
      assert before + rest == rest;
    } else {
      NotATag(before + rest);
      assert (before + rest)[1..] == before[1..] + rest;
      StuckPlain(before[1..], rest);
    }
  }

  lemma OpenerInside(s: string, i: nat)
    requires i < |s| && OpenedName(s[i..]).Some?
    ensures ContainsOpener(s)
  {
  }

  lemma NoOpenerInNothing()
    ensures !ContainsOpener("") && !Stuck("")
  {
  }

  /** The tail the scrubber holds at the end opens a protected fence exactly if the scan gets stuck. */
  lemma {:induction false} HeldTailOpensIff(s: string)
    requires BlocksClose(s)
    ensures ContainsOpener(Flush(Drive(ScrubState(s, None)).next)) <==> Stuck(s)
    decreases |s|, 2
  {
    hide DriveTag, BlocksClose, ContainsOpener, Stuck;
    var lt := IndexOf(s, '<', 0);
    var before, rest := s[..lt], s[lt..];
    assert s == before + rest;
    StuckPlain(before, rest);
    if lt < |s| {
      BlocksClosePlain(before, rest);
      HeldTagOpensIff(rest);
    } else {
      NoOpenerInNothing();
    }
  }

  lemma {:induction false} HeldTagOpensIff(s: string)
    requires s != "" && s[0] == '<' && BlocksClose(s)
    ensures ContainsOpener(Flush(DriveTag(s).next)) <==> Stuck(s)
    decreases |s|, 1
  {
    hide Drive, DriveInside, Classify, ClosesExactly, OpenedName, OpensWith, BlocksClose, ContainsOpener, Short;
    hide IndexOf, BlockLength;
    ClassifyAgrees(s);
    HeldIff(s);
    match Classify(s)
    case Incomplete =>
      if OpenedName(s).Some? {
        assert s[0..] == s;
        OpenerInside(s, 0);
      }
    case NotProtected =>
      OneShotCopies(s);
      HeldTailOpensIff(s[1..]);
    case ProtectedSelfClosing(n) =>
      SelfClosingLength(s, OpenedName(s).value, n);
      OneShotDropsTag(s, OpenedName(s).value, n);
      HeldTailOpensIff(s[n..]);
    case Protected(name, n) =>
      DriveWhileInside(s[n..], name);
      HeldInsideOpensIff(s, name, n);
  }

  lemma SelfClosingLength(s: string, name: string, n: nat)
    requires OpensWith(s, name) && 1 + |name| < n <= |s| && n == IndexOf(s, '>', 1 + |name|) + 1 && s[n - 2] == '/'
    ensures BlockLength(s, name) == n == OpenEnd(s, name)
  {
    hide OpensWith, IndexOf;
  }

  lemma {:induction false} HeldInsideOpensIff(s: string, name: string, n: nat)
    requires BlocksClose(s) && OpenedName(s) == Some(name)
    requires n == OpenEnd(s, name) <= |s| && s[n - 2] != '/'
    ensures ContainsOpener(Flush(DriveInside(s[n..], name).next)) <==> Stuck(s)
    decreases |s|, 0
  {
    hide Drive, ClosesExactly, OpenedName, OpensWith, BlockLength, FindTag, CloseTag, Overlap, ContainsOpener, Short;
    BlocksAgree(s, name, n);
    NoOpenerInNothing();
    var m := BlockLength(s, name);
    match FindTag(s[n..], CloseTag(name), 0)
    case None =>
      assert s[m..] == "";
    case Some(p) =>
      assert s[n..][p + |CloseTag(name)|..] == s[m..];
      HeldTailOpensIff(s[m..]);
  }

  /**
   * Streaming refines one-shot: for a text whose protected blocks close exactly, in any chunks, the two give the same
   * if and only if the scan does not get stuck.
   */
  lemma StreamingRefinesOneShot(chunks: seq<string>)
    requires BlocksClose(Concat(chunks))
    ensures Streamed(chunks) == Sanitized(Concat(chunks)) <==> !Stuck(Concat(chunks))
  {
    hide Drive, BlocksClose, ContainsOpener, Sanitized, Stuck;
    var s := Concat(chunks);
    HeldTailDecides(chunks);
    ChunkIndependence(chunks);
    HeldTailOpensIff(s);
    assert "" + s == s;
  }

  /** Terminated fences are re-emitted too, behind a `<` that is still undecided: here a whole self-closing one. */
  lemma FlushReemitsFence()
    ensures var s := "<<attachments/>"; Scrub(s) == s && Sanitized(s) == "<"
  {
    hide OpenedName, Classify, OpensWith, IndexOf, MatchAt;
    var s, tag := "<<attachments/>", "<attachments/>";
    assert s == "<" + tag && s[1..] == tag;
    NoNameAtBracket(s);
    HeldIff(s);
    OpenerIsHeld(s);
    DriveAtTag(s);
    assert "" + s == s;
    OpensHere(tag);
    OpensNamed(tag, ATTACHMENTS);
    ByteAt(tag, '>', 12, 13);
    assert tag[|tag|..] == "";
  }

  lemma NoNameAtBracket(s: string)
    requires |s| >= 2 && s[0] == '<' && s[1] == '<'
    ensures OpenedName(s).None?
  {
    forall name | name in PROTECTED_FENCES ensures !OpensWith(s, name) {
      if |s| > 1 + |name| {
        assert s[1..1 + |name|][0] == '<';
        assert Lower(name[0]) != '<';
      }
    }
  }

  lemma OpensHere(tag: string)
    requires tag == "<attachments/>"
    ensures OpensWith(tag, ATTACHMENTS)
  {
    NameMatchesItself(ATTACHMENTS, "/>");
    assert tag == "<" + ATTACHMENTS + "/>";
    OpensIntro(tag, ATTACHMENTS);
  }

  // ---------- Fixed points of the scrubber ----------

  /** Before it meets an undecided tag, the scan meets an open tag with its end. */
  predicate Drops(s: string)
    decreases |s|
  {
    s != "" &&
    match OpenedName(s)
    case Some(name) => OpenEnd(s, name) <= |s|
    case None => !(s[0] == '<' && Short(s)) && Drops(s[1..])
  }

  lemma {:induction false} DropsPlain(before: string, rest: string)
    requires '<' !in before
    ensures Drops(before + rest) <==> Drops(rest)
  {
    hide Short, OpenedName;
    if before == "" {
      assert before + rest == rest;
    } else {
      NotATag(before + rest);
      assert (before + rest)[1..] == before[1..] + rest;
      DropsPlain(before[1..], rest);
    }
  }

  lemma {:induction false} DriveKeepsIff(s: string)
    ensures var p := Drive(ScrubState(s, None)); p.out + Flush(p.next) == s <==> !Drops(s)
    decreases |s|, 1
  {
    hide DriveTag, Drops;
    var lt := IndexOf(s, '<', 0);
    var before, rest := s[..lt], s[lt..];
    assert s == before + rest;
    DropsPlain(before, rest);
    if lt < |s| {
      TagKeepsIff(rest);
      var p := DriveTag(rest);
      SamePrefix(before, p.out + Flush(p.next), rest);
      Glue(before, p.out, Flush(p.next));
    } else {
      assert before + "" == s;
      assert !Drops("") by { NothingDrops(); }
    }
  }

  lemma NothingDrops()
    ensures !Drops("")
  {
  }

  lemma {:induction false} TagKeepsIff(s: string)
    requires s != "" && s[0] == '<'
    ensures var p := DriveTag(s); p.out + Flush(p.next) == s <==> !Drops(s)
    decreases |s|, 0
  {
    hide Drive, DriveInside, Classify, OpenedName, OpensWith, Short, IndexOf, Flush;
    ClassifyAgrees(s);
    HeldIff(s);
    match Classify(s)
    case Incomplete =>
      FlushHeld(s);
      assert "" + s == s;
    case NotProtected =>
      DriveKeepsIff(s[1..]);
      var p := Drive(ScrubState(s[1..], None));
      Glue("<", p.out, Flush(p.next));
      assert s == "<" + s[1..];
      SamePrefix("<", p.out + Flush(p.next), s[1..]);
    case ProtectedSelfClosing(n) => DriveShrinks(ScrubState(s[n..], None));
    case Protected(name, n) => DriveShrinks(ScrubState(s[n..], Some(name)));
  }

  lemma FlushHeld(s: string)
    ensures Flush(ScrubState(s, None)) == s
  {
  }

  /** The scrubber leaves a text alone exactly if the scan meets no open tag with its end before an undecided one. */
  lemma ScrubIsIdentity(s: string)
    ensures Scrub(s) == s <==> !Drops(s)
  {
    hide Drive, Drops;
    DriveKeepsIff(s);
    assert "" + s == s;
  }

  // ---------- What can reopen ----------

  /** A protected open tag begins with the last bytes of `a` and is completed by `b`. */
  ghost predicate Straddles(a: string, b: string) {
    exists i, name ::
      0 <= i < |a| && name in PROTECTED_FENCES && |a| - i <= 1 + |name| && OpensWith(a[i..] + b, name)
  }

  lemma OpenerAppend(a: string, b: string)
    ensures ContainsOpener(a + b) <==> ContainsOpener(a) || Straddles(a, b) || ContainsOpener(b)
  {
    hide OpensWith, OpenedName;
    var all := a + b;
    forall i | 0 <= i < |a|
      ensures all[i..] == a[i..] + b
      ensures OpenedName(all[i..]).Some? <==> OpenedName(a[i..]).Some? || StraddlesAt(a, b, i)
    {
      assert all[i..] == a[i..] + b;
      OpenerAt(a, b, i);
    }
    assert forall i :: |a| <= i < |all| ==> all[i..] == b[i - |a|..];
    assert forall i :: 0 <= i < |b| ==> b[i..] == all[i + |a|..];
    assert Straddles(a, b) <==> exists i :: 0 <= i < |a| && StraddlesAt(a, b, i);
    if ContainsOpener(b) {
      var i :| 0 <= i < |b| && OpenedName(b[i..]).Some?;
      assert OpenedName(all[i + |a|..]).Some?;
    }
  }

  ghost predicate StraddlesAt(a: string, b: string, i: int)
    requires 0 <= i <= |a|
  {
    exists name :: name in PROTECTED_FENCES && |a| - i <= 1 + |name| && OpensWith(a[i..] + b, name)
  }

  lemma OpenerAt(a: string, b: string, i: nat)
    requires i < |a|
    ensures OpenedName(a[i..] + b).Some? <==> OpenedName(a[i..]).Some? || StraddlesAt(a, b, i)
  {
    hide OpensWith;
    var s := a[i..];
    forall name | name in PROTECTED_FENCES && |s| > 1 + |name| ensures OpensWith(s + b, name) == OpensWith(s, name) {
      OpensAppend(s, b, name);
    }
    OpensSomeName(s);
    OpensSomeName(s + b);
  }

  lemma OpensSomeName(s: string)
    ensures OpenedName(s).Some? <==> exists name :: name in PROTECTED_FENCES && OpensWith(s, name)
    ensures forall name :: name in PROTECTED_FENCES && OpensWith(s, name) ==> |s| > 1 + |name|
  {
    hide EqIgnoreCase, EndsName;
  }

  /** Where the first protected fence opens, or the length of `s`. */
  function FirstOpener(s: string): (i: nat)
    ensures i <= |s|
    ensures i < |s| ==> OpenedName(s[i..]).Some?
    ensures forall j :: 0 <= j < i ==> OpenedName(s[j..]).None?
  {
    if s == "" || OpenedName(s).Some? then assert s[0..] == s; 0
    else
      var i := FirstOpener(s[1..]);
      assert forall j :: 0 < j <= |s| ==> s[j..] == s[1..][j - 1..];
      assert s[0..] == s;
      i + 1
  }

  /** What follows the first block. */
  function AfterFirstBlock(s: string): (rest: string)
    requires FirstOpener(s) < |s|
    ensures |rest| < |s|
  {
    var tail := s[FirstOpener(s)..];
    tail[BlockLength(tail, OpenedName(tail).value)..]
  }

  /**
   * Before some stripped block stands the beginning of a protected open tag which the text kept behind the block
   * completes.
   */
  ghost predicate Rejoins(s: string)
    decreases |s|
  {
    var i := FirstOpener(s);
    i < |s| && (Straddles(s[..i], Sanitized(AfterFirstBlock(s))) || Rejoins(AfterFirstBlock(s)))
  }

  lemma FirstOpenerStep(s: string)
    requires s != "" && OpenedName(s).None?
    ensures FirstOpener(s) == FirstOpener(s[1..]) + 1
  {
    hide OpenedName;
  }

  lemma {:induction false} SanitizedRun(s: string)
    ensures var i := FirstOpener(s);
            Sanitized(s) == s[..i] + if i < |s| then Sanitized(AfterFirstBlock(s)) else ""
  {
    hide BlockLength, OpenedName, Sanitized, OpensWith;
    var i := FirstOpener(s);
    if s == "" {
      SanitizedWhole(s);
    } else if OpenedName(s).Some? {
      assert s[0..] == s;
      SanitizedOpened(s, OpenedName(s).value);
    } else {
      var rest := s[1..];
      SanitizedCopies(s);
      FirstOpenerStep(s);
      SanitizedRun(rest);
      assert s[..i] == [s[0]] + rest[..i - 1];
      assert s[i..] == rest[i - 1..];
      Glue([s[0]], rest[..i - 1], if i < |s| then Sanitized(AfterFirstBlock(s)) else "");
    }
  }

  /**
   * What the one-shot form leaves opens a protected fence exactly if two pieces kept around a stripped block make up
   * an open tag.
   */
  lemma {:induction false} SanitizedReopensIff(s: string)
    ensures ContainsOpener(Sanitized(s)) <==> Rejoins(s)
    decreases |s|
  {
    hide ContainsOpener, Straddles, FirstOpener, Sanitized, AfterFirstBlock;
    var i := FirstOpener(s);
    SanitizedRun(s);
    NothingOpensBefore(s);
    if i < |s| {
      OpenerAppend(s[..i], Sanitized(AfterFirstBlock(s)));
      SanitizedReopensIff(AfterFirstBlock(s));
    } else {
      assert s[..i] + "" == s[..i];
    }
  }

  lemma NothingOpensBefore(s: string)
    ensures !ContainsOpener(s[..FirstOpener(s)])
  {
    hide OpensWith, OpenedName, FirstOpener;
    var i := FirstOpener(s);
    forall j | 0 <= j < i ensures OpenedName(s[..i][j..]).None? {
      assert s[..i][j..] + s[i..] == s[j..];
      OpenerAt(s[..i], s[i..], j);
    }
  }

  /** The scrubber's output opens one exactly if, besides, the scan does not get stuck. */
  lemma ScrubReopensIff(s: string)
    requires BlocksClose(s)
    ensures ContainsOpener(Scrub(s)) <==> Stuck(s) || Rejoins(s)
  {
    hide Drive, ContainsOpener, Stuck, Rejoins, BlocksClose, Sanitized, Straddles;
    var p := Drive(ScrubState(s, None));
    assert "" + s == s;
    HeldTailOpensIff(s);
    SanitizedReopensIff(s);
    OneShotFinishesStream(s);
    if Stuck(s) {
      OpenerAppend(p.out, Flush(p.next));
    } else {
      SanitizedIsIdentity(Flush(p.next));
    }
  }

  /**
   * It happens at every place: a block inside a protected open tag, right behind any part of its name, is stripped and
   * leaves that tag whole.
   */
  lemma StrippingReopens(name: string, k: nat, after: string)
    requires name in PROTECTED_FENCES && k <= |name| && '<' !in after
    ensures var begun := "<" + name[..k]; Sanitized(begun + "<attachments/>" + after) == begun + after
  {
    hide OpensWith, OpenedName, Sanitized;
    var begun, tag := name[..k], "<attachments/>" + after;
    var s := "<" + (begun + tag);
    assert s[1..] == begun + tag;
    BrokenTag(s, name, k);
    SanitizedCopies(s);
    assert '<' !in name;
    SanitizedPlain(begun, tag);
    SanitizedTag(after);
    assert "<" + name[..k] + "<attachments/>" + after == s;
  }

  lemma SanitizedTag(after: string)
    requires '<' !in after
    ensures Sanitized("<attachments/>" + after) == after
  {
    hide OpensWith, OpenedName, Sanitized;
    var tag := "<attachments/>" + after;
    assert tag == "<" + ATTACHMENTS + ("/>" + after);
    NameMatchesItself(ATTACHMENTS, "/>" + after);
    OpensIntro(tag, ATTACHMENTS);
    OpensNamed(tag, ATTACHMENTS);
    ByteAt(tag, '>', 12, 13);
    SelfClosingLength(tag, ATTACHMENTS, 14);
    SanitizedOpened(tag, ATTACHMENTS);
    assert tag[14..] == after;
    SanitizedWhole(after);
  }

  lemma SanitizedCopies(s: string)
    requires s != "" && OpenedName(s).None?
    ensures Sanitized(s) == [s[0]] + Sanitized(s[1..])
  {
    hide OpenedName;
  }

  lemma BrokenTag(s: string, name: string, k: nat)
    requires name in PROTECTED_FENCES && k <= |name| && |s| > 1 + k && s[1 + k] == '<' && s[1..1 + k] == name[..k]
    ensures OpenedName(s).None?
  {
    hide MatchAt;
    forall other | other in PROTECTED_FENCES && |s| > 1 + |other| ensures !OpensWith(s, other) {
      if k < |other| {
        BracketInName(s, other, k);
      } else if other != name {
        assert s[1] == s[1..1 + k][0] == name[0];
        OtherName(s, name, other);
      }
    }
  }

  lemma BracketInName(s: string, name: string, k: nat)
    requires name in PROTECTED_FENCES && k < |name| && |s| > 1 + |name| && s[1 + k] == '<'
    ensures !MatchAt(s, name, 1)
  {
    hide MatchAt;
    assert '<' !in name;
    assert name[k] in name && Lower(name[k]) == name[k];
    ByteMismatch(s, name, 1, k);
  }

  lemma OtherName(s: string, name: string, other: string)
    requires name in PROTECTED_FENCES && other in PROTECTED_FENCES && other != name && |s| > 1 + |other|
    requires s[1] == name[0]
    ensures !MatchAt(s, other, 1)
  {
    hide MatchAt;
    ByteMismatch(s, other, 1, 0);
  }
}
