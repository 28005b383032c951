/** How the incremental scrubber relates to the one-shot stripper. */
module FenceOneShot {
  import opened Prelude
  import opened Fence

  /** Every `</name` of a protected fence is followed at once by `>` or by the end of the text. */
  ghost predicate TightCloses(s: string) {
    forall name, k ::
      name in PROTECTED_FENCES && MatchAt(s, "</" + name, k) ==>
        k + 2 + |name| == |s| || s[k + 2 + |name|] == '>'
  }

  ghost predicate ContainsOpener(s: string) {
    exists i :: 0 <= i < |s| && OpenedName(s[i..]).Some?
  }

  // ---------- The one-shot form ----------

  lemma {:induction false} SanitizedShrinks(s: string)
    ensures |Sanitized(s)| <= |s|
    ensures OpenedName(s).Some? ==> |Sanitized(s)| < |s|
    decreases |s|
  {
    if s != "" {
      match OpenedName(s)
      case Some(name) => SanitizedShrinks(s[BlockLength(s, name)..]);
      case None => SanitizedShrinks(s[1..]);
    }
  }

  /** The one-shot form changes a text exactly when a protected fence opens in it. */
  lemma {:induction false} SanitizedIsIdentity(s: string)
    ensures Sanitized(s) == s <==> !ContainsOpener(s)
    decreases |s|
  {
    if s != "" {
      SanitizedShrinks(s);
      assert s[0..] == s;
      if OpenedName(s).None? {
        hide OpenedName;
        SanitizedIsIdentity(s[1..]);
        assert s == [s[0]] + s[1..];
        assert forall i :: 0 <= i < |s[1..]| ==> s[1..][i..] == s[i + 1..];
        assert forall i :: 0 < i < |s| ==> s[i..] == s[1..][i - 1..];
      }
    }
  }

  lemma NotATag(s: string)
    requires s != "" && s[0] != '<'
    ensures OpenedName(s).None?
  {
  }

  lemma {:induction false} SanitizedPlain(before: string, rest: string)
    requires '<' !in before
    ensures Sanitized(before + rest) == before + Sanitized(rest)
  {
    hide OpensWith, BlockLength;
    var all := before + rest;
    if before == "" {
      assert all == rest;
    } else {
      assert all[0] == before[0] && before[0] != '<';
      assert OpenedName(all).None? by {
        NotATag(all);
      }
      assert all[1..] == before[1..] + rest;
      SanitizedPlain(before[1..], rest);
      assert before == [before[0]] + before[1..];
    }
  }

  // ---------- Both forms see the same open tags ----------

  lemma NoSlashName(s: string, name: string)
    requires |s| >= 2 && s[1] == '/' && name in PROTECTED_FENCES
    ensures !OpensWith(s, name)
  {
    if |s| > 1 + |name| {
      assert s[1..1 + |name|][0] == '/';
      assert Lower(name[0]) != '/';
    }
  }

  /** The streaming class `c` of the tag at the start of `s` fits the name the one-shot form sees there. */
  predicate SameTag(s: string, c: OpenClass, seen: Option<string>) {
    match c
    case NotProtected => seen.None?
    case Incomplete => true
    case Protected(name, n) =>
      seen == Some(name) && 1 + |name| < n <= |s| && n == IndexOf(s, '>', 1 + |name|) + 1 && s[n - 2] != '/'
    case ProtectedSelfClosing(n) =>
      && seen.Some?
      && 1 + |seen.value| < n <= |s|
      && n == IndexOf(s, '>', 1 + |seen.value|) + 1 && s[n - 2] == '/'
  }

  lemma {:induction false} ClassifyFromAgrees(s: string, k: nat)
    requires |s| >= 2 && s[0] == '<'
    ensures SameTag(s, ClassifyFrom(s, k), OpenedName(s, k))
    decreases |PROTECTED_FENCES| - k
  {
    hide MatchAt, EndsName;
    if k < |PROTECTED_FENCES| {
      var name := PROTECTED_FENCES[k];
      if !OpensWith(s, name) {
        ClassifyFromAgrees(s, k + 1);
        assert OpenedName(s, k) == OpenedName(s, k + 1);
      } else {
        assert OpenedName(s, k) == Some(name);
      }
    }
  }

  lemma ClassifyAgrees(s: string)
    requires s != "" && s[0] == '<'
    ensures SameTag(s, Classify(s), OpenedName(s))
  {
    hide OpensWith;
    if |s| >= 2 {
      if s[1] == '/' {
        forall name | name in PROTECTED_FENCES ensures !OpensWith(s, name) {
          NoSlashName(s, name);
        }
      } else {
        ClassifyFromAgrees(s, 0);
      }
    }
  }

  // ---------- Tight close tags ----------

  lemma CloseHasMarker(s: string, name: string, i: int)
    requires MatchAt(s, CloseTag(name), i)
    ensures MatchAt(s, "</" + name, i)
  {
    var m := 2 + |name|;
    EqIgnoreCasePrefix(s[i..i + m + 1], CloseTag(name), m);
    assert s[i..i + m + 1][..m] == s[i..i + m];
    assert CloseTag(name)[..m] == "</" + name;
  }

  lemma MarkerThenBracket(s: string, name: string, i: int)
    requires MatchAt(s, "</" + name, i) && i + 2 + |name| < |s| && s[i + 2 + |name|] == '>'
    ensures MatchAt(s, CloseTag(name), i)
  {
    var m := 2 + |name|;
    assert s[i..i + m + 1] == s[i..i + m] + ">";
    assert CloseTag(name) == ("</" + name) + ">";
  }

  lemma CloseNeedsMarker(s: string, name: string, n: nat, i: nat)
    requires n <= |s| && MatchAt(s[n..], CloseTag(name), i)
    ensures MatchAt(s, "</" + name, n + i) && n + i + 3 + |name| <= |s|
  {
    hide MatchAt;
    MatchDrop(s, CloseTag(name), n, i);
    CloseHasMarker(s, name, n + i);
    MatchFits(s, CloseTag(name), n + i);
  }

  lemma MatchFits(s: string, pattern: string, i: int)
    ensures MatchAt(s, pattern, i) ==> i + |pattern| <= |s|
  {
  }

  lemma SanitizedWhole(s: string)
    requires '<' !in s
    ensures Sanitized(s) == s
  {
    SanitizedPlain(s, "");
    assert s + "" == s;
  }

  // ---------- Exact close tags ----------

  /** Where the open tag at the start of `s` ends, or the length of `s`. */
  function OpenEnd(s: string, name: string): (n: nat)
    requires OpensWith(s, name)
    ensures 1 < n <= |s| + 1
  {
    IndexOf(s, '>', 1 + |name|) + 1
  }

  /**
   * The block of `name` whose content starts at `n` closes exactly: the first `>` after its first `</name`, if there
   * is one, ends a tag `</name>`.
   */
  predicate ClosesExactly(s: string, name: string, n: nat) {
    match FindTag(s, "</" + name, n)
    case None => true
    case Some(k) =>
      var end := IndexOf(s, '>', k + 2 + |name|);
      end == |s| || MatchAt(s, CloseTag(name), end - 2 - |name|)
  }

  /** Every block that the one-shot form strips closes exactly; close tags outside blocks do not matter. */
  predicate BlocksClose(s: string)
    decreases |s|
  {
    s == "" ||
    match OpenedName(s)
    case None => BlocksClose(s[1..])
    case Some(name) =>
      var n := OpenEnd(s, name);
      && (n > |s| || s[n - 2] == '/' || ClosesExactly(s, name, n))
      && BlocksClose(s[BlockLength(s, name)..])
  }

  lemma {:induction false} BlocksClosePlain(before: string, rest: string)
    requires '<' !in before && BlocksClose(before + rest)
    ensures BlocksClose(rest)
  {
    hide ClosesExactly;
    if before == "" {
      assert before + rest == rest;
    } else {
      NotATag(before + rest);
      assert (before + rest)[1..] == before[1..] + rest;
      BlocksClosePlain(before[1..], rest);
    }
  }

  /** Tight close tags close every block exactly. */
  lemma {:induction false} TightBlocksClose(s: string)
    requires TightCloses(s)
    ensures BlocksClose(s)
    decreases |s|
  {
    hide TightCloses, ClosesExactly, MatchAt, FindTag, IndexOf;
    if s != "" {
      match OpenedName(s)
      case None =>
        TightDrop(s, 1);
        TightBlocksClose(s[1..]);
      case Some(name) =>
        TightClosesExactly(s, name, OpenEnd(s, name));
        TightDrop(s, BlockLength(s, name));
        TightBlocksClose(s[BlockLength(s, name)..]);
    }
  }

  lemma TightDrop(s: string, n: nat)
    requires TightCloses(s) && n <= |s|
    ensures TightCloses(s[n..])
  {
    forall name, k | name in PROTECTED_FENCES && MatchAt(s[n..], "</" + name, k)
      ensures k + 2 + |name| == |s[n..]| || s[n..][k + 2 + |name|] == '>'
    {
      MatchDrop(s, "</" + name, n, k);
      assert MatchAt(s, "</" + name, n + k);
    }
  }

  lemma TightClosesExactly(s: string, name: string, n: nat)
    requires TightCloses(s) && name in PROTECTED_FENCES
    ensures ClosesExactly(s, name, n)
  {
    hide MatchAt;
    match FindTag(s, "</" + name, n)
    case None =>
    case Some(k) =>
      if k + 2 + |name| < |s| {
        MarkerThenBracket(s, name, k);
      }
  }

  /** From inside such a block both forms resume at the same byte, or both drop everything to the end. */
  lemma BlocksAgree(s: string, name: string, n: nat)
    requires OpensWith(s, name) && n == OpenEnd(s, name) <= |s| && s[n - 2] != '/' && ClosesExactly(s, name, n)
    ensures match FindTag(s[n..], CloseTag(name), 0)
            case None => BlockLength(s, name) == |s|
            case Some(p) => n + p + |CloseTag(name)| == BlockLength(s, name)
  {
    hide FindTag, MatchAt, CloseTag, IndexOf, OpensWith;
    var close, marker, rest := CloseTag(name), "</" + name, s[n..];
    forall i: nat | MatchAt(rest, close, i)
      ensures MatchAt(s, marker, n + i) && n + i + 3 + |name| <= |s| && s[n + i + 2 + |name|] == '>'
    {
      CloseNeedsMarker(s, name, n, i);
      MatchDrop(s, close, n, i);
      CloseEndsInBracket(s, name, n + i);
    }
    match FindTag(s, marker, n)
    case None =>
    case Some(k) =>
      var end := IndexOf(s, '>', k + 2 + |name|);
      if end < |s| {
        var at := end - 2 - |name|;
        MatchDrop(s, close, n, at - n);
        forall i: nat | i < at - n ensures !MatchAt(rest, close, i) {
        }
        FirstMatch(rest, close, at - n);
      }
  }

  lemma CloseEndsInBracket(s: string, name: string, i: nat)
    requires MatchAt(s, CloseTag(name), i)
    ensures i + 2 + |name| < |s| && s[i + 2 + |name|] == '>'
  {
    var tag := s[i..i + 3 + |name|];
    assert Lower(tag[2 + |name|]) == Lower('>') == '>';
  }

  // ---------- The comparison ----------

  /** What the one-shot form still has to do once the stream has ended: strip the tail the scrubber holds. */
  lemma {:induction false} OneShotFinishesStream(s: string)
    requires BlocksClose(s)
    ensures var p := Drive(ScrubState(s, None)); Sanitized(s) == p.out + Sanitized(Flush(p.next))
    decreases |s|, 2
  {
    hide Drive, DriveTag, BlocksClose, Sanitized, Flush;
    var lt := IndexOf(s, '<', 0);
    var before, rest := s[..lt], s[lt..];
    assert s == before + rest;
    DriveFromStart(s);
    SanitizedPlain(before, rest);
    if lt < |s| {
      BlocksClosePlain(before, rest);
      OneShotFinishesTag(rest);
      var p := DriveTag(rest);
      Glue(before, p.out, Sanitized(Flush(p.next)));
    } else {
      NothingHeld();
      assert before + "" == before;
    }
  }

  lemma DriveFromStart(s: string)
    ensures var lt := IndexOf(s, '<', 0);
            Drive(ScrubState(s, None)) == if lt == |s| then Pushed(s, FRESH) else Emit(s[..lt], DriveTag(s[lt..]))
  {
  }

  lemma NothingHeld()
    ensures Flush(FRESH) == "" && Sanitized("") == ""
  {
  }

  /** The one-shot form copies a `<` that opens nothing ... */
  lemma OneShotCopies(s: string)
    requires s != "" && s[0] == '<' && BlocksClose(s) && OpenedName(s).None?
    ensures Sanitized(s) == "<" + Sanitized(s[1..]) && BlocksClose(s[1..])
  {
    hide OpenedName, ClosesExactly;
  }

  /** ... and drops a self-closing tag alone. */
  lemma OneShotDropsTag(s: string, name: string, n: nat)
    requires s != "" && BlocksClose(s) && OpenedName(s) == Some(name)
    requires n <= |s| && n == IndexOf(s, '>', 1 + |name|) + 1 && s[n - 2] == '/'
    ensures Sanitized(s) == Sanitized(s[n..]) && BlocksClose(s[n..])
  {
    hide OpenedName, ClosesExactly, OpensWith, IndexOf, FindTag;
    assert BlockLength(s, name) == n;
    hide BlockLength;
  }

  lemma {:induction false} OneShotFinishesTag(s: string)
    requires s != "" && s[0] == '<' && BlocksClose(s)
    ensures Sanitized(s) == DriveTag(s).out + Sanitized(Flush(DriveTag(s).next))
    decreases |s|, 1
  {
    hide Drive, DriveInside, Classify, ClosesExactly, OpenedName, OpensWith, IndexOf, BlockLength, BlocksClose, Sanitized;
    ClassifyAgrees(s);
    match Classify(s)
    case Incomplete =>
      assert "" + Sanitized(s) == Sanitized(s);
    case NotProtected =>
      OneShotCopies(s);
      OneShotFinishesStream(s[1..]);
      var p := Drive(ScrubState(s[1..], None));
      assert "<" + (p.out + Sanitized(Flush(p.next))) == "<" + p.out + Sanitized(Flush(p.next));
    case ProtectedSelfClosing(n) =>
      OneShotDropsTag(s, OpenedName(s).value, n);
      OneShotFinishesStream(s[n..]);
    case Protected(name, n) =>
      DriveWhileInside(s[n..], name);
      OneShotFinishesBlock(s, name, n);
  }

  lemma {:induction false} OneShotFinishesBlock(s: string, name: string, n: nat)
    requires BlocksClose(s) && OpenedName(s) == Some(name)
    requires n == OpenEnd(s, name) <= |s| && s[n - 2] != '/'
    ensures var p := DriveInside(s[n..], name); Sanitized(s) == p.out + Sanitized(Flush(p.next))
    decreases |s|, 0
  {
    hide Drive, ClosesExactly, OpenedName, OpensWith, BlockLength, FindTag, CloseTag, Overlap;
    BlocksAgree(s, name, n);
    var m := BlockLength(s, name);
    match FindTag(s[n..], CloseTag(name), 0)
    case None =>
      assert s[m..] == "";
    case Some(p) =>
      assert s[n..][p + |CloseTag(name)|..] == s[m..];
      OneShotFinishesStream(s[m..]);
  }

  /** On a text whose protected blocks close exactly, only what the held tail opens can make a difference. */
  lemma HeldTailDecides(chunks: seq<string>)
    requires BlocksClose(Concat(chunks))
    ensures Streamed(chunks) == Sanitized(Concat(chunks))
       <==> !ContainsOpener(Flush(PushAll(FRESH, chunks).next))
  {
    hide Drive, BlocksClose, ContainsOpener, Sanitized;
    var s := Concat(chunks);
    ChunkIndependence(chunks);
    assert "" + s == s;
    OneShotFinishesStream(s);
    var p := Drive(ScrubState(s, None));
    SanitizedIsIdentity(Flush(p.next));
    assert (p.out + Sanitized(Flush(p.next)))[|p.out|..] == Sanitized(Flush(p.next));
    assert (p.out + Flush(p.next))[|p.out|..] == Flush(p.next);
  }

  // ---------- Both conditions are needed ----------

  lemma NameMatchesItself(name: string, rest: string)
    ensures MatchAt("<" + name + rest, name, 1)
  {
    assert ("<" + name + rest)[1..1 + |name|] == name;
  }

  /** Names that start differently cannot both open here. */
  lemma NamesDiffer(s: string, name: string, other: string)
    requires name != "" && other != "" && Lower(name[0]) != Lower(other[0])
    requires |s| >= 2 && MatchAt(s, name, 1)
    ensures !MatchAt(s, other[..Min(|other|, |s| - 1)], 1) && !OpensWith(s, other)
  {
    assert s[1..1 + |name|][0] == s[1];
    var m := Min(|other|, |s| - 1);
    assert s[1..1 + m][0] == s[1];
    assert |s| > 1 + |other| ==> s[1..1 + |other|][0] == s[1];
  }

  lemma OpensNamed(s: string, name: string)
    requires name in PROTECTED_FENCES && OpensWith(s, name)
    ensures OpenedName(s) == Some(name)
  {
    hide EqIgnoreCase, EndsName;
    var seen := OpenedName(s);
    if seen != Some(name) {
      NamesDiffer(s, name, seen.value);
      assert false;
    }
  }

  lemma ClassifyFromHit(s: string, k: nat)
    requires k < |PROTECTED_FENCES| && OpensWith(s, PROTECTED_FENCES[k])
    ensures ClassifyFrom(s, k) == ClassifyOpened(s, PROTECTED_FENCES[k])
  {
    hide MatchAt, EndsName, ClassifyOpened;
  }

  lemma ClassifyFromMiss(s: string, other: string, k: nat)
    requires |s| >= 2 && s[0] == '<' && k < |PROTECTED_FENCES| && other == PROTECTED_FENCES[k]
    requires !MatchAt(s, other[..Min(|other|, |s| - 1)], 1) && !OpensWith(s, other)
    ensures ClassifyFrom(s, k) == ClassifyFrom(s, k + 1)
  {
    hide MatchAt, IndexOf, OpensWith;
  }

  lemma OpensFacts(s: string, name: string)
    requires name in PROTECTED_FENCES && OpensWith(s, name)
    ensures |s| > 1 + |name| && |s| >= 2 && s[0] == '<' && s[1] != '/' && MatchAt(s, name, 1)
  {
    if s[1] == '/' {
      NoSlashName(s, name);
    }
  }

  lemma ClassifyNamed(s: string, name: string)
    requires name in PROTECTED_FENCES && OpensWith(s, name)
    ensures Classify(s) == ClassifyOpened(s, name)
  {
    hide MatchAt, EndsName, ClassifyFrom, ClassifyOpened, OpensWith;
    OpensFacts(s, name);
    var k :| 0 <= k < |PROTECTED_FENCES| && PROTECTED_FENCES[k] == name;
    if k > 0 {
      NamesDiffer(s, name, MEMORY_CONTEXT);
      ClassifyFromMiss(s, MEMORY_CONTEXT, 0);
    }
    ClassifyFromHit(s, k);
  }

  /**
   * An open tag that never ends: the one-shot form drops it and all that follows, but `flush` re-emits it, so more
   * than a stray `<` can come out of a flush.
   */
  lemma FlushReemitsOpener(before: string, tag: string, name: string)
    requires '<' !in before && name in PROTECTED_FENCES && OpensWith(tag, name) && OpenEnd(tag, name) > |tag|
    ensures var s := before + tag; Scrub(s) == s && Sanitized(s) == before
  {
    hide OpensWith, OpenedName, Classify, Drive, DriveTag;
    OpensNamed(tag, name);
    ClassifyNamed(tag, name);
    OpensFacts(tag, name);
    OpenerIsHeld(tag);
    DriveAtTag(tag);
    DrivePlain(before, tag);
    SanitizedPlain(before, tag);
    assert tag[|tag|..] == "" && before + "" == before;
    assert "" + (before + tag) == before + tag;
  }

  lemma OpenerIsHeld(tag: string)
    requires tag != "" && tag[0] == '<' && Classify(tag).Incomplete?
    ensures DriveTag(tag) == Pushed("", ScrubState(tag, None))
  {
  }

  /** The `>` behind `</name` and `gap` ends no exact close tag. */
  predicate Loose(name: string, gap: string) {
    '>' !in gap && !MatchAt("</" + name + gap + ">", CloseTag(name), |gap|)
  }

  /**
   * A close tag with bytes before its `>`: the one-shot form accepts it and goes on with the text after it, the
   * scrubber drops that text up to an exact close tag, or all of it.
   */
  lemma LooseCloseDiffers(name: string, gap: string, after: string)
    requires name in PROTECTED_FENCES && Loose(name, gap)
    ensures var s := "<" + name + "></" + name + gap + ">" + after;
            && Sanitized(s) == Sanitized(after)
            && Scrub(s) == FromInside(after, name)
  {
    hide OpensWith, MatchAt, FindTag, Sanitized, Scrub, FromInside, Loose, CloseTag;
    var tag := "</" + name + gap + ">";
    var s, rest := "<" + name + "></" + name + gap + ">" + after, tag + after;
    LooseText(name, gap, after);
    NameMatchesItself(name, ">" + rest);
    OpensIntro(s, name);
    LooseCloseBytes(name, gap, after, rest);
    GapHasNoEnd(name, gap);
    LooseCloseOneShot(s, name, gap, after);
    ScrubFromInside(s, name, rest);
    InsideSkips(tag, after, name);
  }

  lemma LooseText(name: string, gap: string, after: string)
    requires name in PROTECTED_FENCES
    ensures var rest := "</" + name + gap + ">" + after;
            var s := "<" + name + "></" + name + gap + ">" + after;
            s == "<" + name + (">" + rest) && s == "<" + name + ">" + rest && s[1 + |name|] == '>'
            && |rest| - |after| == |"</" + name + gap + ">"|
  {
  }

  lemma GapHasNoEnd(name: string, gap: string)
    requires Loose(name, gap)
    ensures '>' !in gap
  {
  }

  lemma ScrubFromInside(s: string, name: string, rest: string)
    requires name in PROTECTED_FENCES && OpensWith(s, name) && s == "<" + name + ">" + rest
    ensures Scrub(s) == FromInside(rest, name)
  {
    hide OpensWith, MatchAt, FindTag, Drive, DriveInside, FromInside;
    LooseCloseStream(s, name, rest);
    InsideEmits(rest, name);
    assert "" + s == s;
  }

  /** What the scrubber makes of `held` when it is inside a block of `name`. */
  function FromInside(held: string, name: string): string {
    match FindTag(held, CloseTag(name), 0)
    case None => ""
    case Some(p) => Scrub(held[p + |CloseTag(name)|..])
  }

  lemma InsideEmits(held: string, name: string)
    ensures var q := DriveInside(held, name); q.out + Flush(q.next) == FromInside(held, name)
  {
    hide FindTag, Drive, CloseTag, Overlap;
    match FindTag(held, CloseTag(name), 0)
    case None =>
    case Some(p) => assert "" + held[p + |CloseTag(name)|..] == held[p + |CloseTag(name)|..];
  }

  /** Bytes before the first close tag play no part. */
  lemma InsideSkips(head: string, after: string, name: string)
    requires match FindTag(after, CloseTag(name), 0)
             case None => FindTag(head + after, CloseTag(name), 0).None?
             case Some(p) => FindTag(head + after, CloseTag(name), 0) == Some(|head| + p)
    ensures FromInside(head + after, name) == FromInside(after, name)
  {
    hide FindTag, MatchAt, Scrub, CloseTag;
    var found, n := FindTag(after, CloseTag(name), 0), |CloseTag(name)|;
    if found.Some? {
      var p := found.value;
      assert (head + after)[|head| + p + n..] == after[p + n..];
    }
  }

  lemma LooseCloseStream(s: string, name: string, rest: string)
    requires name in PROTECTED_FENCES && OpensWith(s, name)
    requires s == "<" + name + ">" + rest
    ensures Drive(ScrubState(s, None)) == DriveInside(rest, name)
  {
    hide OpensWith, MatchAt, IndexOf, FindTag, Drive, DriveInside, Classify;
    ClassifyNamed(s, name);
    ByteAt(s, '>', 1 + |name|, 1 + |name|);
    assert s[|name|] == name[|name| - 1] != '/';
    assert s[2 + |name|..] == rest;
    DriveAtTag(s);
    DriveWhileInside(rest, name);
  }

  lemma ByteAt(s: string, c: char, from: nat, i: nat)
    requires from <= i < |s| && s[i] == c && forall j :: from <= j < i ==> s[j] != c
    ensures IndexOf(s, c, from) == i
  {
  }

  lemma LooseCloseOneShot(s: string, name: string, gap: string, after: string)
    requires name in PROTECTED_FENCES && OpensWith(s, name)
    requires '>' !in gap
    requires s == "<" + name + "></" + name + gap + ">" + after
    ensures Sanitized(s) == Sanitized(after)
  {
    hide OpensWith, OpenedName, MatchAt, IndexOf, FindTag, Sanitized, BlockLength;
    OpensNamed(s, name);
    LooseCloseLength(s, name, gap, after);
    assert s[|s| - |after|..] == after;
    SanitizedOpened(s, name);
  }

  lemma SanitizedOpened(s: string, name: string)
    requires OpenedName(s) == Some(name)
    ensures Sanitized(s) == Sanitized(s[BlockLength(s, name)..])
  {
    hide OpenedName, BlockLength;
  }

  lemma LooseCloseLength(s: string, name: string, gap: string, after: string)
    requires name in PROTECTED_FENCES && OpensWith(s, name)
    requires '>' !in gap
    requires s == "<" + name + "></" + name + gap + ">" + after
    ensures BlockLength(s, name) == |s| - |after|
  {
    hide OpensWith, BlockLength;
    var open, tail := "<" + name + ">", gap + ">" + after;
    assert s == open + ("</" + name + tail);
    LooseCloseAt(s, name, gap, after, tail);
    BlockEnds(s, name, 4 + 2 * |name| + |gap|);
  }

  lemma LooseCloseAt(s: string, name: string, gap: string, after: string, tail: string)
    requires name in PROTECTED_FENCES && '>' !in gap && tail == gap + ">" + after
    requires s == "<" + name + ">" + ("</" + name + tail)
    ensures var marked := 4 + 2 * |name|;
            && s[|name|] != '/' && s[1 + |name|] == '>' && MatchAt(s, "</" + name, 2 + |name|)
            && marked + |gap| < |s| && s[marked + |gap|] == '>' && |s| == marked + |gap| + 1 + |after|
            && forall j :: marked <= j < marked + |gap| ==> s[j] != '>'
  {
    hide MatchAt;
    var open, marker := "<" + name + ">", "</" + name;
    assert open[|name|] == name[|name| - 1] != '/';
    assert s[|open|..] == marker + tail;
    MarkerAt(s, name, |open|, marker + tail);
    assert s[|open| + |marker|..] == tail;
    assert forall j :: 0 <= j < |tail| ==> s[|open| + |marker| + j] == tail[j];
    assert tail[..|gap|] == gap && tail[|gap|] == '>';
    assert forall j :: 0 <= j < |gap| ==> tail[j] == gap[j];
  }

  /** A block that opens with `<name>`, directly followed by a close tag whose `>` is at `end`. */
  lemma BlockEnds(s: string, name: string, end: nat)
    requires OpensWith(s, name) && |s| > 1 + |name| && s[|name|] != '/' && s[1 + |name|] == '>'
    requires MatchAt(s, "</" + name, 2 + |name|)
    requires 4 + 2 * |name| <= end < |s| && s[end] == '>' && forall j :: 4 + 2 * |name| <= j < end ==> s[j] != '>'
    ensures BlockLength(s, name) == end + 1
  {
    hide OpensWith, MatchAt, IndexOf, FindTag;
    ByteAt(s, '>', 1 + |name|, 1 + |name|);
    FoundHere(s, "</" + name, 2 + |name|);
    ByteAt(s, '>', 4 + 2 * |name|, end);
  }

  lemma FoundHere(s: string, tag: string, n: nat)
    requires MatchAt(s, tag, n)
    ensures FindTag(s, tag, n) == Some(n)
  {
  }

  lemma OpensIntro(s: string, name: string)
    requires |s| > 1 + |name| && s[0] == '<' && MatchAt(s, name, 1) && EndsName(s[1 + |name|])
    ensures OpensWith(s, name)
  {
  }

  lemma MarkerAt(s: string, name: string, n: nat, rest: string)
    requires n <= |s| && s[n..] == rest && "</" + name <= rest
    ensures MatchAt(s, "</" + name, n)
  {
    assert s[n..n + 2 + |name|] == rest[..2 + |name|];
  }

  lemma LooseCloseBytes(name: string, gap: string, after: string, rest: string)
    requires name in PROTECTED_FENCES && Loose(name, gap)
    requires rest == "</" + name + gap + ">" + after
    ensures match FindTag(after, CloseTag(name), 0)
            case None => FindTag(rest, CloseTag(name), 0).None?
            case Some(p) => FindTag(rest, CloseTag(name), 0) == Some(|rest| - |after| + p)
    ensures rest[|rest| - |after|..] == after
  {
    hide FindTag, MatchAt, CloseTag;
    var close, n := CloseTag(name), |rest| - |after|;
    forall i: nat | i < n ensures !MatchAt(rest, close, i) {
      NoCloseInLooseTag(name, gap, after, rest, i);
    }
    assert rest[n..] == after;
    forall i: nat ensures MatchAt(after, close, i) == MatchAt(rest, close, n + i) {
      MatchDrop(rest, close, n, i);
    }
    FirstMatchShift(rest, after, close, n);
  }

  lemma NoCloseInLooseTag(name: string, gap: string, after: string, rest: string, i: nat)
    requires name in PROTECTED_FENCES && Loose(name, gap)
    requires rest == "</" + name + gap + ">" + after && i < |rest| - |after|
    ensures !MatchAt(rest, CloseTag(name), i)
  {
    var n, close := |rest| - |after|, CloseTag(name);
    var tag, end := rest[..n], i + 2 + |name|;
    assert tag == "</" + name + gap + ">";
    assert '>' !in "</" + name + gap;
    if end >= |rest| {
      MatchFits(rest, close, i);
    } else if end == n - 1 {
      MatchAppend(tag, after, close, |gap|);
      assert tag + after == rest;
    } else if end < n - 1 {
      ByteMismatch(rest, close, i, 2 + |name|);
    } else {
      assert rest[n - 1] == '>';
      assert '>' !in close[..n - 1 - i];
      ByteMismatch(rest, close, i, n - 1 - i);
    }
  }

  /** So the two forms differ on every text without a further `<` behind such a tag. */
  lemma LooseCloseLoses(name: string, gap: string, after: string)
    requires name in PROTECTED_FENCES && Loose(name, gap) && '<' !in after
    ensures var s := "<" + name + "></" + name + gap + ">" + after;
            Scrub(s) == "" && Sanitized(s) == after && (after != "" ==> Scrub(s) != Sanitized(s))
  {
    hide Scrub, Sanitized, MatchAt, Loose;
    LooseCloseDiffers(name, gap, after);
    SanitizedWhole(after);
    var found := FindTag(after, CloseTag(name), 0);
    if found.Some? {
      CloseBegins(after, CloseTag(name), found.value);
      assert false;
    }
  }

  lemma CloseBegins(s: string, close: string, i: int)
    requires MatchAt(s, close, i) && close != "" && close[0] == '<'
    ensures s[i] == '<'
  {
    assert s[i..i + |close|][0] == s[i];
  }

  lemma ByteMismatch(s: string, pattern: string, i: nat, j: nat)
    requires i + |pattern| <= |s| && j < |pattern| && Lower(s[i + j]) != Lower(pattern[j])
    ensures !MatchAt(s, pattern, i)
  {
    assert s[i..i + |pattern|][j] == s[i + j];
  }
}
