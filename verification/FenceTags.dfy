/** The two strippers on the bytes: which tags they drop, and what they keep. */
module FenceTags {
  import opened Prelude
  import opened Fence
  import opened FenceOneShot
  import opened FenceTail

  predicate ProtectedName(name: string) {
    name == "memory-context" || name == "attachments"
  }

  /** `word` is the lower-case `name` in any mix of cases. */
  predicate Spells(word: string, name: string) {
    && |word| == |name|
    && forall i :: 0 <= i < |name| ==>
         word[i] == name[i] || ('a' <= name[i] <= 'z' && word[i] as int == name[i] as int - 32)
  }

  /** What may stand between the name and the end of an open tag. */
  predicate Attributes(attrs: string) {
    '>' !in attrs && (attrs != "" ==> attrs[0] == ' ' || attrs[0] == '\t' || attrs[0] == '\n' || attrs[0] == '/')
  }

  predicate EndsInSlash(attrs: string) {
    attrs != "" && attrs[|attrs| - 1] == '/'
  }

  /** No close tag of `name` begins in `body`. */
  predicate Unclosed(body: string, name: string) {
    forall i :: 0 <= i && i + 2 + |name| <= |body| && body[i] == '<' && body[i + 1] == '/' ==>
      !Spells(body[i + 2..i + 2 + |name|], name)
  }

  /** A protected name in any mix of cases, and right behind it a byte that ends it. */
  predicate OpensFence(s: string, name: string) {
    && |s| > 1 + |name| && s[0] == '<' && Spells(s[1..1 + |name|], name)
    && (s[1 + |name|] == '>' || s[1 + |name|] == '/'
        || s[1 + |name|] == ' ' || s[1 + |name|] == '\t' || s[1 + |name|] == '\n')
  }

  // ---------- From bytes to the model ----------

  lemma NamesAre(name: string)
    ensures ProtectedName(name) <==> name in PROTECTED_FENCES
    ensures ProtectedName(name) ==>
              name != "" && forall i :: 0 <= i < |name| ==> 'a' <= name[i] <= 'z' || name[i] == '-'
  {
  }

  lemma SpellsIs(word: string, name: string)
    requires ProtectedName(name)
    ensures Spells(word, name) <==> EqIgnoreCase(word, name)
  {
    NamesAre(name);
    forall i | 0 <= i < |name| && i < |word|
      ensures Lower(word[i]) == Lower(name[i]) <==>
                word[i] == name[i] || ('a' <= name[i] <= 'z' && word[i] as int == name[i] as int - 32)
    {
      LowerIs(word[i], name[i]);
    }
  }

  lemma LowerIs(c: char, d: char)
    requires 'a' <= d <= 'z' || d == '-'
    ensures Lower(c) == Lower(d) <==> c == d || ('a' <= d <= 'z' && c as int == d as int - 32)
  {
  }

  lemma OpensFenceIs(s: string, name: string)
    requires ProtectedName(name)
    ensures OpensFence(s, name) <==> OpensWith(s, name)
  {
    if |s| > 1 + |name| {
      SpellsIs(s[1..1 + |name|], name);
    }
  }

  lemma TagText(s: string, word: string, attrs: string, rest: string)
    requires s == "<" + word + attrs + rest && word != ""
    ensures |s| == 1 + |word| + |attrs| + |rest| && s[0] == '<' && s[1..1 + |word|] == word
    ensures s[1 + |word| + |attrs|..] == rest && (rest != "" ==> s[1 + |word| + |attrs|] == rest[0])
    ensures attrs != "" ==> s[1 + |word|] == attrs[0]
    ensures s[|word| + |attrs|] == (if attrs == "" then word[|word| - 1] else attrs[|attrs| - 1])
    ensures '>' !in attrs ==> forall j :: 1 + |word| <= j < 1 + |word| + |attrs| ==> s[j] != '>'
  {
    assert forall j :: 0 <= j < |attrs| ==> s[1 + |word| + j] == attrs[j];
  }

  /** What the model makes of an open tag, spelled out; `end` is where its `>` is, if it has one. */
  lemma TagParts(s: string, word: string, name: string, attrs: string, rest: string, end: nat)
    requires s == "<" + word + attrs + rest && end == 1 + |name| + |attrs|
    requires ProtectedName(name) && Spells(word, name) && Attributes(attrs) && (rest == "" ==> attrs != "")
    requires rest != "" ==> rest[0] == '>'
    ensures OpensWith(s, name) && OpenedName(s) == Some(name) && Classify(s) == ClassifyOpened(s, name)
    ensures end <= |s| && IndexOf(s, '>', 1 + |name|) == end && s[end..] == rest
    ensures s[end - 1] == '/' <==> EndsInSlash(attrs)
  {
    hide OpensWith, OpenedName, Classify, Spells, ClassifyOpened, Attributes, ProtectedName, IndexOf, EndsInSlash;
    TagStarts(s, word, name, attrs, rest);
    TagIsKnown(s, name);
    TagEnds(s, word, name, attrs, rest, end);
  }

  lemma TagStarts(s: string, word: string, name: string, attrs: string, rest: string)
    requires s == "<" + word + attrs + rest
    requires ProtectedName(name) && Spells(word, name) && Attributes(attrs) && (rest == "" ==> attrs != "")
    requires rest != "" ==> rest[0] == '>'
    ensures OpensFence(s, name)
  {
    hide Spells, Attributes, OpensFence, ProtectedName;
    SameLength(word, name);
    LastLetter(word, name);
    AttributesStart(attrs);
    TagText(s, word, attrs, rest);
    TagOpens(s, word, name);
  }

  lemma TagEnds(s: string, word: string, name: string, attrs: string, rest: string, end: nat)
    requires s == "<" + word + attrs + rest && end == 1 + |name| + |attrs|
    requires ProtectedName(name) && Spells(word, name) && Attributes(attrs) && (rest != "" ==> rest[0] == '>')
    ensures end <= |s| && IndexOf(s, '>', 1 + |name|) == end && s[end..] == rest
    ensures s[end - 1] == '/' <==> EndsInSlash(attrs)
  {
    hide Spells, Attributes, ProtectedName, IndexOf;
    SameLength(word, name);
    LastLetter(word, name);
    AttributesStart(attrs);
    TagText(s, word, attrs, rest);
    EndsAt(s, '>', 1 + |name|, end);
  }

  lemma TagIsKnown(s: string, name: string)
    requires ProtectedName(name) && OpensFence(s, name)
    ensures OpensWith(s, name) && OpenedName(s) == Some(name) && Classify(s) == ClassifyOpened(s, name)
  {
    hide OpensWith, OpenedName, Classify, ClassifyOpened, OpensFence, ProtectedName;
    OpensFenceIs(s, name);
    NamesAre(name);
    OpensNamed(s, name);
    ClassifyNamed(s, name);
  }

  lemma TagOpens(s: string, word: string, name: string)
    requires Spells(word, name) && |s| > 1 + |name| && s[0] == '<' && s[1..1 + |name|] == word
    requires s[1 + |name|] == '>' || s[1 + |name|] == '/'
             || s[1 + |name|] == ' ' || s[1 + |name|] == '\t' || s[1 + |name|] == '\n'
    ensures OpensFence(s, name)
  {
  }

  lemma SameLength(word: string, name: string)
    requires Spells(word, name)
    ensures |word| == |name|
  {
  }

  lemma AttributesStart(attrs: string)
    requires Attributes(attrs)
    ensures '>' !in attrs
    ensures attrs != "" ==> attrs[0] == ' ' || attrs[0] == '\t' || attrs[0] == '\n' || attrs[0] == '/'
  {
  }

  lemma EndsAt(s: string, c: char, from: nat, i: nat)
    requires from <= i <= |s| && (i < |s| ==> s[i] == c) && forall j :: from <= j < i ==> s[j] != c
    ensures IndexOf(s, c, from) == i
  {
  }

  lemma LastLetter(word: string, name: string)
    requires ProtectedName(name) && Spells(word, name)
    ensures word != "" && word[|word| - 1] != '/'
  {
  }

  // ---------- Tags that are dropped ----------

  /** A self-closing tag goes, and nothing else. */
  lemma SelfClosingFence(word: string, name: string, attrs: string, after: string)
    requires ProtectedName(name) && Spells(word, name) && Attributes(attrs) && EndsInSlash(attrs)
    ensures var s := "<" + word + attrs + ">" + after; Sanitized(s) == Sanitized(after) && Scrub(s) == Scrub(after)
  {
    hide OpensWith, OpenedName, Classify, Spells, Sanitized, IndexOf, Attributes, BlockLength, Scrub;
    var s, rest, end := "<" + word + attrs + ">" + after, ">" + after, 1 + |name| + |attrs|;
    Glue("<" + word + attrs, ">", after);
    TagParts(s, word, name, attrs, rest, end);
    AfterEnd(s, end, rest, after);
    SelfClosingLength(s, name, end + 1);
    SanitizedOpened(s, name);
    ScrubSelfClosing(s, name, end + 1);
  }

  lemma AfterEnd(s: string, end: nat, rest: string, after: string)
    requires end <= |s| && s[end..] == rest == ">" + after
    ensures end < |s| && s[end] == '>' && s[end + 1..] == after
  {
    assert s[end..][1..] == s[end + 1..];
    assert s[end] == rest[0];
  }

  lemma ScrubDrives(s: string)
    ensures var p := Drive(ScrubState(s, None)); Scrub(s) == p.out + Flush(p.next)
  {
    hide Drive, Flush;
    assert "" + s == s;
  }

  lemma ClassIs(s: string, name: string, n: nat)
    requires OpensWith(s, name) && 1 < n <= |s| && n == IndexOf(s, '>', 1 + |name|) + 1
    ensures ClassifyOpened(s, name) == if s[n - 2] == '/' then ProtectedSelfClosing(n) else Protected(name, n)
  {
    hide OpensWith, IndexOf;
  }

  lemma DriveClass(s: string, n: nat)
    requires s != "" && s[0] == '<' && n <= |s|
    ensures Classify(s) == ProtectedSelfClosing(n) ==> DriveTag(s) == Drive(ScrubState(s[n..], None))
    ensures forall name :: Classify(s) == Protected(name, n) ==> DriveTag(s) == Drive(ScrubState(s[n..], Some(name)))
  {
    hide Drive, Classify;
  }

  lemma ScrubSelfClosing(s: string, name: string, n: nat)
    requires OpensWith(s, name) && Classify(s) == ClassifyOpened(s, name)
    requires 1 < n <= |s| && n == IndexOf(s, '>', 1 + |name|) + 1 && s[n - 2] == '/'
    ensures Scrub(s) == Scrub(s[n..])
  {
    StartsTag(s, name);
    hide OpensWith, Drive, DriveTag, Classify, ClassifyOpened, IndexOf, Scrub, Flush;
    ClassIs(s, name, n);
    DriveClass(s, n);
    DriveAtTag(s);
    ScrubDrives(s);
    ScrubDrives(s[n..]);
  }

  lemma StartsTag(s: string, name: string)
    requires OpensWith(s, name)
    ensures s != "" && s[0] == '<'
  {
  }

  lemma ScrubOpen(s: string, name: string, n: nat)
    requires OpensWith(s, name) && Classify(s) == ClassifyOpened(s, name)
    requires 1 < n <= |s| && n == IndexOf(s, '>', 1 + |name|) + 1 && s[n - 2] != '/'
    ensures Scrub(s) == FromInside(s[n..], name)
  {
    StartsTag(s, name);
    hide OpensWith, Drive, DriveTag, DriveInside, Classify, ClassifyOpened, IndexOf, Scrub, Flush, FromInside;
    ClassIs(s, name, n);
    DriveClass(s, n);
    DriveAtTag(s);
    ScrubDrives(s);
    DriveWhileInside(s[n..], name);
    InsideEmits(s[n..], name);
  }

  /** What both forms make of an open tag with its end: it goes, and what follows is the inside of a block. */
  lemma OpenFence(s: string, word: string, name: string, attrs: string, rest: string, n: nat)
    requires s == "<" + word + attrs + ">" + rest && n == 2 + |name| + |attrs|
    requires ProtectedName(name) && Spells(word, name) && Attributes(attrs) && !EndsInSlash(attrs)
    ensures OpensWith(s, name) && OpenedName(s) == Some(name) && n <= |s| && s[n..] == rest
    ensures IndexOf(s, '>', 1 + |name|) + 1 == n && s[n - 2] != '/'
    ensures Scrub(s) == FromInside(rest, name)
  {
    hide OpensWith, OpenedName, Classify, Spells, IndexOf, Attributes, FromInside, Scrub;
    Glue("<" + word + attrs, ">", rest);
    TagParts(s, word, name, attrs, ">" + rest, n - 1);
    AfterEnd(s, n - 1, ">" + rest, rest);
    ScrubOpen(s, name, n);
  }

  /** A close tag does not begin where there is no `</` followed by the name. */
  lemma MarkerIs(s: string, name: string, i: nat)
    requires ProtectedName(name) && MatchAt(s, "</" + name, i)
    ensures i + 2 + |name| <= |s| && s[i] == '<' && s[i + 1] == '/' && Spells(s[i + 2..i + 2 + |name|], name)
    ensures forall j :: i < j < i + 2 + |name| ==> s[j] != '<'
  {
    var w, tag := s[i..i + 2 + |name|], "</" + name;
    assert forall j :: 0 <= j < |tag| ==> Lower(s[i + j]) == Lower(tag[j]) by {
      assert forall j :: 0 <= j < |tag| ==> w[j] == s[i + j];
    }
    assert Lower(s[i]) == Lower(tag[0]) == '<' && Lower(s[i + 1]) == Lower(tag[1]) == '/';
    NamesAre(name);
    forall j | 0 <= j < |name|
      ensures s[i + 2 + j] == name[j] || ('a' <= name[j] <= 'z' && s[i + 2 + j] as int == name[j] as int - 32)
    {
      assert tag[2 + j] == name[j];
      LowerIs(s[i + 2 + j], name[j]);
    }
  }

  lemma MarkerInside(s: string, name: string, n: nat, body: string, i: nat)
    requires ProtectedName(name) && n + |body| <= |s| && s[n..n + |body|] == body
    requires n + |body| < |s| ==> s[n + |body|] == '<'
    requires n <= i < n + |body| && MatchAt(s, "</" + name, i)
    ensures !Unclosed(body, name)
  {
    hide MatchAt, Spells, ProtectedName;
    MarkerIs(s, name, i);
    var k, m := i - n, 2 + |name|;
    assert i + m <= n + |body|;
    assert forall j :: 0 <= j < |body| ==> s[n + j] == body[j];
    assert s[i + 2..i + m] == body[k + 2..k + m];
    assert body[k] == '<' && body[k + 1] == '/';
  }

  lemma NoMarkerInside(s: string, name: string, n: nat, body: string, i: nat)
    requires ProtectedName(name) && Unclosed(body, name) && n + |body| <= |s| && s[n..n + |body|] == body
    requires n + |body| < |s| ==> s[n + |body|] == '<'
    requires n <= i < n + |body|
    ensures !MatchAt(s, "</" + name, i)
  {
    hide MatchAt, Unclosed, ProtectedName;
    if MatchAt(s, "</" + name, i) {
      MarkerInside(s, name, n, body, i);
      assert false;
    }
  }

  lemma MarkerHere(s: string, close: string, name: string, k: nat)
    requires ProtectedName(name) && Spells(close, name) && k + 3 + |name| <= |s|
    requires s[k..k + 3 + |name|] == "</" + close + ">"
    ensures MatchAt(s, "</" + name, k) && MatchAt(s, "</" + name + ">", k) && s[k + 2 + |name|] == '>'
  {
    hide Spells, ProtectedName;
    SpellsIs(close, name);
    SameLength(close, name);
    var tag := "</" + close + ">";
    assert tag[2 + |name|] == '>' && s[k + 2 + |name|] == s[k..k + 3 + |name|][2 + |name|];
    assert s[k..k + 2 + |name|] == tag[..2 + |name|] == "</" + close;
    SameCloseTag(close, name);
  }

  lemma SameCloseTag(close: string, name: string)
    requires EqIgnoreCase(close, name)
    ensures EqIgnoreCase("</" + close, "</" + name) && EqIgnoreCase("</" + close + ">", "</" + name + ">")
  {
  }

  /** A fence with any attributes and any content that does not close it goes, tags and all. */
  lemma WholeFence(word: string, name: string, attrs: string, body: string, close: string, after: string)
    requires ProtectedName(name) && Spells(word, name) && Attributes(attrs) && !EndsInSlash(attrs)
    requires Unclosed(body, name) && Spells(close, name)
    ensures var s := "<" + word + attrs + ">" + body + "</" + close + ">" + after;
            Sanitized(s) == Sanitized(after) && Scrub(s) == Scrub(after)
  {
    hide OpensWith, OpenedName, Spells, IndexOf, Attributes, Scrub, Sanitized, MatchAt, Unclosed, FindTag, BlockLength;
    SameLength(close, name);
    var tag, rest := "</" + close + ">", body + ("</" + close + ">" + after);
    var s, n := "<" + word + attrs + ">" + body + "</" + close + ">" + after, 2 + |name| + |attrs|;
    assert s == "<" + word + attrs + ">" + rest;
    OpenFence(s, word, name, attrs, rest, n);
    var k := n + |body|;
    RestOfFence(s, body, tag, after, n);
    MarkerHere(s, close, name, k);
    forall i | n <= i < k ensures !MatchAt(s, "</" + name, i) {
      NoMarkerInside(s, name, n, body, i);
    }
    BlockOf(s, name, n, k, k + 2 + |name|);
    assert s[k + 3 + |name|..] == after;
    SanitizedOpened(s, name);
    CloseInside(s, rest, name, n, |body|);
  }

  lemma RestOfFence(s: string, body: string, tag: string, after: string, n: nat)
    requires n <= |s| && s[n..] == body + (tag + after) && tag != "" && tag[0] == '<'
    ensures |s| == n + |body| + |tag| + |after|
    ensures s[n..n + |body|] == body && s[n + |body|] == '<'
    ensures s[n + |body|..n + |body| + |tag|] == tag && s[n + |body| + |tag|..] == after
  {
    var rest := body + (tag + after);
    assert s[n..n + |body|] == rest[..|body|];
    assert s[n + |body|..n + |body| + |tag|] == rest[|body|..|body| + |tag|];
    assert s[n + |body| + |tag|..] == rest[|body| + |tag|..];
    assert s[n + |body|] == rest[|body|];
  }

  lemma BlockOf(s: string, name: string, n: nat, k: nat, end: nat)
    requires OpensWith(s, name) && 1 < n <= k < |s| && IndexOf(s, '>', 1 + |name|) + 1 == n && s[n - 2] != '/'
    requires MatchAt(s, "</" + name, k) && k + 2 + |name| <= end < |s| && s[end] == '>'
    requires forall i :: n <= i < k ==> !MatchAt(s, "</" + name, i)
    requires forall i :: k + 2 + |name| <= i < end ==> s[i] != '>'
    ensures BlockLength(s, name) == end + 1
  {
    hide OpensWith, MatchAt, IndexOf, FindTag;
    var found := FindTag(s, "</" + name, n);
    assert found == Some(k);
    EndsAt(s, '>', k + 2 + |name|, end);
  }

  lemma CloseInside(s: string, rest: string, name: string, n: nat, m: nat)
    requires n <= |s| && s[n..] == rest && m < |rest| && MatchAt(s, "</" + name + ">", n + m)
    requires forall i :: n <= i < n + m ==> !MatchAt(s, "</" + name, i)
    ensures n + m + 3 + |name| <= |s| && FromInside(rest, name) == Scrub(s[n + m + 3 + |name|..])
  {
    hide MatchAt, FindTag, Scrub;
    MatchFits(s, "</" + name + ">", n + m);
    MatchDrop(s, CloseTag(name), n, m);
    forall i: nat | i < m ensures !MatchAt(rest, CloseTag(name), i) {
      if MatchAt(rest, CloseTag(name), i) {
        MatchDrop(s, CloseTag(name), n, i);
        CloseHasMarker(s, name, n + i);
      }
    }
    FirstMatch(rest, CloseTag(name), m);
    assert rest[m + |CloseTag(name)|..] == s[n + m + 3 + |name|..];
  }

  /** For the one-shot form bytes between the name in the close tag and its `>` do not matter. */
  lemma LooseFence(word: string, name: string, attrs: string, body: string, close: string, gap: string, after: string)
    requires ProtectedName(name) && Spells(word, name) && Attributes(attrs) && !EndsInSlash(attrs)
    requires Unclosed(body, name) && Spells(close, name) && '>' !in gap
    ensures Sanitized("<" + word + attrs + ">" + body + "</" + close + gap + ">" + after) == Sanitized(after)
  {
    hide OpensWith, OpenedName, Spells, IndexOf, Attributes, Scrub, Sanitized, MatchAt, Unclosed, FindTag, BlockLength;
    SameLength(close, name);
    var tag, tail, n := "</" + close, gap + ">" + after, 2 + |name| + |attrs|;
    var s, rest := "<" + word + attrs + ">" + body + "</" + close + gap + ">" + after, body + (tag + tail);
    assert s == "<" + word + attrs + ">" + rest;
    OpenFence(s, word, name, attrs, rest, n);
    var k := n + |body|;
    RestOfFence(s, body, tag, tail, n);
    MarkerAlone(s, close, name, k);
    forall i | n <= i < k ensures !MatchAt(s, "</" + name, i) {
      NoMarkerInside(s, name, n, body, i);
    }
    GapThenEnd(s, k + 2 + |name|, gap, after, tail);
    BlockOf(s, name, n, k, k + 2 + |name| + |gap|);
    SanitizedOpened(s, name);
  }

  lemma GapThenEnd(s: string, from: nat, gap: string, after: string, tail: string)
    requires from <= |s| && s[from..] == tail && tail == gap + ">" + after && '>' !in gap
    ensures var end := from + |gap|;
            && end < |s| && s[end] == '>' && s[end + 1..] == after
            && forall i :: from <= i < end ==> s[i] != '>'
  {
    assert forall i :: 0 <= i < |tail| ==> s[from + i] == tail[i];
    assert tail[..|gap|] == gap && tail[|gap|] == '>' && tail[|gap| + 1..] == after;
    assert forall i :: 0 <= i < |gap| ==> tail[i] == gap[i];
    assert s[from + |gap| + 1..] == tail[|gap| + 1..];
  }

  lemma MarkerAlone(s: string, close: string, name: string, k: nat)
    requires ProtectedName(name) && Spells(close, name) && k + 2 + |name| <= |s|
    requires s[k..k + 2 + |name|] == "</" + close
    ensures MatchAt(s, "</" + name, k)
  {
    hide Spells, ProtectedName;
    SpellsIs(close, name);
    SameCloseTag(close, name);
  }

  /** And if its `>` is missing, everything is gone. */
  lemma EndlessClose(word: string, name: string, attrs: string, body: string, close: string, gap: string)
    requires ProtectedName(name) && Spells(word, name) && Attributes(attrs) && !EndsInSlash(attrs)
    requires Unclosed(body, name) && Spells(close, name) && '>' !in gap
    ensures Sanitized("<" + word + attrs + ">" + body + "</" + close + gap) == ""
  {
    hide OpensWith, OpenedName, Spells, IndexOf, Attributes, Scrub, Sanitized, MatchAt, Unclosed, FindTag, BlockLength;
    SameLength(close, name);
    var tag, n := "</" + close, 2 + |name| + |attrs|;
    var s, rest := "<" + word + attrs + ">" + body + "</" + close + gap, body + (tag + gap);
    assert s == "<" + word + attrs + ">" + rest;
    OpenFence(s, word, name, attrs, rest, n);
    var k := n + |body|;
    RestOfFence(s, body, tag, gap, n);
    MarkerAlone(s, close, name, k);
    forall i | n <= i < k ensures !MatchAt(s, "</" + name, i) {
      NoMarkerInside(s, name, n, body, i);
    }
    NoEndIn(s, k + 2 + |name|, gap);
    EndlessBlock(s, name, n, k);
    SanitizedOpened(s, name);
    SanitizedWhole("");
    assert s[|s|..] == "";
  }

  lemma NoEndIn(s: string, from: nat, gap: string)
    requires from <= |s| && s[from..] == gap && '>' !in gap
    ensures forall i :: from <= i < |s| ==> s[i] != '>'
  {
    assert forall i :: from <= i < |s| ==> s[i] == gap[i - from];
  }

  lemma EndlessBlock(s: string, name: string, n: nat, k: nat)
    requires OpensWith(s, name) && 1 < n <= k < |s| && IndexOf(s, '>', 1 + |name|) + 1 == n && s[n - 2] != '/'
    requires MatchAt(s, "</" + name, k) && k + 2 + |name| <= |s|
    requires forall i :: n <= i < k ==> !MatchAt(s, "</" + name, i)
    requires forall i :: k + 2 + |name| <= i < |s| ==> s[i] != '>'
    ensures BlockLength(s, name) == |s|
  {
    hide OpensWith, MatchAt, IndexOf, FindTag;
    var found := FindTag(s, "</" + name, n);
    assert found == Some(k);
    EndsAt(s, '>', k + 2 + |name|, |s|);
  }

  /** A fence that is never closed takes everything with it. */
  lemma UnclosedFence(word: string, name: string, attrs: string, body: string)
    requires ProtectedName(name) && Spells(word, name) && Attributes(attrs) && !EndsInSlash(attrs)
    requires Unclosed(body, name)
    ensures var s := "<" + word + attrs + ">" + body; Sanitized(s) == "" && Scrub(s) == ""
  {
    hide OpensWith, OpenedName, Spells, IndexOf, Attributes, Scrub, Sanitized, MatchAt, Unclosed, FindTag, BlockLength;
    var s, n := "<" + word + attrs + ">" + body, 2 + |name| + |attrs|;
    OpenFence(s, word, name, attrs, body, n);
    assert s[n..n + |body|] == body;
    forall i: nat | n <= i ensures !MatchAt(s, "</" + name, i) {
      if i < n + |body| {
        NoMarkerInside(s, name, n, body, i);
      } else {
        MatchFits(s, "</" + name, i);
      }
    }
    NoBlockEnd(s, name, n);
    assert s[|s|..] == "";
    SanitizedOpened(s, name);
    SanitizedWhole("");
    NothingInside(s, body, name, n);
  }

  lemma NoBlockEnd(s: string, name: string, n: nat)
    requires OpensWith(s, name) && 1 < n <= |s| && IndexOf(s, '>', 1 + |name|) + 1 == n && s[n - 2] != '/'
    requires forall i: nat :: n <= i ==> !MatchAt(s, "</" + name, i)
    ensures BlockLength(s, name) == |s|
  {
    hide OpensWith, MatchAt, IndexOf, FindTag;
  }

  lemma NothingInside(s: string, rest: string, name: string, n: nat)
    requires n <= |s| && s[n..] == rest && forall i: nat :: n <= i ==> !MatchAt(s, "</" + name, i)
    ensures FromInside(rest, name) == ""
  {
    hide MatchAt, FindTag, Scrub;
    forall i: nat ensures !MatchAt(rest, CloseTag(name), i) {
      if MatchAt(rest, CloseTag(name), i) {
        MatchDrop(s, CloseTag(name), n, i);
        CloseHasMarker(s, name, n + i);
      }
    }
  }

  /** An open tag that never ends: the one-shot form drops it, the scrubber holds it and gives it back in the end. */
  lemma EndlessTag(word: string, name: string, attrs: string)
    requires ProtectedName(name) && Spells(word, name) && Attributes(attrs) && attrs != ""
    ensures var s := "<" + word + attrs; Sanitized(s) == "" && Scrub(s) == s
  {
    hide OpensWith, OpenedName, Classify, Spells, IndexOf, Attributes, Scrub, Sanitized;
    var s := "<" + word + attrs;
    assert s + "" == s;
    TagParts(s, word, name, attrs, "", 1 + |name| + |attrs|);
    NamesAre(name);
    FlushReemitsOpener("", s, name);
    assert "" + s == s;
  }

  // ---------- What is kept ----------

  /** A `<` that begins no protected tag is kept; the scrubber holds it as long as it could still begin one. */
  lemma OtherTagsStay(s: string)
    requires s != "" && s[0] == '<' && !OpensFence(s, "memory-context") && !OpensFence(s, "attachments")
    ensures Sanitized(s) == "<" + Sanitized(s[1..])
    ensures Scrub(s) == if |s| < 16 && (|s| < 2 || s[1] != '/') then s else "<" + Scrub(s[1..])
  {
    hide OpensWith, OpensFence, Drive, DriveTag, Classify, Sanitized, ProtectedName;
    assert ProtectedName("memory-context") && ProtectedName("attachments") by { TwoNames(); }
    OpensFenceIs(s, "memory-context");
    OpensFenceIs(s, "attachments");
    NoOpener(s);
    SanitizedCopies(s);
    HeldIff(s);
    DriveAtTag(s);
    DriveKept(s);
    assert "" + s == s && "" + s[1..] == s[1..];
    var p := Drive(ScrubState(s[1..], None));
    Glue("<", p.out, Flush(p.next));
  }

  lemma TwoNames()
    ensures ProtectedName("memory-context") && ProtectedName("attachments")
  {
  }

  lemma NoOpener(s: string)
    requires !OpensWith(s, "memory-context") && !OpensWith(s, "attachments")
    ensures OpenedName(s).None?
  {
    hide OpensWith;
  }

  lemma DriveKept(s: string)
    requires s != "" && s[0] == '<'
    ensures Classify(s).Incomplete? ==> DriveTag(s) == Pushed("", ScrubState(s, None))
    ensures Classify(s).NotProtected? ==> DriveTag(s) == Emit("<", Drive(ScrubState(s[1..], None)))
  {
    hide Classify, Drive;
  }

  /** Text without `<` is kept. */
  lemma PlainTextStays(before: string, rest: string)
    requires '<' !in before
    ensures Sanitized(before + rest) == before + Sanitized(rest) && Scrub(before + rest) == before + Scrub(rest)
  {
    hide Drive;
    SanitizedPlain(before, rest);
    DrivePlain(before, rest);
    assert "" + (before + rest) == before + rest && "" + rest == rest;
    var p := Drive(ScrubState(rest, None));
    Glue(before, p.out, Flush(p.next));
  }
}
