/** Canonical JSON on the bytes: what the text of each kind of value looks like. */
module JsonBytes {
  import opened Prelude
  import opened CanonicalJson

  // ---------- Strings ----------

  /** How one character is written between quotes: the short escapes, `\u` and four hex digits, or as it is. */
  predicate Writes(c: char, text: string) {
    var code := c as int;
    if code == 0x22 then text == "\\\""
    else if code == 0x5C then text == "\\\\"
    else if code == 0x08 then text == "\\b"
    else if code == 0x09 then text == "\\t"
    else if code == 0x0A then text == "\\n"
    else if code == 0x0C then text == "\\f"
    else if code == 0x0D then text == "\\r"
    else if code < 0x20 then
      && |text| == 6 && text[..4] == "\\u00"
      && text[4] == (if code < 0x10 then '0' else '1') && text[5] == "0123456789abcdef"[code % 16]
    else text == [c]
  }

  lemma EscapeWrites(c: char)
    ensures Writes(c, EscapeChar(c))
  {
    if c < ' ' && |EscapeChar(c)| == 6 {
      assert EscapeChar(c) == "\\u00" + [HexDigit(c as nat / 16), HexDigit(c as nat % 16)];
      HexIs(c as nat % 16);
      assert c as nat / 16 < 2;
    }
  }

  lemma HexIs(n: nat)
    requires n < 16
    ensures HexDigit(n) == "0123456789abcdef"[n]
  {
  }

  /** `parts` are the characters of `s` as they are written. */
  predicate WritesAll(s: string, parts: seq<string>) {
    |parts| == |s| && forall i :: 0 <= i < |s| ==> Writes(s[i], parts[i])
  }

  /** `text` is the string token of `s`. */
  ghost predicate StringToken(s: string, text: string) {
    exists parts :: WritesAll(s, parts) && text == "\"" + Concat(parts) + "\""
  }

  lemma {:induction false} EscapedParts(s: string) returns (parts: seq<string>)
    ensures WritesAll(s, parts) && Escaped(s) == Concat(parts)
  {
    hide Writes;
    if s == "" {
      parts := [];
    } else {
      var rest := EscapedParts(s[1..]);
      EscapeWrites(s[0]);
      parts := [EscapeChar(s[0])] + rest;
      assert parts[1..] == rest;
    }
  }

  lemma QuotedIsToken(s: string)
    ensures StringToken(s, Quoted(s))
  {
    hide WritesAll;
    var parts := EscapedParts(s);
  }

  // ---------- Order of keys ----------

  /** `a` comes before `b`: it is a proper prefix, or the first byte in which they differ is smaller. */
  ghost predicate Before(a: string, b: string) {
    exists n: nat :: FirstDifference(a, b, n)
  }

  predicate FirstDifference(a: string, b: string, n: nat) {
    n <= |a| && n < |b| && a[..n] == b[..n] && (n == |a| || a[n] < b[n])
  }

  lemma {:induction false} AtMostIsBefore(a: string, b: string)
    ensures AtMost(a, b) <==> a == b || Before(a, b)
  {
    if a == "" {
      assert b != "" ==> FirstDifference(a, b, 0);
    } else if b == "" {
    } else if a[0] != b[0] {
      assert a[0] < b[0] ==> FirstDifference(a, b, 0);
      assert forall n: nat :: FirstDifference(a, b, n) ==> n == 0 || a[..n][0] == b[..n][0];
    } else {
      AtMostIsBefore(a[1..], b[1..]);
      assert a == [a[0]] + a[1..] && b == [b[0]] + b[1..];
      if n: nat :| FirstDifference(a[1..], b[1..], n) {
        assert a[..n + 1] == [a[0]] + a[1..][..n] && b[..n + 1] == [b[0]] + b[1..][..n];
        assert FirstDifference(a, b, n + 1);
      }
      if n: nat :| FirstDifference(a, b, n) {
        assert n > 0;
        assert a[1..][..n - 1] == a[..n][1..] && b[1..][..n - 1] == b[..n][1..];
        assert FirstDifference(a[1..], b[1..], n - 1);
      }
    }
  }

  // ---------- Values ----------

  function Separated(parts: seq<string>): string {
    if parts == [] then ""
    else if |parts| == 1 then parts[0]
    else parts[0] + "," + Separated(parts[1..])
  }

  /** The keys of the object, each once, in byte order. */
  ghost predicate KeysInOrder(fs: seq<Field>, ks: seq<string>) {
    && |ks| == |fs| && (forall k :: k in ks <==> exists i :: 0 <= i < |fs| && fs[i].key == k)
    && forall i, j :: 0 <= i < j < |ks| ==> Before(ks[i], ks[j])
  }

  /** One member: key, colon, and the text of the value the object holds for that key. */
  ghost predicate MemberPrints(fs: seq<Field>, k: string, part: string) {
    exists i, key, value ::
      0 <= i < |fs| && fs[i].key == k && StringToken(k, key) && Prints(fs[i].value, value) && part == key + ":" + value
  }

  /** `text` is the canonical text of `v`, told as a grammar: no blanks, keys sorted at every level. */
  ghost predicate Prints(v: Json, text: string)
    decreases v
  {
    match v
    case Null => text == "null"
    case Bool(b) => text == if b then "true" else "false"
    case Number(token) => text == token
    case Text(s) => StringToken(s, text)
    case Array(items) =>
      exists parts: seq<string> ::
        && |parts| == |items| && (forall i :: 0 <= i < |items| ==> Prints(items[i], parts[i]))
        && text == "[" + Separated(parts) + "]"
    case Object(fs) =>
      exists ks: seq<string>, parts: seq<string> ::
        && KeysInOrder(fs, ks) && |parts| == |ks|
        && (forall j :: 0 <= j < |ks| ==> MemberPrints(fs, ks[j], parts[j]))
        && text == "{" + Separated(parts) + "}"
  }

  lemma SeparatedStep(parts: seq<string>, i: nat)
    requires i < |parts|
    ensures Separated(parts[i..]) == parts[i] + if i + 1 < |parts| then "," + Separated(parts[i + 1..]) else ""
  {
    assert parts[i..][1..] == parts[i + 1..];
    assert parts[i] + "" == parts[i];
    if i + 1 < |parts| {
      Glue(parts[i], ",", Separated(parts[i + 1..]));
    }
  }

  lemma {:induction false} ItemsSeparated(items: seq<Json>, parts: seq<string>, i: nat)
    requires |parts| == |items| && i <= |items| && forall k :: 0 <= k < |items| ==> parts[k] == Canon(items[k])
    ensures ItemsFrom(items, i) == (if 0 < i < |items| then "," else "") + (Separated(parts[i..]) + "]")
    decreases |items| - i
  {
    hide Canon, Separated;
    if i == |items| {
      NothingSeparated();
      assert parts[i..] == [];
      assert "" + ("" + "]") == "]";
    } else {
      ItemsSeparated(items, parts, i + 1);
      SeparatedStep(parts, i);
      TailGlue(Comma(i), parts[i], i + 1 < |parts|, if i + 1 < |parts| then Separated(parts[i + 1..]) else "", "]");
      if i + 1 == |items| {
        NothingSeparated();
        assert parts[i + 1..] == [];
        assert "" + ("" + "]") == "]";
      }
    }
  }

  lemma NothingSeparated()
    ensures Separated([]) == ""
  {
  }

  lemma TailGlue(comma: string, part: string, more: bool, rest: string, end: string)
    ensures more ==> comma + (part + ("," + (rest + end))) == comma + ((part + ("," + rest)) + end)
    ensures comma + (part + end) == comma + ((part + "") + end)
  {
  }

  function MemberText(fs: seq<Field>, k: string): string
    requires k in CanonicalJson.Keys(fs)
  {
    Quoted(k) + ":" + Canon(Lookup(fs, k))
  }

  lemma {:induction false} MembersSeparated(fs: seq<Field>, ks: seq<string>, parts: seq<string>, i: nat)
    requires Covers(fs, ks) && |parts| == |ks| && i <= |ks|
    requires forall j :: 0 <= j < |ks| ==> parts[j] == MemberText(fs, ks[j])
    ensures MembersFrom(fs, ks, i) == (if 0 < i < |ks| then "," else "") + (Separated(parts[i..]) + "}")
    decreases |ks| - i
  {
    hide Canon, Separated, Quoted, Lookup;
    if i == |ks| {
      NothingSeparated();
      assert parts[i..] == [];
      assert "" + ("" + "}") == "}";
    } else {
      MembersSeparated(fs, ks, parts, i + 1);
      SeparatedStep(parts, i);
      MemberGlue(Quoted(ks[i]), Canon(Lookup(fs, ks[i])), MembersFrom(fs, ks, i + 1));
      TailGlue(Comma(i), parts[i], i + 1 < |parts|, if i + 1 < |parts| then Separated(parts[i + 1..]) else "", "}");
      if i + 1 == |ks| {
        NothingSeparated();
        assert parts[i + 1..] == [];
        assert "" + ("" + "}") == "}";
      }
    }
  }

  lemma MemberGlue(key: string, value: string, rest: string)
    ensures key + (":" + (value + rest)) == key + ":" + value + rest
  {
  }

  // ---------- The keys ----------

  lemma {:induction false} DistinctCount(ks: seq<string>, k: string)
    requires NoDuplicates(ks)
    ensures multiset(ks)[k] <= 1
  {
    if ks != [] {
      NoDuplicatesStep(ks);
      DistinctCount(ks[1..], k);
      assert ks == [ks[0]] + ks[1..];
      assert ks[0] !in multiset(ks[1..]);
    }
  }

  lemma TwiceCounts(ks: seq<string>, i: nat, j: nat)
    requires i < j < |ks| && ks[i] == ks[j]
    ensures multiset(ks)[ks[i]] >= 2
  {
    assert ks == ks[..j] + ks[j..];
    assert ks[..j][i] == ks[i] && ks[j..][0] == ks[j];
    assert multiset(ks[..j])[ks[i]] >= 1 && multiset(ks[j..])[ks[i]] >= 1;
  }

  lemma SortedKeysInOrder(fs: seq<Field>)
    requires NoDuplicates(CanonicalJson.Keys(fs))
    ensures KeysInOrder(fs, SortKeys(CanonicalJson.Keys(fs)))
  {
    hide Before, SortKeys;
    var all := CanonicalJson.Keys(fs);
    var ks := SortKeys(all);
    SortKeysSorts(all);
    SortedCover(fs);
    assert |ks| == |multiset(ks)| == |multiset(all)| == |all|;
    forall k ensures k in ks <==> exists i :: 0 <= i < |fs| && fs[i].key == k {
      assert k in ks <==> k in SetOf(ks);
      assert k in all <==> k in SetOf(all);
    }
    forall i, j | 0 <= i < j < |ks| ensures Before(ks[i], ks[j]) {
      AtMostIsBefore(ks[i], ks[j]);
      if ks[i] == ks[j] {
        TwiceCounts(ks, i, j);
        DistinctCount(all, ks[i]);
        assert false;
      }
    }
  }

  /** What the writer puts out is the canonical text as the grammar tells it. */
  lemma {:induction false} CanonPrints(v: Json)
    requires Valid(v)
    ensures Prints(v, Canon(v))
    decreases v
  {
    hide Separated, Quoted, KeysInOrder, StringToken;
    match v
    case Text(s) => QuotedIsToken(s);
    case Array(items) =>
      var parts := seq(|items|, i requires 0 <= i < |items| => Canon(items[i]));
      forall i | 0 <= i < |items| ensures Prints(items[i], parts[i]) {
        CanonPrints(items[i]);
      }
      ItemsSeparated(items, parts, 0);
      assert parts[0..] == parts;
      BracketGlue("[", Separated(parts), "]");
    case Object(fs) =>
      forall i | 0 <= i < |fs| ensures Prints(fs[i].value, Canon(fs[i].value)) {
        CanonPrints(fs[i].value);
      }
      ObjectPrints(fs);
    case _ =>
  }

  lemma BracketGlue(open: string, inner: string, close: string)
    ensures open + ("" + (inner + close)) == open + inner + close
  {
  }

  lemma ObjectPrints(fs: seq<Field>)
    requires NoDuplicates(CanonicalJson.Keys(fs))
    requires forall i :: 0 <= i < |fs| ==> Prints(fs[i].value, Canon(fs[i].value))
    ensures Prints(Object(fs), Canon(Object(fs)))
  {
    hide Separated, Quoted, StringToken, Lookup, SortKeys, MembersFrom;
    var ks := SortKeys(CanonicalJson.Keys(fs));
    SortedCover(fs);
    SortedKeysInOrder(fs);
    hide KeysInOrder;
    var parts := seq(|ks|, j requires 0 <= j < |ks| => MemberText(fs, ks[j]));
    forall j | 0 <= j < |ks| ensures MemberPrints(fs, ks[j], parts[j]) {
      MemberIs(fs, ks[j]);
    }
    MembersSeparated(fs, ks, parts, 0);
    assert parts[0..] == parts;
    BracketGlue("{", Separated(parts), "}");
  }

  lemma MemberIs(fs: seq<Field>, k: string)
    requires k in CanonicalJson.Keys(fs)
    requires forall i :: 0 <= i < |fs| ==> Prints(fs[i].value, Canon(fs[i].value))
    ensures MemberPrints(fs, k, MemberText(fs, k))
  {
    hide Prints, Canon, StringToken, Quoted;
    var i :| 0 <= i < |fs| && fs[i] == Field(k, Lookup(fs, k));
    QuotedIsToken(k);
    assert StringToken(k, Quoted(k)) && Prints(fs[i].value, Canon(fs[i].value));
  }
}
