/**
 * Canonical JSON text: keys sorted at every level, so that equal inputs give equal signatures whatever order the
 * provider wrote their keys in.
 */
module CanonicalJson {
  import opened Prelude

  // A number is kept as the token it prints as.
  datatype Json =
    | Null
    | Bool(b: bool)
    | Number(token: string)
    | Text(s: string)
    | Array(items: seq<Json>)
    | Object(fields: seq<Field>)

  datatype Field = Field(key: string, value: Json)

  function Keys(fs: seq<Field>): (ks: seq<string>)
    ensures |ks| == |fs| && forall i :: 0 <= i < |fs| ==> ks[i] == fs[i].key
  {
    seq(|fs|, i requires 0 <= i < |fs| => fs[i].key)
  }

  /** The value the object holds for `k`. */
  function Lookup(fs: seq<Field>, k: string): (v: Json)
    requires k in Keys(fs)
    ensures exists i :: 0 <= i < |fs| && fs[i] == Field(k, v)
  {
    if fs[0].key == k then fs[0].value
    else
      assert forall i :: 0 < i < |fs| ==> Keys(fs[1..])[i - 1] == fs[i].key;
      assert k in Keys(fs[1..]);
      Lookup(fs[1..], k)
  }

  predicate NumberChar(c: char) {
    '0' <= c <= '9' || c == '-' || c == '+' || c == '.' || c == 'e' || c == 'E'
  }

  /** Objects have distinct keys, and number tokens are number-like, at every level. */
  predicate Valid(v: Json) {
    match v
    case Number(token) => token != "" && forall i :: 0 <= i < |token| ==> NumberChar(token[i])
    case Array(items) => forall i :: 0 <= i < |items| ==> Valid(items[i])
    case Object(fs) => NoDuplicates(Keys(fs)) && forall i :: 0 <= i < |fs| ==> Valid(fs[i].value)
    case _ => true
  }

  /** Equal up to the order of object keys at every level. */
  predicate Equivalent(v: Json, w: Json) {
    match v
    case Array(items) =>
      w.Array? && |items| == |w.items| && forall i :: 0 <= i < |items| ==> Equivalent(items[i], w.items[i])
    case Object(fs) =>
      w.Object? && SetOf(Keys(fs)) == SetOf(Keys(w.fields))
      && forall i, j :: 0 <= i < |fs| && 0 <= j < |w.fields| && fs[i].key == w.fields[j].key ==>
           Equivalent(fs[i].value, w.fields[j].value)
    case _ => v == w
  }

  // ---------- Strings, escaped as section 7 of RFC 8259 allows ----------

  function HexDigit(n: nat): (c: char)
    requires n < 16
    ensures HexValue(c) == n
  {
    if n < 10 then '0' + n as char else 'a' + (n - 10) as char
  }

  function HexValue(c: char): nat {
    if '0' <= c <= '9' then (c - '0') as nat else if 'a' <= c <= 'f' then (c - 'a') as nat + 10 else 16
  }

  function EscapeChar(c: char): string {
    if c == '"' then "\\\""
    else if c == '\\' then "\\\\"
    else if c == 8 as char then "\\b"
    else if c == '\t' then "\\t"
    else if c == '\n' then "\\n"
    else if c == 12 as char then "\\f"
    else if c == '\r' then "\\r"
    else if c < ' ' then "\\u00" + [HexDigit(c as nat / 16), HexDigit(c as nat % 16)]
    else [c]
  }

  function Escaped(s: string): string {
    if s == "" then "" else EscapeChar(s[0]) + Escaped(s[1..])
  }

  function Quoted(s: string): string {
    "\"" + Escaped(s) + "\""
  }

  /** Reads one character of a string literal back, and what follows it. */
  function UnescapeChar(text: string): Option<(char, string)> {
    if text == "" || text[0] == '"' then None
    else if text[0] != '\\' then Some((text[0], text[1..]))
    else if |text| < 2 then None
    else match text[1]
      case '"' => Some(('"', text[2..]))
      case '\\' => Some(('\\', text[2..]))
      case 'b' => Some((8 as char, text[2..]))
      case 't' => Some(('\t', text[2..]))
      case 'n' => Some(('\n', text[2..]))
      case 'f' => Some((12 as char, text[2..]))
      case 'r' => Some(('\r', text[2..]))
      case 'u' =>
        if |text| >= 6 && HexValue(text[4]) < 2 && HexValue(text[5]) < 16
        then Some(((HexValue(text[4]) * 16 + HexValue(text[5])) as char, text[6..]))
        else None
      case _ => None
  }

  /** Reads the rest of a string literal back, up to its closing quote, and what follows it. */
  function Unquote(text: string): Option<(string, string)>
    decreases |text|
  {
    if text != "" && text[0] == '"' then Some(("", text[1..]))
    else
      match UnescapeChar(text)
      case None => None
      case Some((c, rest)) =>
        if |rest| >= |text| then None
        else
          match Unquote(rest)
          case None => None
          case Some((s, after)) => Some(([c] + s, after))
  }

  lemma UnescapeEscape(c: char, rest: string)
    ensures UnescapeChar(EscapeChar(c) + rest) == Some((c, rest))
    ensures EscapeChar(c) != "" && EscapeChar(c)[0] != '"'
  {
    var text := EscapeChar(c) + rest;
    assert text[|EscapeChar(c)|..] == rest;
    if c < ' ' && |EscapeChar(c)| == 6 {
      assert text[4] == HexDigit(c as nat / 16) && text[5] == HexDigit(c as nat % 16);
    }
  }

  /** What is quoted reads back, and reading stops right after it. */
  lemma {:induction false} UnquoteQuoted(s: string, rest: string)
    ensures Unquote((Quoted(s) + rest)[1..]) == Some((s, rest))
  {
    var text := (Quoted(s) + rest)[1..];
    if s == "" {
      assert text == "\"" + rest;
    } else {
      var tail := (Quoted(s[1..]) + rest)[1..];
      assert text == EscapeChar(s[0]) + tail;
      UnescapeEscape(s[0], tail);
      UnquoteQuoted(s[1..], rest);
      assert [s[0]] + s[1..] == s;
    }
  }

  /** Hence two quoted strings at the head of one text are the same string, with the same rest. */
  lemma QuotedUnique(s: string, t: string, a: string, b: string)
    requires Quoted(s) + a == Quoted(t) + b
    ensures s == t && a == b
  {
    hide Quoted, Unquote;
    UnquoteQuoted(s, a);
    UnquoteQuoted(t, b);
  }

  // ---------- Key order ----------

  /** Lexicographic order on bytes. */
  predicate AtMost(a: string, b: string) {
    a == "" || (b != "" && (a[0] < b[0] || (a[0] == b[0] && AtMost(a[1..], b[1..]))))
  }

  lemma {:induction false} AtMostIsTotal(a: string, b: string)
    ensures AtMost(a, b) || AtMost(b, a)
    ensures AtMost(a, b) && AtMost(b, a) ==> a == b
  {
    if a != "" && b != "" {
      AtMostIsTotal(a[1..], b[1..]);
      assert a == [a[0]] + a[1..] && b == [b[0]] + b[1..];
    }
  }

  lemma {:induction false} AtMostIsTransitive(a: string, b: string, c: string)
    requires AtMost(a, b) && AtMost(b, c)
    ensures AtMost(a, c)
  {
    if a != "" && a[0] == b[0] == c[0] {
      AtMostIsTransitive(a[1..], b[1..], c[1..]);
    }
  }

  predicate Sorted(ks: seq<string>) {
    forall i, j :: 0 <= i < j < |ks| ==> AtMost(ks[i], ks[j])
  }

  function Insert(k: string, ks: seq<string>): (r: seq<string>)
    ensures multiset(r) == multiset(ks) + multiset{k}
  {
    if ks == [] then [k]
    else if AtMost(k, ks[0]) then [k] + ks
    else
      assert ks == [ks[0]] + ks[1..];
      [ks[0]] + Insert(k, ks[1..])
  }

  /** The keys in order. */
  function SortKeys(ks: seq<string>): (r: seq<string>)
    ensures multiset(r) == multiset(ks)
  {
    if ks == [] then []
    else
      assert ks == [ks[0]] + ks[1..];
      Insert(ks[0], SortKeys(ks[1..]))
  }

  lemma {:induction false} InsertSorts(k: string, ks: seq<string>)
    requires Sorted(ks)
    ensures Sorted(Insert(k, ks))
  {
    if ks != [] {
      var r := Insert(k, ks);
      if AtMost(k, ks[0]) {
        forall j | 0 <= j < |ks| ensures AtMost(k, ks[j]) {
          if j > 0 {
            AtMostIsTransitive(k, ks[0], ks[j]);
          }
        }
      } else {
        InsertSorts(k, ks[1..]);
        AtMostIsTotal(k, ks[0]);
        var tail := Insert(k, ks[1..]);
        forall j | 0 <= j < |tail| ensures AtMost(ks[0], tail[j]) {
          assert tail[j] in multiset(tail);
          if tail[j] != k {
            assert tail[j] in multiset(ks[1..]);
          }
        }
      }
    }
  }

  lemma {:induction false} SortKeysSorts(ks: seq<string>)
    ensures Sorted(SortKeys(ks))
  {
    if ks != [] {
      SortKeysSorts(ks[1..]);
      InsertSorts(ks[0], SortKeys(ks[1..]));
    }
  }

  lemma HeadIsLeast(ks: seq<string>, k: string)
    requires Sorted(ks) && k in multiset(ks)
    ensures ks != [] && AtMost(ks[0], k)
  {
    var i :| 0 <= i < |ks| && ks[i] == k;
    AtMostIsTotal(k, k);
  }

  lemma TailMultiset(ks: seq<string>)
    requires ks != []
    ensures multiset(ks[1..]) == multiset(ks) - multiset{ks[0]}
  {
    assert ks == [ks[0]] + ks[1..];
  }

  /** There is one sorted arrangement of a multiset of keys. */
  lemma {:induction false} SortedUnique(a: seq<string>, b: seq<string>)
    requires Sorted(a) && Sorted(b) && multiset(a) == multiset(b)
    ensures a == b
  {
    hide AtMost;
    assert |a| == |multiset(a)| == |multiset(b)| == |b|;
    if a != [] {
      assert a[0] in multiset(a) && b[0] in multiset(b);
      HeadIsLeast(b, a[0]);
      HeadIsLeast(a, b[0]);
      AtMostIsTotal(a[0], b[0]);
      TailMultiset(a);
      TailMultiset(b);
      SortedUnique(a[1..], b[1..]);
      assert a == [a[0]] + a[1..] && b == [b[0]] + b[1..];
    }
  }

  // ---------- The canonical text ----------

  /** The canonical text of `v`. */
  function Canon(v: Json): string
    decreases v
  {
    match v
    case Null => "null"
    case Bool(b) => if b then "true" else "false"
    case Number(token) => token
    case Text(s) => Quoted(s)
    case Array(items) => "[" + ItemsFrom(items, 0)
    case Object(fs) =>
      assert forall k :: k in SortKeys(Keys(fs)) ==> k in multiset(SortKeys(Keys(fs)));
      "{" + MembersFrom(fs, SortKeys(Keys(fs)), 0)
  }

  function Comma(i: nat): string {
    if i > 0 then "," else ""
  }

  /** The items from `i` on, with the closing bracket. */
  function ItemsFrom(items: seq<Json>, i: nat): string
    requires i <= |items|
    decreases items, |items| - i
  {
    if i == |items| then "]" else Comma(i) + (Canon(items[i]) + ItemsFrom(items, i + 1))
  }

  predicate Covers(fs: seq<Field>, ks: seq<string>) {
    forall k :: k in ks ==> k in Keys(fs)
  }

  /** The members with the keys from `i` on, with the closing brace. */
  function MembersFrom(fs: seq<Field>, ks: seq<string>, i: nat): string
    requires i <= |ks| && Covers(fs, ks)
    decreases fs, |ks| - i
  {
    if i == |ks| then "}"
    else Comma(i) + (Quoted(ks[i]) + (":" + (Canon(Lookup(fs, ks[i])) + MembersFrom(fs, ks, i + 1))))
  }

  // ---------- The writer ----------

  /** The output buffer. */
  class Buffer {
    var text: string

    constructor ()
      ensures text == ""
    {
      text := "";
    }

    method Push(s: string)
      modifies this
      ensures text == old(text) + s
    {
      text := text + s;
    }
  }

  /** Appends the canonical text of `v`, whatever the buffer holds. */
  method WriteCanonical(v: Json, buf: Buffer)
    modifies buf
    ensures buf.text == old(buf.text) + Canon(v)
    decreases v, 1
  {
    hide Lookup, Quoted, SortKeys;
    match v
    case Null => buf.Push("null");
    case Bool(b) => buf.Push(if b then "true" else "false");
    case Number(token) => buf.Push(token);
    case Text(s) => buf.Push(Quoted(s));
    case Array(items) => WriteItems(items, v, buf);
    case Object(fs) => WriteMembers(fs, v, buf);
  }

  /** ... of an array, ... */
  method WriteItems(items: seq<Json>, ghost v: Json, buf: Buffer)
    requires v == Array(items)
    modifies buf
    ensures buf.text == old(buf.text) + Canon(v)
    decreases v, 0
  {
    ghost var start := buf.text;
    buf.Push("[");
    for i := 0 to |items|
      invariant buf.text + ItemsFrom(items, i) == start + "[" + ItemsFrom(items, 0)
    {
      ghost var before := buf.text;
      if i > 0 {
        buf.Push(",");
      }
      WriteCanonical(items[i], buf);
      ItemWritten(before, buf.text, items, i);
    }
    buf.Push("]");
    Glue(start, "[", ItemsFrom(items, 0));
  }

  /** ... and of an object. */
  method WriteMembers(fs: seq<Field>, ghost v: Json, buf: Buffer)
    requires v == Object(fs)
    modifies buf
    ensures buf.text == old(buf.text) + Canon(v)
    decreases v, 0
  {
    hide Lookup, Quoted, SortKeys;
    ghost var start := buf.text;
    var ks := SortKeys(Keys(fs));
    SortedCover(fs);
    buf.Push("{");
    for i := 0 to |ks|
      invariant buf.text + MembersFrom(fs, ks, i) == start + "{" + MembersFrom(fs, ks, 0)
    {
      ghost var before := buf.text;
      if i > 0 {
        buf.Push(",");
      }
      buf.Push(Quoted(ks[i]));
      buf.Push(":");
      WriteCanonical(Lookup(fs, ks[i]), buf);
      MemberWritten(before, buf.text, fs, ks, i);
    }
    buf.Push("}");
    Glue(start, "{", MembersFrom(fs, ks, 0));
  }

  lemma ItemWritten(before: string, after: string, items: seq<Json>, i: nat)
    requires i < |items| && after == before + Comma(i) + Canon(items[i])
    ensures after + ItemsFrom(items, i + 1) == before + ItemsFrom(items, i)
  {
    hide Canon;
    Glue(before + Comma(i), Canon(items[i]), ItemsFrom(items, i + 1));
    Glue(before, Comma(i), Canon(items[i]) + ItemsFrom(items, i + 1));
  }

  lemma MemberWritten(before: string, after: string, fs: seq<Field>, ks: seq<string>, i: nat)
    requires i < |ks| && Covers(fs, ks)
    requires after == before + Comma(i) + Quoted(ks[i]) + ":" + Canon(Lookup(fs, ks[i]))
    ensures after + MembersFrom(fs, ks, i + 1) == before + MembersFrom(fs, ks, i)
  {
    hide Canon, Quoted, Lookup;
    var q, text, rest := Quoted(ks[i]), Canon(Lookup(fs, ks[i])), MembersFrom(fs, ks, i + 1);
    Glue(before + Comma(i) + q + ":", text, rest);
    Glue(before + Comma(i) + q, ":", text + rest);
    Glue(before + Comma(i), q, ":" + (text + rest));
    Glue(before, Comma(i), q + (":" + (text + rest)));
  }

  // ---------- One text for each value, up to key order ----------

  /** What may follow a value in a text. */
  predicate Delimits(rest: string) {
    rest == "" || rest[0] == ',' || rest[0] == ']' || rest[0] == '}'
  }

  function Kind(v: Json): nat {
    match v
    case Null => 0
    case Bool(b) => if b then 1 else 2
    case Number(_) => 3
    case Text(_) => 4
    case Array(_) => 5
    case Object(_) => 6
  }

  function KindOfChar(c: char): nat {
    if c == 'n' then 0 else if c == 't' then 1 else if c == 'f' then 2 else if NumberChar(c) then 3
    else if c == '"' then 4 else if c == '[' then 5 else if c == '{' then 6 else 7
  }

  /** The first character tells the kind of value. */
  lemma FirstChar(v: Json, rest: string)
    requires Valid(v)
    ensures Canon(v) != "" && (Canon(v) + rest)[0] == Canon(v)[0] && KindOfChar(Canon(v)[0]) == Kind(v)
  {
    hide ItemsFrom, MembersFrom, Escaped, SortKeys, Keys, Covers;
  }

  /** How many number characters `text` starts with. */
  function TokenLength(text: string): nat {
    if text == "" || !NumberChar(text[0]) then 0 else 1 + TokenLength(text[1..])
  }

  /** A number token ends where its characters end. */
  lemma {:induction false} TokenEnds(token: string, rest: string)
    requires Delimits(rest) && forall i :: 0 <= i < |token| ==> NumberChar(token[i])
    ensures TokenLength(token + rest) == |token|
  {
    if token == "" {
      assert token + rest == rest;
    } else {
      assert (token + rest)[1..] == token[1..] + rest;
      TokenEnds(token[1..], rest);
    }
  }

  lemma TokenUnique(s: string, t: string, a: string, b: string)
    requires s + a == t + b && Delimits(a) && Delimits(b)
    requires forall i :: 0 <= i < |s| ==> NumberChar(s[i])
    requires forall i :: 0 <= i < |t| ==> NumberChar(t[i])
    ensures s == t && a == b
  {
    TokenEnds(s, a);
    TokenEnds(t, b);
    assert s == (s + a)[..|s|] && t == (t + b)[..|t|];
    SamePrefix(s, a, b);
  }

  /** Equal texts at the head of delimited rests come from equivalent values. */
  lemma {:induction false} CanonUnique(v: Json, w: Json, a: string, b: string)
    requires Valid(v) && Valid(w) && Delimits(a) && Delimits(b)
    requires Canon(v) + a == Canon(w) + b
    ensures Equivalent(v, w) && a == b
    decreases v
  {
    FirstChar(v, a);
    FirstChar(w, b);
    assert Kind(v) == Kind(w);
    match v
    case Null => SamePrefix("null", a, b);
    case Bool(x) => SamePrefix(Canon(v), a, b);
    case Number(s) => TokenUnique(s, w.token, a, b);
    case Text(s) => QuotedUnique(s, w.s, a, b);
    case Array(items) =>
      Glue("[", ItemsFrom(items, 0), a);
      Glue("[", ItemsFrom(w.items, 0), b);
      SamePrefix("[", ItemsFrom(items, 0) + a, ItemsFrom(w.items, 0) + b);
      ItemsUnique(items, w.items, 0, a, b);
    case Object(fs) =>
      var ks, ls := SortKeys(Keys(fs)), SortKeys(Keys(w.fields));
      SortedCover(fs);
      SortedCover(w.fields);
      Glue("{", MembersFrom(fs, ks, 0), a);
      Glue("{", MembersFrom(w.fields, ls, 0), b);
      SamePrefix("{", MembersFrom(fs, ks, 0) + a, MembersFrom(w.fields, ls, 0) + b);
      MembersUnique(fs, w.fields, ks, ls, 0, a, b);
      SameMembers(fs, w.fields, ks, ls);
  }

  /** The items from `i` on are pairwise equivalent. */
  predicate SameItems(xs: seq<Json>, ys: seq<Json>, i: nat) {
    |xs| == |ys| && forall j :: i <= j < |xs| ==> Equivalent(xs[j], ys[j])
  }

  /** The closing bracket shows that no items are left. */
  lemma ItemsEnd(xs: seq<Json>, i: nat, rest: string)
    requires i <= |xs| && forall j :: 0 <= j < |xs| ==> Valid(xs[j])
    ensures ItemsFrom(xs, i) != "" && ((ItemsFrom(xs, i) + rest)[0] == ']' <==> i == |xs|)
  {
    if i < |xs| {
      FirstChar(xs[i], ItemsFrom(xs, i + 1));
      hide Canon, Valid;
    }
  }

  lemma {:induction false} ItemsUnique(xs: seq<Json>, ys: seq<Json>, i: nat, a: string, b: string)
    requires i <= |xs| && i <= |ys|
    requires (forall j :: 0 <= j < |xs| ==> Valid(xs[j])) && (forall j :: 0 <= j < |ys| ==> Valid(ys[j]))
    requires ItemsFrom(xs, i) + a == ItemsFrom(ys, i) + b
    ensures SameItems(xs, ys, i) && a == b
    decreases xs, |xs| - i
  {
    hide Canon, Equivalent, Valid;
    ItemsEnd(xs, i, a);
    ItemsEnd(ys, i, b);
    if i == |xs| {
      SamePrefix("]", a, b);
    } else {
      var xt, yt := ItemsFrom(xs, i + 1), ItemsFrom(ys, i + 1);
      var c, d := Canon(xs[i]), Canon(ys[i]);
      StripItem(c, xt, a, i);
      StripItem(d, yt, b, i);
      SamePrefix(Comma(i), c + (xt + a), d + (yt + b));
      CanonUnique(xs[i], ys[i], xt + a, yt + b);
      ItemsUnique(xs, ys, i + 1, a, b);
    }
  }

  lemma StripItem(c: string, tail: string, a: string, i: nat)
    ensures Comma(i) + (c + tail) + a == Comma(i) + (c + (tail + a))
  {
    Glue(Comma(i), c + tail, a);
    Glue(c, tail, a);
  }

  /** The members with the keys from `i` on have the same keys and equivalent values. */
  predicate SameFrom(fs: seq<Field>, gs: seq<Field>, ks: seq<string>, ls: seq<string>, i: nat)
    requires Covers(fs, ks) && Covers(gs, ls)
  {
    |ks| == |ls|
    && forall j :: i <= j < |ks| ==> ks[j] == ls[j] && Equivalent(Lookup(fs, ks[j]), Lookup(gs, ls[j]))
  }

  predicate AllValid(fs: seq<Field>) {
    forall i :: 0 <= i < |fs| ==> Valid(fs[i].value)
  }

  lemma MembersEnd(fs: seq<Field>, ks: seq<string>, i: nat, rest: string)
    requires i <= |ks| && Covers(fs, ks)
    ensures MembersFrom(fs, ks, i) != "" && ((MembersFrom(fs, ks, i) + rest)[0] == '}' <==> i == |ks|)
  {
    hide Canon, Lookup, Escaped;
  }

  lemma {:induction false} MembersUnique(
      fs: seq<Field>, gs: seq<Field>, ks: seq<string>, ls: seq<string>, i: nat, a: string, b: string)
    requires i <= |ks| && i <= |ls| && Covers(fs, ks) && Covers(gs, ls) && AllValid(fs) && AllValid(gs)
    requires MembersFrom(fs, ks, i) + a == MembersFrom(gs, ls, i) + b
    ensures SameFrom(fs, gs, ks, ls, i) && a == b
    decreases fs, |ks| - i
  {
    hide Canon, Equivalent, Valid, Lookup;
    MembersEnd(fs, ks, i, a);
    MembersEnd(gs, ls, i, b);
    if i == |ks| {
      SamePrefix("}", a, b);
    } else {
      var v, w := Lookup(fs, ks[i]), Lookup(gs, ls[i]);
      var xt, yt := MembersFrom(fs, ks, i + 1), MembersFrom(gs, ls, i + 1);
      StripMember(Quoted(ks[i]), Canon(v), xt, a, i);
      StripMember(Quoted(ls[i]), Canon(w), yt, b, i);
      SamePrefix(Comma(i), Quoted(ks[i]) + (":" + (Canon(v) + (xt + a))), Quoted(ls[i]) + (":" + (Canon(w) + (yt + b))));
      QuotedUnique(ks[i], ls[i], ":" + (Canon(v) + (xt + a)), ":" + (Canon(w) + (yt + b)));
      SamePrefix(":", Canon(v) + (xt + a), Canon(w) + (yt + b));
      CanonUnique(v, w, xt + a, yt + b);
      MembersUnique(fs, gs, ks, ls, i + 1, a, b);
    }
  }

  lemma StripMember(q: string, c: string, tail: string, a: string, i: nat)
    ensures Comma(i) + (q + (":" + (c + tail))) + a == Comma(i) + (q + (":" + (c + (tail + a))))
  {
    Glue(Comma(i), q + (":" + (c + tail)), a);
    Glue(q, ":" + (c + tail), a);
    Glue(":", c + tail, a);
    Glue(c, tail, a);
  }

  lemma SortedCover(fs: seq<Field>)
    ensures Covers(fs, SortKeys(Keys(fs))) && SetOf(SortKeys(Keys(fs))) == SetOf(Keys(fs))
  {
    var ks := SortKeys(Keys(fs));
    assert forall k :: (k in ks <==> k in multiset(ks)) && (k in Keys(fs) <==> k in multiset(Keys(fs)));
  }

  lemma {:induction false} LookupFinds(fs: seq<Field>, i: nat)
    requires i < |fs| && NoDuplicates(Keys(fs))
    ensures Lookup(fs, fs[i].key) == fs[i].value
  {
    assert Keys(fs)[i] == fs[i].key && Keys(fs)[0] == fs[0].key;
    if i > 0 {
      assert forall j :: 0 <= j < |fs[1..]| ==> Keys(fs[1..])[j] == Keys(fs)[j + 1];
      LookupFinds(fs[1..], i - 1);
    }
  }

  lemma SameMembers(fs: seq<Field>, gs: seq<Field>, ks: seq<string>, ls: seq<string>)
    requires NoDuplicates(Keys(fs)) && NoDuplicates(Keys(gs))
    requires Covers(fs, ks) && SetOf(ks) == SetOf(Keys(fs))
    requires Covers(gs, ls) && SetOf(ls) == SetOf(Keys(gs))
    requires SameFrom(fs, gs, ks, ls, 0)
    ensures Equivalent(Object(fs), Object(gs))
  {
    assert ks == ls;
    forall i, j | 0 <= i < |fs| && 0 <= j < |gs| && fs[i].key == gs[j].key
      ensures Equivalent(fs[i].value, gs[j].value)
    {
      assert Keys(fs)[i] in SetOf(ks);
      LookupFinds(fs, i);
      LookupFinds(gs, j);
    }
  }

  // ---------- Equivalent values have one text ----------

  lemma {:induction false} ItemsRespect(xs: seq<Json>, ys: seq<Json>, i: nat)
    requires i <= |xs| && SameItems(xs, ys, 0)
    requires (forall j :: 0 <= j < |xs| ==> Valid(xs[j])) && (forall j :: 0 <= j < |ys| ==> Valid(ys[j]))
    ensures ItemsFrom(xs, i) == ItemsFrom(ys, i)
    decreases xs, |xs| - i
  {
    hide Canon, Equivalent, Valid;
    if i < |xs| {
      CanonRespects(xs[i], ys[i]);
      ItemsRespect(xs, ys, i + 1);
    }
  }

  lemma {:induction false} MembersRespect(fs: seq<Field>, gs: seq<Field>, ks: seq<string>, i: nat)
    requires i <= |ks| && Covers(fs, ks) && Covers(gs, ks) && AllValid(fs) && AllValid(gs)
    requires SameFrom(fs, gs, ks, ks, 0)
    ensures MembersFrom(fs, ks, i) == MembersFrom(gs, ks, i)
    decreases fs, |ks| - i
  {
    hide Canon, Equivalent, Valid, Lookup, Quoted;
    if i < |ks| {
      CanonRespects(Lookup(fs, ks[i]), Lookup(gs, ks[i]));
      MembersRespect(fs, gs, ks, i + 1);
    }
  }

  lemma SameKeysSortAlike(fs: seq<Field>, gs: seq<Field>)
    requires NoDuplicates(Keys(fs)) && NoDuplicates(Keys(gs)) && SetOf(Keys(fs)) == SetOf(Keys(gs))
    ensures SortKeys(Keys(fs)) == SortKeys(Keys(gs))
  {
    var a, b := Keys(fs), Keys(gs);
    DistinctMultiset(a);
    DistinctMultiset(b);
    SortKeysSorts(a);
    SortKeysSorts(b);
    SortedUnique(SortKeys(a), SortKeys(b));
  }

  lemma {:induction false} DistinctMultiset(ks: seq<string>)
    requires NoDuplicates(ks)
    ensures multiset(ks) == multiset(SetOf(ks))
  {
    if ks != [] {
      assert ks == [ks[0]] + ks[1..];
      assert forall j :: 0 <= j < |ks[1..]| ==> ks[1..][j] == ks[j + 1];
      DistinctMultiset(ks[1..]);
      assert SetOf(ks) == {ks[0]} + SetOf(ks[1..]);
    }
  }

  lemma EquivalentMembers(fs: seq<Field>, gs: seq<Field>, ks: seq<string>)
    requires Equivalent(Object(fs), Object(gs)) && Covers(fs, ks) && Covers(gs, ks)
    ensures SameFrom(fs, gs, ks, ks, 0)
  {
    hide Lookup;
  }

  lemma {:induction false} CanonRespects(v: Json, w: Json)
    requires Valid(v) && Valid(w) && Equivalent(v, w)
    ensures Canon(v) == Canon(w)
    decreases v
  {
    match v
    case Array(items) => ItemsRespect(items, w.items, 0);
    case Object(fs) =>
      SameKeysSortAlike(fs, w.fields);
      SortedCover(fs);
      SortedCover(w.fields);
      EquivalentMembers(fs, w.fields, SortKeys(Keys(fs)));
      MembersRespect(fs, w.fields, SortKeys(Keys(fs)), 0);
    case _ =>
  }

  /** Two values have the same canonical text exactly when they are equal up to key order at every level. */
  lemma CanonicalTextIsUnambiguous(v: Json, w: Json)
    requires Valid(v) && Valid(w)
    ensures Canon(v) == Canon(w) <==> Equivalent(v, w)
  {
    hide Canon, Equivalent, Valid;
    if Canon(v) == Canon(w) {
      assert Canon(v) + "" == Canon(w) + "";
      CanonUnique(v, w, "", "");
    }
    if Equivalent(v, w) {
      CanonRespects(v, w);
    }
  }
}
