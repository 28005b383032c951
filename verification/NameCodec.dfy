/** The `mcp__server__tool` name codec. */
module NameCodec {
  import opened Prelude

  const PREFIX := "mcp__"
  const SEPARATOR := "__"
  const MAX_SERVER_LENGTH := 64

  predicate Lowercase(c: char) { 'a' <= c <= 'z' }
  predicate IsDigit(c: char) { '0' <= c <= '9' }
  predicate Alphanumeric(c: char) { Lowercase(c) || 'A' <= c <= 'Z' || IsDigit(c) }
  predicate SlugChar(c: char) { Alphanumeric(c) || c == '_' }
  predicate ServerChar(c: char) { Lowercase(c) || IsDigit(c) || c == '_' || c == '-' }

  /** `s` holds two underscores in a row at `i`. */
  predicate DoubleAt(s: string, i: int) {
    0 <= i && i + 1 < |s| && s[i] == '_' && s[i + 1] == '_'
  }

  predicate EndsInUnderscore(s: string) {
    s != "" && s[|s| - 1] == '_'
  }

  // ---------- Server names ----------

  datatype NameError = Empty | TooLong | DoubleUnderscore | ReservedPrefix | BadCharacter(c: char)

  ghost predicate ValidServer(name: string) {
    && 0 < |name| <= MAX_SERVER_LENGTH
    && (forall i :: !DoubleAt(name, i))
    && !("mcp_" <= name)
    && forall i :: 0 <= i < |name| ==> ServerChar(name[i])
  }

  method ContainsDouble(s: string) returns (found: bool)
    ensures found <==> exists i :: DoubleAt(s, i)
  {
    found := false;
    var i := 0;
    while i + 1 < |s|
      invariant 0 <= i
      invariant forall j :: 0 <= j < i ==> !DoubleAt(s, j)
    {
      if s[i] == '_' && s[i + 1] == '_' {
        assert DoubleAt(s, i);
        return true;
      }
      i := i + 1;
    }
  }

  /** Accepts exactly the valid names, and reports the first rule that is broken. */
  method ValidateServerName(name: string) returns (error: Option<NameError>)
    ensures error.None? <==> ValidServer(name)
    ensures error == Some(Empty) <==> name == ""
    ensures error == Some(TooLong) <==> |name| > MAX_SERVER_LENGTH
    ensures error == Some(DoubleUnderscore) <==> |name| <= MAX_SERVER_LENGTH && exists i :: DoubleAt(name, i)
    ensures error == Some(ReservedPrefix)
       <==> |name| <= MAX_SERVER_LENGTH && (forall i :: !DoubleAt(name, i)) && "mcp_" <= name
    ensures error.Some? && error.value.BadCharacter? ==>
              exists i :: 0 <= i < |name| && name[i] == error.value.c && !ServerChar(name[i])
                          && forall j :: 0 <= j < i ==> ServerChar(name[j])
  {
    if name == "" {
      return Some(Empty);
    }
    if |name| > MAX_SERVER_LENGTH {
      return Some(TooLong);
    }
    var double := ContainsDouble(name);
    if double {
      return Some(DoubleUnderscore);
    }
    if "mcp_" <= name {
      return Some(ReservedPrefix);
    }
    for i := 0 to |name|
      invariant forall j :: 0 <= j < i ==> ServerChar(name[j])
    {
      if !ServerChar(name[i]) {
        return Some(BadCharacter(name[i]));
      }
    }
    error := None;
  }

  // ---------- Slugs ----------

  /** Slug characters stay; a run of others becomes one `_`, or nothing after a separator (`sep`). */
  function Squeezed(raw: string, sep: bool): string {
    if raw == "" then ""
    else if SlugChar(raw[0]) then [raw[0]] + Squeezed(raw[1..], false)
    else if !sep then "_" + Squeezed(raw[1..], true)
    else Squeezed(raw[1..], true)
  }

  function Trimmed(s: string): string {
    if EndsInUnderscore(s) then Trimmed(s[..|s| - 1]) else s
  }

  function Prefixed(s: string): string {
    if s != "" && IsDigit(s[0]) then "_" + s else s
  }

  function Slug(raw: string): string {
    Prefixed(Trimmed(Squeezed(raw, true)))
  }

  method SanitizeToolSegment(raw: string) returns (out: string)
    ensures out == Slug(raw)
  {
    out := "";
    var sep, i := true, 0;
    assert raw[0..] == raw;
    while i < |raw|
      invariant 0 <= i <= |raw|
      invariant Squeezed(raw, true) == out + Squeezed(raw[i..], sep)
    {
      assert raw[i..][1..] == raw[i + 1..];
      if SlugChar(raw[i]) {
        Glue(out, [raw[i]], Squeezed(raw[i + 1..], false));
        out := out + [raw[i]];
        sep := false;
      } else if !sep {
        Glue(out, "_", Squeezed(raw[i + 1..], true));
        out := out + "_";
        sep := true;
      }
      i := i + 1;
    }
    assert raw[i..] == "" && out + "" == out;
    while EndsInUnderscore(out)
      invariant Trimmed(Squeezed(raw, true)) == Trimmed(out)
      decreases |out|
    {
      out := out[..|out| - 1];
    }
    if out != "" && IsDigit(out[0]) {
      out := "_" + out;
    }
  }

  /** The shape of a slug: slug characters only, no leading digit, no trailing underscore. */
  predicate WellShaped(s: string) {
    && (forall i :: 0 <= i < |s| ==> SlugChar(s[i]))
    && !EndsInUnderscore(s)
    && (s != "" ==> !IsDigit(s[0]))
  }

  lemma {:induction false} SqueezedChars(raw: string, sep: bool)
    ensures forall i :: 0 <= i < |Squeezed(raw, sep)| ==> SlugChar(Squeezed(raw, sep)[i])
    ensures (forall i :: 0 <= i < |raw| ==> SlugChar(raw[i])) ==> Squeezed(raw, sep) == raw
  {
    if raw != "" {
      SqueezedChars(raw[1..], false);
      SqueezedChars(raw[1..], true);
    }
  }

  lemma {:induction false} TrimmedIsPrefix(s: string)
    ensures Trimmed(s) <= s && !EndsInUnderscore(Trimmed(s))
  {
    if EndsInUnderscore(s) {
      TrimmedIsPrefix(s[..|s| - 1]);
    }
  }

  /** Slugs are well-shaped, and the well-shaped strings are exactly those the slug function leaves alone. */
  lemma SlugFixedPoints(s: string)
    ensures WellShaped(Slug(s))
    ensures Slug(s) == s <==> WellShaped(s)
  {
    SqueezedChars(s, true);
    TrimmedIsPrefix(Squeezed(s, true));
    var body := Trimmed(Squeezed(s, true));
    assert body != "" && IsDigit(body[0]) ==> ("_" + body)[1..] == body;
    if WellShaped(s) {
      assert Squeezed(s, true) == s;
    }
  }

  lemma SlugIsIdempotent(raw: string)
    ensures Slug(Slug(raw)) == Slug(raw)
  {
    SlugFixedPoints(raw);
    SlugFixedPoints(Slug(raw));
  }

  /** Runs of literal underscores are slug characters and stay. */
  lemma LiteralRunsStay(x: string, y: string)
    requires x != "" && y != "" && !IsDigit(x[0]) && !EndsInUnderscore(y)
    requires (forall i :: 0 <= i < |x| ==> SlugChar(x[i])) && forall i :: 0 <= i < |y| ==> SlugChar(y[i])
    ensures var s := x + "__" + y; Slug(s) == s && DoubleAt(s, |x|)
  {
    SlugFixedPoints(x + "__" + y);
  }

  predicate HasAlphanumeric(s: string) {
    exists i :: 0 <= i < |s| && Alphanumeric(s[i])
  }

  lemma AlphanumericCons(s: string)
    requires s != ""
    ensures HasAlphanumeric(s) <==> Alphanumeric(s[0]) || HasAlphanumeric(s[1..])
  {
    hide Alphanumeric;
    assert forall i :: 0 < i < |s| ==> s[i] == s[1..][i - 1];
    if HasAlphanumeric(s[1..]) {
      var i :| 0 <= i < |s[1..]| && Alphanumeric(s[1..][i]);
      assert Alphanumeric(s[i + 1]);
    }
  }

  lemma {:induction false} SqueezedHas(raw: string, sep: bool)
    ensures HasAlphanumeric(Squeezed(raw, sep)) <==> HasAlphanumeric(raw)
  {
    hide HasAlphanumeric;
    if raw == "" {
      assert Squeezed(raw, sep) == raw;
    } else {
      AlphanumericCons(raw);
      var rest := Squeezed(raw[1..], !SlugChar(raw[0]));
      SqueezedHas(raw[1..], !SlugChar(raw[0]));
      var head := if SlugChar(raw[0]) then raw[0] else '_';
      AlphanumericCons([head] + rest);
      assert ([head] + rest)[1..] == rest;
    }
  }

  lemma {:induction false} TrimmedHas(s: string)
    requires forall i :: 0 <= i < |s| ==> SlugChar(s[i])
    ensures Trimmed(s) != "" <==> HasAlphanumeric(s)
  {
    if EndsInUnderscore(s) {
      var n := |s| - 1;
      TrimmedHas(s[..n]);
      if HasAlphanumeric(s) {
        var i :| 0 <= i < |s| && Alphanumeric(s[i]);
        assert s[..n][i] == s[i];
      }
      if HasAlphanumeric(s[..n]) {
        var i :| 0 <= i < n && Alphanumeric(s[..n][i]);
        assert Alphanumeric(s[i]);
      }
    } else if s != "" {
      assert SlugChar(s[|s| - 1]) && Alphanumeric(s[|s| - 1]);
    }
  }

  /** A slug is empty exactly when the tool's name has no ASCII letter or digit. */
  lemma SlugEmptyIff(raw: string)
    ensures Slug(raw) != "" <==> HasAlphanumeric(raw)
  {
    hide HasAlphanumeric;
    SqueezedChars(raw, true);
    SqueezedHas(raw, true);
    TrimmedHas(Squeezed(raw, true));
  }

  // ---------- Double underscores in slugs ----------

  predicate HasDouble(s: string) {
    exists i :: 0 <= i < |s| && DoubleAt(s, i)
  }

  /** A double underscore that trimming leaves. */
  predicate KeptAt(s: string, i: int) {
    DoubleAt(s, i) && HasAlphanumeric(s[i + 2..])
  }

  predicate KeepsDouble(s: string) {
    exists i :: 0 <= i < |s| && KeptAt(s, i)
  }

  /**
   * Two neighbours become two underscores: neither is a letter or digit, one is a literal `_`, and a letter or digit
   * follows.  If the first is not the `_`, it must not belong to a run at the very start (`started` rules that out).
   */
  predicate JoinsAt(raw: string, started: bool, i: int) {
    && 0 <= i && i + 1 < |raw| && !Alphanumeric(raw[i]) && !Alphanumeric(raw[i + 1])
    && (raw[i] == '_' || (raw[i + 1] == '_' && (started || exists k :: 0 <= k < i && SlugChar(raw[k]))))
    && HasAlphanumeric(raw[i + 2..])
  }

  predicate Joins(raw: string, started: bool) {
    exists i :: 0 <= i < |raw| && JoinsAt(raw, started, i)
  }

  lemma KeepsCons(c: char, s: string)
    ensures KeepsDouble([c] + s) <==>
              (c == '_' && s != "" && s[0] == '_' && HasAlphanumeric(s[1..])) || KeepsDouble(s)
  {
    hide HasAlphanumeric;
    var all := [c] + s;
    forall i | 0 <= i < |s| ensures KeptAt(all, i + 1) <==> KeptAt(s, i) {
      if i + 2 <= |s| {
        assert all[i + 1 + 2..] == s[i + 2..];
      }
    }
    if s != "" {
      assert all[2..] == s[1..];
      assert KeptAt(all, 0) <==> c == '_' && s[0] == '_' && HasAlphanumeric(s[1..]);
    }
    hide KeptAt;
    if i :| 0 <= i < |all| && KeptAt(all, i) && i > 0 {
      assert KeptAt(s, i - 1);
    }
    if i :| 0 <= i < |s| && KeptAt(s, i) {
      assert KeptAt(all, i + 1);
    }
  }

  lemma JoinsCons(raw: string, started: bool)
    requires raw != ""
    ensures var rest, c := raw[1..], raw[0];
            Joins(raw, started) <==>
              || (rest != "" && !Alphanumeric(c) && !Alphanumeric(rest[0]) && HasAlphanumeric(rest[1..])
                  && (c == '_' || (rest[0] == '_' && started)))
              || Joins(rest, started || SlugChar(c))
  {
    hide HasAlphanumeric;
    var rest, started' := raw[1..], started || SlugChar(raw[0]);
    if rest != "" {
      assert raw[2..] == rest[1..];
      assert JoinsAt(raw, started, 0) <==> !Alphanumeric(raw[0]) && !Alphanumeric(rest[0]) && HasAlphanumeric(rest[1..])
                                           && (raw[0] == '_' || (rest[0] == '_' && started));
    }
    forall i | 0 <= i < |rest| ensures JoinsAt(raw, started, i + 1) <==> JoinsAt(rest, started', i) {
      LaterJoins(raw, started, i);
    }
    hide JoinsAt, Alphanumeric;
    if i :| 0 <= i < |raw| && JoinsAt(raw, started, i) && i > 0 {
      assert JoinsAt(rest, started', i - 1);
    }
    if i :| 0 <= i < |rest| && JoinsAt(rest, started', i) {
      assert JoinsAt(raw, started, i + 1);
    }
  }

  lemma LaterJoins(raw: string, started: bool, i: nat)
    requires i + 1 < |raw|
    ensures JoinsAt(raw, started, i + 1) <==> JoinsAt(raw[1..], started || SlugChar(raw[0]), i)
  {
    hide SlugChar, Alphanumeric, HasAlphanumeric;
    var rest := raw[1..];
    if i + 2 < |raw| {
      assert raw[i + 1 + 2..] == rest[i + 2..];
    }
    if k :| 0 <= k < i && SlugChar(rest[k]) {
      assert SlugChar(raw[k + 1]);
    }
    if k :| 0 <= k < i + 1 && SlugChar(raw[k]) && k > 0 {
      assert SlugChar(rest[k - 1]);
    }
  }

  /** The first character after a slug character. */
  lemma SqueezedHead(raw: string)
    ensures var s := Squeezed(raw, false);
            && (s != "" <==> raw != "")
            && (raw != "" ==> (s[0] == '_' <==> !Alphanumeric(raw[0])))
            && (raw != "" && !Alphanumeric(raw[0]) ==> (HasAlphanumeric(s[1..]) <==> HasAlphanumeric(raw[1..])))
  {
    hide HasAlphanumeric;
    if raw != "" {
      var s := Squeezed(raw, false);
      SqueezedHas(raw, false);
      AlphanumericCons(raw);
      AlphanumericCons(s);
    }
  }

  lemma {:induction false} SqueezedJoins(raw: string, sep: bool)
    ensures KeepsDouble(Squeezed(raw, sep)) <==> Joins(raw, !sep)
  {
    assert !Alphanumeric('_');
    hide HasAlphanumeric, KeepsDouble, Joins, Alphanumeric;
    if raw == "" {
      NothingJoins();
    } else {
      var c, rest := raw[0], raw[1..];
      JoinsCons(raw, !sep);
      SqueezedHead(rest);
      if SlugChar(c) {
        KeepsCons(c, Squeezed(rest, false));
        SqueezedJoins(rest, false);
      } else if sep {
        SqueezedJoins(rest, true);
      } else if rest != "" && !SlugChar(rest[0]) {
        SqueezedJoins(rest, false);
      } else {
        SqueezedJoins(rest, false);
        KeepsCons('_', Squeezed(rest, false));
        assert rest == "" ==> Squeezed(rest, true) == Squeezed(rest, false);
      }
    }
  }

  lemma NothingJoins()
    ensures !KeepsDouble("") && !Joins("", true) && !Joins("", false)
  {
  }

  lemma {:induction false} TrimmedDouble(s: string)
    requires forall i :: 0 <= i < |s| ==> SlugChar(s[i])
    ensures HasDouble(Trimmed(s)) <==> KeepsDouble(s)
  {
    hide Alphanumeric, SlugChar;
    if EndsInUnderscore(s) {
      var init := s[..|s| - 1];
      TrimmedDouble(init);
      forall i | 0 <= i < |init| ensures KeptAt(s, i) <==> KeptAt(init, i) {
        if i + 2 < |s| {
          EndPlaysNoPart(s[i + 2..]);
          assert s[i + 2..][..|s[i + 2..]| - 1] == init[i + 2..];
        } else {
          assert s[i + 2..] == "";
        }
      }
      assert !KeptAt(s, |s| - 1);
    } else {
      forall i | DoubleAt(s, i) ensures KeptAt(s, i) {
        EndsWithAlphanumeric(s, i + 2);
      }
    }
  }

  lemma EndPlaysNoPart(s: string)
    requires EndsInUnderscore(s)
    ensures HasAlphanumeric(s) <==> HasAlphanumeric(s[..|s| - 1])
  {
    var init := s[..|s| - 1];
    if i :| 0 <= i < |init| && Alphanumeric(init[i]) {
      assert Alphanumeric(s[i]);
    }
    if i :| 0 <= i < |s| && Alphanumeric(s[i]) {
      assert Alphanumeric(init[i]);
    }
  }

  lemma EndsWithAlphanumeric(s: string, n: nat)
    requires (forall i :: 0 <= i < |s| ==> SlugChar(s[i])) && !EndsInUnderscore(s) && 0 < n <= |s| && s[n - 1] == '_'
    ensures HasAlphanumeric(s[n..])
  {
    var last := s[|s| - 1];
    assert SlugChar(last);
    assert s[n..][|s| - n - 1] == last;
  }

  /**
   * Exactly when a slug holds a double underscore: when two neighbours in the tool's name, neither of them a letter or
   * digit and one of them a literal `_`, are followed by a letter or digit; a run of other characters at the very start,
   * which leaves no trace, does not count.
   */
  lemma SlugDoubleIff(raw: string)
    ensures HasDouble(Slug(raw)) <==> Joins(raw, false)
  {
    hide KeepsDouble, Joins;
    var body := Trimmed(Squeezed(raw, true));
    SqueezedChars(raw, true);
    SqueezedJoins(raw, true);
    TrimmedDouble(Squeezed(raw, true));
    if body != "" && IsDigit(body[0]) {
      var s := "_" + body;
      forall i | 0 <= i < |body| && DoubleAt(body, i) ensures DoubleAt(s, i + 1) {
      }
      forall i | 0 <= i < |s| && DoubleAt(s, i) ensures i > 0 && DoubleAt(body, i - 1) {
      }
    }
  }

  // ---------- The codec ----------

  function QualifiedName(server: string, tool: string): string {
    PREFIX + server + SEPARATOR + Slug(tool)
  }

  /** Where the first double underscore is, or the length of `s`. */
  function FirstDouble(s: string, from: nat): (i: nat)
    requires from <= |s|
    ensures from <= i <= |s|
    ensures i < |s| ==> DoubleAt(s, i)
    ensures forall j :: from <= j < i ==> !DoubleAt(s, j)
    decreases |s| - from
  {
    if from == |s| || DoubleAt(s, from) then from else FirstDouble(s, from + 1)
  }

  function Split(qualified: string): Option<(string, string)> {
    if !(PREFIX <= qualified) then None
    else
      var rest := qualified[|PREFIX|..];
      var i := FirstDouble(rest, 0);
      if i == |rest| || i == 0 || i + 2 == |rest| then None
      else Some((rest[..i], rest[i + 2..]))
  }

  /** For a valid server the split falls on the separator, unless the server ends in `_`: then one byte earlier. */
  lemma SplitPoint(server: string, slug: string)
    requires ValidServer(server)
    ensures FirstDouble(server + SEPARATOR + slug, 0) == if EndsInUnderscore(server) then |server| - 1 else |server|
  {
    var rest := server + SEPARATOR + slug;
    var at := if EndsInUnderscore(server) then |server| - 1 else |server|;
    assert DoubleAt(rest, at);
    forall j | 0 <= j < at ensures !DoubleAt(rest, j) {
      assert !DoubleAt(server, j);
    }
  }

  /**
   * Splitting gives back server and slug exactly when the server does not end in `_` and the tool's name has a letter
   * or digit.
   */
  lemma RoundTrip(server: string, tool: string)
    requires ValidServer(server)
    ensures Split(QualifiedName(server, tool)) == Some((server, Slug(tool)))
       <==> !EndsInUnderscore(server) && HasAlphanumeric(tool)
  {
    SlugEmptyIff(tool);
    hide HasAlphanumeric;
    hide Slug, ValidServer;
    var slug := Slug(tool);
    var rest := server + SEPARATOR + slug;
    assert QualifiedName(server, tool)[|PREFIX|..] == rest;
    SplitPoint(server, slug);
    assert rest[..|server|] == server && rest[|server| + 2..] == slug;
    assert |server| > 0 by { ServerIsNotEmpty(server); }
  }

  lemma ServerIsNotEmpty(server: string)
    requires ValidServer(server)
    ensures server != ""
  {
  }

  /** On such pairs different names stay different. */
  lemma QualifiedNamesAreInjective(s1: string, t1: string, s2: string, t2: string)
    requires ValidServer(s1) && ValidServer(s2) && !EndsInUnderscore(s1) && !EndsInUnderscore(s2)
    requires HasAlphanumeric(t1) && HasAlphanumeric(t2)
    requires QualifiedName(s1, t1) == QualifiedName(s2, t2)
    ensures s1 == s2 && Slug(t1) == Slug(t2)
  {
    hide Slug, ValidServer, QualifiedName, Split;
    RoundTrip(s1, t1);
    RoundTrip(s2, t2);
  }

  lemma ReservedStaysReserved(server: string)
    ensures "mcp_" <= server + "_" ==> "mcp_" <= server || server == "mcp"
  {
    var longer := server + "_";
    assert |server| == 3 && "mcp_" <= longer ==> server == longer[..3] == "mcp";
    assert |server| > 3 && "mcp_" <= longer ==> server[..4] == longer[..4];
  }

  /** A valid server name may end in `_`, and then another server has a tool of the same qualified name. */
  lemma TrailingUnderscoreCollides(server: string, slug: string)
    requires ValidServer(server) && !EndsInUnderscore(server) && |server| < MAX_SERVER_LENGTH
    requires server != "mcp" && WellShaped(slug) && slug != ""
    ensures ValidServer(server + "_")
    ensures QualifiedName(server + "_", slug) == QualifiedName(server, "_" + slug)
  {
    var longer := server + "_";
    forall i ensures !DoubleAt(longer, i) {
      assert !DoubleAt(server, i);
    }
    ReservedStaysReserved(server);
    SlugFixedPoints(slug);
    SlugFixedPoints("_" + slug);
    assert ("_" + slug)[|slug|] == slug[|slug| - 1];
    assert PREFIX + longer + SEPARATOR + slug == PREFIX + server + SEPARATOR + ("_" + slug);
  }
}
