/** The name codec on the bytes: which names it admits, what a slug keeps, and where a name is split. */
module NameBytes {
  import opened Prelude
  import opened NameCodec

  predicate LetterOrDigit(c: char) {
    'a' <= c <= 'z' || 'A' <= c <= 'Z' || '0' <= c <= '9'
  }

  /** The rules for server names. */
  predicate ServerRules(name: string) {
    && 1 <= |name| <= 64
    && (forall i :: 0 <= i < |name| ==>
          'a' <= name[i] <= 'z' || '0' <= name[i] <= '9' || name[i] == '_' || name[i] == '-')
    && (forall i :: 0 < i < |name| && name[i] == '_' ==> name[i - 1] != '_')
    && !(|name| >= 4 && name[0] == 'm' && name[1] == 'c' && name[2] == 'p' && name[3] == '_')
  }

  lemma ValidServerIs(name: string)
    ensures ValidServer(name) <==> ServerRules(name)
  {
    assert "mcp_" <= name <==> |name| >= 4 && name[0] == 'm' && name[1] == 'c' && name[2] == 'p' && name[3] == '_';
    if ValidServer(name) {
      forall i | 0 < i < |name| && name[i] == '_' ensures name[i - 1] != '_' {
        assert !DoubleAt(name, i - 1);
      }
    }
    if ServerRules(name) {
      forall i ensures !DoubleAt(name, i) {
        if 0 <= i && i + 1 < |name| && name[i + 1] == '_' {
          assert name[i + 1 - 1] != '_';
        }
      }
    }
  }

  /** The letters and digits of `s`, in order. */
  function LettersAndDigits(s: string): string {
    if s == "" then ""
    else (if LetterOrDigit(s[0]) then [s[0]] else "") + LettersAndDigits(s[1..])
  }

  lemma {:induction false} LettersAppend(a: string, b: string)
    ensures LettersAndDigits(a + b) == LettersAndDigits(a) + LettersAndDigits(b)
  {
    hide LetterOrDigit;
    if a == "" {
      assert a + b == b && "" + LettersAndDigits(b) == LettersAndDigits(b);
    } else {
      assert (a + b)[1..] == a[1..] + b && (a + b)[0] == a[0];
      LettersAppend(a[1..], b);
      Glue(if LetterOrDigit(a[0]) then [a[0]] else "", LettersAndDigits(a[1..]), LettersAndDigits(b));
    }
  }

  lemma OneLetter(c: char)
    ensures LettersAndDigits([c]) == (if LetterOrDigit(c) then [c] else "") && LettersAndDigits("") == ""
  {
    assert [c][1..] == "";
  }

  lemma {:induction false} SqueezedKeeps(raw: string, sep: bool)
    ensures LettersAndDigits(Squeezed(raw, sep)) == LettersAndDigits(raw)
  {
    hide LettersAndDigits;
    if raw == "" {
      OneLetter('_');
    } else {
      var c, rest := raw[0], raw[1..];
      SqueezedKeeps(rest, !SlugChar(c));
      assert raw == [c] + rest;
      LettersAppend([c], rest);
      LettersAppend([c], Squeezed(rest, false));
      LettersAppend("_", Squeezed(rest, true));
      OneLetter(c);
      OneLetter('_');
      assert "" + LettersAndDigits(rest) == LettersAndDigits(rest);
    }
  }

  lemma {:induction false} TrimmedKeeps(s: string)
    ensures LettersAndDigits(Trimmed(s)) == LettersAndDigits(s)
  {
    hide LettersAndDigits;
    if EndsInUnderscore(s) {
      var init := s[..|s| - 1];
      TrimmedKeeps(init);
      assert s == init + "_";
      LettersAppend(init, "_");
      OneLetter('_');
      assert LettersAndDigits(init) + "" == LettersAndDigits(init);
    }
  }

  /**
   * A slug keeps the letters and digits of the tool's name, in order; all else in it is underscores.  It does not start
   * with a digit and does not end in an underscore.
   */
  lemma SlugBytes(raw: string)
    ensures var s := Slug(raw);
            && LettersAndDigits(s) == LettersAndDigits(raw)
            && (forall i :: 0 <= i < |s| ==> LetterOrDigit(s[i]) || s[i] == '_')
            && (s != "" ==> !('0' <= s[0] <= '9') && s[|s| - 1] != '_')
  {
    hide LettersAndDigits, Squeezed, Trimmed;
    SlugFixedPoints(raw);
    SqueezedKeeps(raw, true);
    TrimmedKeeps(Squeezed(raw, true));
    var body := Trimmed(Squeezed(raw, true));
    LettersAppend("_", body);
    OneLetter('_');
    assert "" + LettersAndDigits(body) == LettersAndDigits(body);
  }

  /** No two underscores in a row begin before `n`. */
  predicate NoDoubleBefore(s: string, n: nat) {
    forall j :: 0 <= j < n && j + 1 < |s| ==> !(s[j] == '_' && s[j + 1] == '_')
  }

  /** A qualified name is split at its first double underscore behind the prefix; both parts must be there. */
  lemma SplitIs(qualified: string, server: string, tool: string)
    ensures Split(qualified) == Some((server, tool))
       <==> qualified == "mcp__" + server + "__" + tool && server != "" && tool != ""
            && NoDoubleBefore(server + "__" + tool, |server|)
  {
    if Split(qualified) == Some((server, tool)) {
      var rest := qualified[5..];
      var i := FirstDouble(rest, 0);
      assert qualified == "mcp__" + rest;
      assert rest == rest[..i] + "__" + rest[i + 2..];
      forall j | 0 <= j < i && j + 1 < |rest| ensures !(rest[j] == '_' && rest[j + 1] == '_') {
        assert !DoubleAt(rest, j);
      }
    }
    if qualified == "mcp__" + server + "__" + tool && server != "" && tool != ""
       && NoDoubleBefore(server + "__" + tool, |server|) {
      var rest := server + "__" + tool;
      assert qualified[5..] == rest && qualified[..5] == "mcp__";
      var i := FirstDouble(rest, 0);
      assert DoubleAt(rest, |server|);
      forall j | 0 <= j < |server| ensures !DoubleAt(rest, j) {
      }
      assert i == |server|;
      assert rest[..i] == server && rest[i + 2..] == tool;
    }
  }

  /** Nothing else is split. */
  lemma SplitFails(qualified: string)
    ensures Split(qualified) == None
       <==> forall server, tool :: !(qualified == "mcp__" + server + "__" + tool && server != "" && tool != ""
                                     && NoDoubleBefore(server + "__" + tool, |server|))
  {
    hide Split, NoDoubleBefore;
    forall server, tool
      ensures Split(qualified) == Some((server, tool))
         <==> qualified == "mcp__" + server + "__" + tool && server != "" && tool != ""
              && NoDoubleBefore(server + "__" + tool, |server|)
    {
      SplitIs(qualified, server, tool);
    }
    var r := Split(qualified);
    assert r == None || r == Some((r.value.0, r.value.1));
  }
}
