/** Small shared vocabulary.  Text is a `string` whose elements stand for the bytes of the UTF-8 encoding. */
module Prelude {
  datatype Option<+T> = None | Some(value: T)

  predicate IsContinuation(c: char) {
    0x80 <= c as int < 0xC0
  }

  function Concat(parts: seq<string>): string {
    if parts == [] then "" else parts[0] + Concat(parts[1..])
  }

  function Count<T(==)>(xs: seq<T>, x: T): nat {
    if xs == [] then 0 else (if xs[0] == x then 1 else 0) + Count(xs[1..], x)
  }

  predicate NoDuplicates<T(==)>(xs: seq<T>) {
    forall i, j :: 0 <= i < j < |xs| ==> xs[i] != xs[j]
  }

  function SetOf<T>(xs: seq<T>): set<T> {
    set x | x in xs
  }

  function Min(a: int, b: int): int {
    if a <= b then a else b
  }

  function Max(a: int, b: int): int {
    if a <= b then b else a
  }

  // Unsigned subtraction that stops at zero.
  function SaturatingSub(a: nat, b: nat): nat {
    if a < b then 0 else a - b
  }

  lemma Glue<T>(a: seq<T>, b: seq<T>, c: seq<T>)
    ensures a + (b + c) == a + b + c
  {
  }

  lemma SamePrefix<T>(head: seq<T>, a: seq<T>, b: seq<T>)
    ensures head + a == head + b <==> a == b
  {
    assert (head + a)[|head|..] == a && (head + b)[|head|..] == b;
  }

  lemma SetOfAppend<T>(a: seq<T>, b: seq<T>)
    ensures SetOf(a + b) == SetOf(a) + SetOf(b)
  {
  }

  lemma {:induction false} CountAppend<T>(xs: seq<T>, ys: seq<T>, x: T)
    ensures Count(xs + ys, x) == Count(xs, x) + Count(ys, x)
  {
    if xs == [] {
      assert xs + ys == ys;
    } else {
      assert (xs + ys)[1..] == xs[1..] + ys;
      CountAppend(xs[1..], ys, x);
    }
  }

  lemma {:induction false} CountPositive<T>(xs: seq<T>, x: T)
    ensures x in xs <==> Count(xs, x) > 0
  {
    if xs != [] {
      assert xs == [xs[0]] + xs[1..];
      CountPositive(xs[1..], x);
    }
  }

  lemma NoDuplicatesStep<T>(xs: seq<T>)
    requires xs != []
    ensures NoDuplicates(xs) <==> xs[0] !in xs[1..] && NoDuplicates(xs[1..])
  {
    var rest := xs[1..];
    assert forall i :: 0 < i < |xs| ==> xs[i] == rest[i - 1];
    if NoDuplicates(xs) {
      forall i, j | 0 <= i < j < |rest| ensures rest[i] != rest[j] {
        assert rest[i] == xs[i + 1] && rest[j] == xs[j + 1];
      }
    }
  }

  lemma {:induction false} NoDuplicatesCount<T>(xs: seq<T>, x: T)
    requires NoDuplicates(xs)
    ensures Count(xs, x) <= 1
  {
    if xs != [] {
      NoDuplicatesStep(xs);
      NoDuplicatesCount(xs[1..], x);
      CountPositive(xs[1..], x);
    }
  }

  /** An element counted twice, when there are duplicates. */
  lemma {:induction false} Duplicate<T>(xs: seq<T>) returns (x: T)
    requires !NoDuplicates(xs)
    ensures Count(xs, x) > 1
  {
    NoDuplicatesStep(xs);
    if xs[0] in xs[1..] {
      x := xs[0];
      CountPositive(xs[1..], x);
    } else {
      x := Duplicate(xs[1..]);
    }
  }
}
