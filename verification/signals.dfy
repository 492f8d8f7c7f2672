/// The change-propagation semantics of the reactive cells the front end uses:
/// a `Mutable` written with `set_neq` and a signal passed through `dedupe()`
/// both let a value through only when it differs from the one before it.
/// A signal is modelled as the finite sequence of values it carries.
module Signals {

  /** `signal.map(f)`: applies `f` to every value, in order. */
  function Map<T, U>(f: T -> U, s: seq<T>): (r: seq<U>)
    ensures |r| == |s|
    ensures forall i :: 0 <= i < |s| ==> r[i] == f(s[i])
  {
    if s == [] then [] else [f(s[0])] + Map(f, s[1..])
  }

  /** The values of `s` that differ from the value before them; `prev` is the
      value already observed when `s` starts. */
  function DedupeAfter<T(==)>(prev: T, s: seq<T>): (r: seq<T>)
    ensures |r| <= |s|
  {
    if s == [] then []
    else if s[0] == prev then DedupeAfter(prev, s[1..])
    else [s[0]] + DedupeAfter(s[0], s[1..])
  }

  /** `dedupe()`: the first value, then every value that differs from its
      predecessor; it never lengthens a signal, lets its first value through,
      and is empty only for an empty signal. */
  function Dedupe<T(==)>(s: seq<T>): (r: seq<T>)
    ensures |r| <= |s|
    ensures r == [] <==> s == []
    ensures s != [] ==> r[0] == s[0]
  {
    if s == [] then [] else [s[0]] + DedupeAfter(s[0], s[1..])
  }

  /** No two consecutive values are equal. */
  predicate NoRepeats<T(==)>(s: seq<T>)
  {
    forall i :: 0 < i < |s| ==> s[i] != s[i - 1]
  }

  lemma {:induction false} DedupeAfterNoRepeats<T>(prev: T, s: seq<T>)
    ensures NoRepeats([prev] + DedupeAfter(prev, s))
  {
    if s == [] {
    } else if s[0] == prev {
      DedupeAfterNoRepeats(prev, s[1..]);
    } else {
      DedupeAfterNoRepeats(s[0], s[1..]);
      assert [prev] + DedupeAfter(prev, s) == [prev] + ([s[0]] + DedupeAfter(s[0], s[1..]));
    }
  }

  /** After `dedupe()` a signal never carries the same value twice in a row. */
  lemma DedupeNoRepeats<T>(s: seq<T>)
    ensures NoRepeats(Dedupe(s))
  {
    if s != [] {
      DedupeAfterNoRepeats(s[0], s[1..]);
    }
  }

  lemma {:induction false} DedupeAfterValues<T>(prev: T, s: seq<T>)
    ensures forall x :: x in DedupeAfter(prev, s) ==> x in s
    ensures forall x :: x in s ==> x in DedupeAfter(prev, s) || x == prev
    ensures s != [] && s[|s| - 1] != prev ==> DedupeAfter(prev, s) != [] && DedupeAfter(prev, s)[|DedupeAfter(prev, s)| - 1] == s[|s| - 1]
    ensures s != [] && s[|s| - 1] == prev ==> DedupeAfter(prev, s) == [] || DedupeAfter(prev, s)[|DedupeAfter(prev, s)| - 1] == s[|s| - 1]
  {
    if s == [] {
    } else if s[0] == prev {
      DedupeAfterValues(prev, s[1..]);
      assert forall x :: x in s ==> x == s[0] || x in s[1..];
    } else {
      DedupeAfterValues(s[0], s[1..]);
      assert forall x :: x in s ==> x == s[0] || x in s[1..];
    }
  }

  /** `dedupe()` drops repetitions only: every value seen is still seen, and
      the latest value (the signal's current value) is the latest one emitted. */
  lemma DedupeKeepsValues<T>(s: seq<T>)
    ensures forall x :: x in Dedupe(s) <==> x in s
    ensures s != [] ==> Dedupe(s) != [] && Dedupe(s)[|Dedupe(s)| - 1] == s[|s| - 1]
  {
    if s != [] {
      DedupeAfterValues(s[0], s[1..]);
      assert forall x :: x in s ==> x == s[0] || x in s[1..];
    }
  }

  lemma {:induction false} DedupeAfterMap<T, U>(f: T -> U, prev: T, s: seq<T>)
    ensures DedupeAfter(f(prev), Map(f, DedupeAfter(prev, s))) == DedupeAfter(f(prev), Map(f, s))
  {
    if s == [] {
    } else if s[0] == prev {
      DedupeAfterMap(f, prev, s[1..]);
    } else {
      var rest := DedupeAfter(s[0], s[1..]);
      DedupeAfterMap(f, s[0], s[1..]);
      assert Map(f, [s[0]] + rest) == [f(s[0])] + Map(f, rest);
    }
  }

  /** Deduplicating before a `map` changes nothing once the mapped signal is
      deduplicated again: `s.dedupe().map(f).dedupe()` carries the same
      values as `s.map(f).dedupe()`. */
  lemma DedupeMapDedupe<T, U>(f: T -> U, s: seq<T>)
    ensures Dedupe(Map(f, Dedupe(s))) == Dedupe(Map(f, s))
  {
    if s != [] {
      var rest := DedupeAfter(s[0], s[1..]);
      assert Map(f, [s[0]] + rest) == [f(s[0])] + Map(f, rest);
      DedupeAfterMap(f, s[0], s[1..]);
    }
  }
}
