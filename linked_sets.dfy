/**
 * Kotlin's `setOf`, `mutableSetOf`, `Set + x` and `Set - xs` build insertion-ordered
 * sets (LinkedHashSet). The order is observable here: `activeStyles.forEach` stamps one
 * span per element, in that order. A set is therefore a sequence without duplicates.
 */
module LinkedSets {

  predicate NoDup<T(==,!new)>(s: seq<T>) {
    forall i, j :: 0 <= i < j < |s| ==> s[i] != s[j]
  }

  /** `set + x`: appends `x` unless it is already present. */
  function Add<T(==,!new)>(s: seq<T>, x: T): (r: seq<T>)
    ensures forall y :: y in r <==> y in s || y == x
    ensures NoDup(s) ==> NoDup(r)
    ensures x in s ==> r == s
  {
    if x in s then s else s + [x]
  }

  /** Adds each element of `xs` in turn, as repeated `MutableSet.add` calls do. */
  function AddAll<T(==,!new)>(s: seq<T>, xs: seq<T>): (r: seq<T>)
    ensures forall y :: y in r <==> y in s || y in xs
    ensures NoDup(s) ==> NoDup(r)
    decreases |xs|
  {
    if xs == [] then s else AddAll(Add(s, xs[0]), xs[1..])
  }

  /** `set - xs`: keeps the elements not in `xs`, in their order. */
  function RemoveAll<T(==,!new)>(s: seq<T>, xs: set<T>): (r: seq<T>)
    ensures forall y :: y in r <==> y in s && y !in xs
    ensures NoDup(s) ==> NoDup(r)
  {
    if s == [] then []
    else if s[0] in xs then RemoveAll(s[1..], xs)
    else [s[0]] + RemoveAll(s[1..], xs)
  }

  lemma {:induction false} RemoveAllAppend<T(!new)>(s: seq<T>, t: seq<T>, xs: set<T>)
    ensures RemoveAll(s + t, xs) == RemoveAll(s, xs) + RemoveAll(t, xs)
  {
    if s != [] {
      var st := s + t;
      assert st[0] == s[0] && st[1..] == s[1..] + t;
      RemoveAllAppend(s[1..], t, xs);
      var rest, tail := RemoveAll(s[1..], xs), RemoveAll(t, xs);
      if s[0] in xs {
        assert RemoveAll(st, xs) == RemoveAll(s[1..] + t, xs);
        assert RemoveAll(s, xs) == rest;
      } else {
        assert RemoveAll(st, xs) == [s[0]] + RemoveAll(s[1..] + t, xs);
        assert RemoveAll(s, xs) == [s[0]] + rest;
        assert [s[0]] + (rest + tail) == ([s[0]] + rest) + tail;
      }
    } else {
      assert s + t == t;
    }
  }

  lemma {:induction false} RemoveAllTwice<T(!new)>(s: seq<T>, xs: set<T>)
    ensures RemoveAll(RemoveAll(s, xs), xs) == RemoveAll(s, xs)
  {
    if s != [] {
      RemoveAllTwice(s[1..], xs);
      if s[0] !in xs {
        assert ([s[0]] + RemoveAll(s[1..], xs))[1..] == RemoveAll(s[1..], xs);
      }
    }
  }
}
