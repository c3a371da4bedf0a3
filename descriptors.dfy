/**
 * Type descriptors of the heterogeneous container and the reference
 * definitions the canonicaliser is measured against.
 *
 * A descriptor is either a plain (non-container) type, identified by a
 * number, or a nested container shape `CustomTuple<items...>` given by its
 * own, not yet canonical, argument list.
 */
module Descriptors {

  datatype Desc = Plain(id: nat) | Tuple(items: seq<Desc>)

  datatype Option<+T> = None | Some(value: T)

  /** Number of plain descriptors at any depth of a list. */
  function Leaves(xs: seq<Desc>): nat
    decreases xs
  {
    if xs == [] then 0 else LeavesOf(xs[0]) + Leaves(xs[1..])
  }

  function LeavesOf(d: Desc): nat
    decreases d
  {
    match d
    case Plain(_) => 1
    case Tuple(ys) => Leaves(ys)
  }

  /** Number of descriptors, plain or nested, at any depth of a list. */
  function Weight(xs: seq<Desc>): nat
    decreases xs
  {
    if xs == [] then 0 else WeightOf(xs[0]) + Weight(xs[1..])
  }

  function WeightOf(d: Desc): nat
    decreases d
  {
    match d
    case Plain(_) => 1
    case Tuple(ys) => 1 + Weight(ys)
  }

  /** The plain types of a list, left to right, at any depth: the
   *  declaration order before any container is dropped or any duplicate
   *  removed. */
  function Flatten(xs: seq<Desc>): seq<nat>
    decreases xs
  {
    if xs == [] then [] else FlattenOf(xs[0]) + Flatten(xs[1..])
  }

  function FlattenOf(d: Desc): seq<nat>
    decreases d
  {
    match d
    case Plain(t) => [t]
    case Tuple(ys) => Flatten(ys)
  }

  /** Keeps the last occurrence of every value, in the order of those last
   *  occurrences. */
  function Dedup(s: seq<nat>): seq<nat>
  {
    if s == [] then []
    else if s[0] in s[1..] then Dedup(s[1..])
    else [s[0]] + Dedup(s[1..])
  }

  /** The elements of `s` that do not occur in `c`, in order. */
  function Without(s: seq<nat>, c: seq<nat>): seq<nat>
  {
    if s == [] then []
    else if s[0] in c then Without(s[1..], c)
    else [s[0]] + Without(s[1..], c)
  }

  predicate NoDuplicates(s: seq<nat>)
  {
    forall i, j :: 0 <= i < j < |s| ==> s[i] != s[j]
  }

  /** A list of plain descriptors, one per element of `s`. */
  function Plains(s: seq<nat>): (r: seq<Desc>)
    ensures |r| == |s|
    ensures forall i :: 0 <= i < |s| ==> r[i] == Plain(s[i])
  {
    if s == [] then [] else [Plain(s[0])] + Plains(s[1..])
  }

  /** The position of the last occurrence of `x` in `s`. */
  function LastIndex(s: seq<nat>, x: nat): (k: nat)
    requires x in s
    ensures k < |s| && s[k] == x
    ensures forall m :: k < m < |s| ==> s[m] != x
  {
    if s[0] == x && x !in s[1..] then 0 else 1 + LastIndex(s[1..], x)
  }

  lemma {:induction false} FlattenAppend(a: seq<Desc>, b: seq<Desc>)
    ensures Flatten(a + b) == Flatten(a) + Flatten(b)
  {
    if a == [] {
      assert a + b == b;
    } else {
      assert (a + b)[0] == a[0] && (a + b)[1..] == a[1..] + b;
      FlattenAppend(a[1..], b);
    }
  }

  /** One descriptor in front of a list. */
  lemma ConsFacts(d: Desc, rest: seq<Desc>)
    ensures ([d] + rest)[0] == d && ([d] + rest)[1..] == rest
    ensures Leaves([d] + rest) == LeavesOf(d) + Leaves(rest)
    ensures Flatten([d] + rest) == FlattenOf(d) + Flatten(rest)
  {
    var xs := [d] + rest;
    assert xs[0] == d && xs[1..] == rest;
  }

  lemma FlattenOfTwo(x: Desc, y: Desc)
    ensures Flatten([x, y]) == FlattenOf(x) + FlattenOf(y)
  {
    assert [x, y][1..] == [y];
    assert [y][1..] == [];
    assert Flatten([y]) == FlattenOf(y) + [];
    assert FlattenOf(y) + [] == FlattenOf(y);
  }

  lemma FlattenOfThree(x: Desc, y: Desc, z: Desc)
    ensures Flatten([x, y, z]) == FlattenOf(x) + FlattenOf(y) + FlattenOf(z)
  {
    assert [x, y, z][1..] == [y, z];
    FlattenOfTwo(y, z);
  }

  /** Dedup drops repeats only: it keeps every value of its input and adds none. */
  lemma {:induction false} DedupElements(s: seq<nat>)
    ensures forall x :: x in Dedup(s) <==> x in s
  {
    if s != [] {
      DedupElements(s[1..]);
    }
  }

  lemma DedupEmpty(s: seq<nat>)
    ensures Dedup(s) == [] <==> s == []
  {
    DedupElements(s);
    if s != [] {
      assert s[0] in Dedup(s);
    }
  }

  lemma {:induction false} DedupNoDuplicates(s: seq<nat>)
    ensures NoDuplicates(Dedup(s))
  {
    if s != [] {
      DedupNoDuplicates(s[1..]);
      DedupElements(s[1..]);
    }
  }

  /** A list without repeats is its own Dedup. */
  lemma {:induction false} DedupOfDistinct(s: seq<nat>)
    requires NoDuplicates(s)
    ensures Dedup(s) == s
  {
    if s != [] {
      assert s == [s[0]] + s[1..];
      DedupOfDistinct(s[1..]);
    }
  }

  /** Kept values follow the order of their last occurrences. */
  lemma {:induction false} DedupKeepsLastOccurrenceOrder(s: seq<nat>, i: nat, j: nat)
    requires i < j < |Dedup(s)|
    ensures Dedup(s)[i] in s && Dedup(s)[j] in s
    ensures LastIndex(s, Dedup(s)[i]) < LastIndex(s, Dedup(s)[j])
    decreases |s|, 1
  {
    if s[0] in s[1..] {
      DedupOrderDropHead(s, i, j);
    } else {
      DedupOrderKeepHead(s, i, j);
    }
  }

  /** The inductive step when the head of `s` reappears later and is dropped. */
  lemma {:induction false} DedupOrderDropHead(s: seq<nat>, i: nat, j: nat)
    requires i < j < |Dedup(s)| && s[0] in s[1..]
    ensures Dedup(s)[i] in s && Dedup(s)[j] in s
    ensures LastIndex(s, Dedup(s)[i]) < LastIndex(s, Dedup(s)[j])
    decreases |s|, 0
  {
    var t := s[1..];
    var d := Dedup(s);
    assert d == Dedup(t);
    DedupKeepsLastOccurrenceOrder(t, i, j);
    LastIndexOfTail(s, d[i], d[j]);
  }

  /** The inductive step when the head of `s` is its last occurrence and is
   *  kept in front. */
  lemma {:induction false} DedupOrderKeepHead(s: seq<nat>, i: nat, j: nat)
    requires i < j < |Dedup(s)| && s != [] && s[0] !in s[1..]
    ensures Dedup(s)[i] in s && Dedup(s)[j] in s
    ensures LastIndex(s, Dedup(s)[i]) < LastIndex(s, Dedup(s)[j])
    decreases |s|, 0
  {
    var t := s[1..];
    var dt := Dedup(t);
    assert Dedup(s) == [s[0]] + dt;
    var y := dt[j - 1];
    assert Dedup(s)[j] == y;
    DedupMember(t, y);
    LastIndexOfTail(s, y, y);
    if i == 0 {
      assert Dedup(s)[0] == s[0];
      assert LastIndex(s, s[0]) == 0;
    } else {
      var x := dt[i - 1];
      assert Dedup(s)[i] == x;
      DedupKeepsLastOccurrenceOrder(t, i - 1, j - 1);
      LastIndexOfTail(s, x, y);
    }
  }

  lemma DedupMember(s: seq<nat>, x: nat)
    requires x in Dedup(s)
    ensures x in s
  {
    DedupElements(s);
  }

  lemma LastIndexOfTail(s: seq<nat>, x: nat, y: nat)
    requires s != [] && x in s[1..] && y in s[1..]
    ensures x in s && LastIndex(s, x) == 1 + LastIndex(s[1..], x)
    ensures y in s && LastIndex(s, y) == 1 + LastIndex(s[1..], y)
  {
  }

  /** Appending `c` removes from the Dedup of `a` exactly the values that
   *  reappear in `c`, so `Dedup(a + c)` depends on `a` only through
   *  `Dedup(a)`. */
  lemma {:induction false} DedupAppend(a: seq<nat>, c: seq<nat>)
    ensures Dedup(a + c) == Without(Dedup(a), c) + Dedup(c)
  {
    if a == [] {
      assert a + c == c;
    } else {
      assert (a + c)[0] == a[0] && (a + c)[1..] == a[1..] + c;
      DedupAppend(a[1..], c);
      DedupElements(a[1..]);
      if a[0] !in a[1..] {
        assert Dedup(a) == [a[0]] + Dedup(a[1..]);
      }
    }
  }

  /** `Without` depends on its second argument only through membership. */
  lemma {:induction false} WithoutSameMembers(s: seq<nat>, c: seq<nat>, c': seq<nat>)
    requires forall x :: x in c <==> x in c'
    ensures Without(s, c) == Without(s, c')
  {
    if s != [] {
      WithoutSameMembers(s[1..], c, c');
    }
  }

  /** Appending lists with the same Dedup to lists with the same Dedup gives
   *  lists with the same Dedup. */
  lemma DedupAppendCongruent(a: seq<nat>, a': seq<nat>, c: seq<nat>, c': seq<nat>)
    requires Dedup(a) == Dedup(a') && Dedup(c) == Dedup(c')
    ensures Dedup(a + c) == Dedup(a' + c')
  {
    DedupAppend(a, c);
    DedupAppend(a', c');
    DedupElements(c);
    DedupElements(c');
    WithoutSameMembers(Dedup(a), c, c');
  }
}
