/**
 * The type-level `Map` of core/CustomTuple.h: a rule is applied to the
 * `HeadType` and to every argument of the `TailType` of the first storage
 * node, and the resulting argument list is canonicalised again.
 */
module ShapeMap {
  import opened Descriptors
  import opened Canonicalizer

  /** The argument list of `CustomTuple<xs...>::Map<rule>`. Only a shape
   *  with a first storage node has a `Map`. */
  function Map(xs: seq<Desc>, rule: Desc -> Desc): seq<Desc>
    requires Node(xs).Some?
  {
    var (h, rt) := Node(xs).value;
    [rule(Plain(h))] + seq(|rt|, i requires 0 <= i < |rt| => rule(rt[i]))
  }

  /** `f` applied to every element of `s`. */
  function Image(f: nat -> nat, s: seq<nat>): (r: seq<nat>)
  {
    if s == [] then [] else [f(s[0])] + Image(f, s[1..])
  }

  /** A rule that renames every plain type by `f` and recurses into nested
   *  containers item by item. */
  function Rename(f: nat -> nat, d: Desc): Desc
    decreases d
  {
    match d
    case Plain(t) => Plain(f(t))
    case Tuple(ys) => Tuple(RenameAll(f, ys))
  }

  function RenameAll(f: nat -> nat, ys: seq<Desc>): (r: seq<Desc>)
    ensures |r| == |ys|
    ensures forall i :: 0 <= i < |ys| ==> r[i] == Rename(f, ys[i])
    decreases ys
  {
    if ys == [] then [] else [Rename(f, ys[0])] + RenameAll(f, ys[1..])
  }

  lemma {:induction false} ImageAppend(f: nat -> nat, a: seq<nat>, b: seq<nat>)
    ensures Image(f, a + b) == Image(f, a) + Image(f, b)
  {
    if a == [] {
      assert a + b == b;
    } else {
      assert (a + b)[0] == a[0] && (a + b)[1..] == a[1..] + b;
      ImageAppend(f, a[1..], b);
    }
  }

  lemma {:induction false} ImageElements(f: nat -> nat, s: seq<nat>, x: nat)
    ensures x in s ==> f(x) in Image(f, s)
    ensures forall y :: y in Image(f, s) ==> exists z :: z in s && y == f(z)
  {
    if s != [] {
      ImageElements(f, s[1..], x);
    }
  }

  /** Renaming and then removing repeats gives the same list whether or not
   *  repeats were removed before the renaming. */
  lemma {:induction false} DedupImage(f: nat -> nat, s: seq<nat>)
    ensures Dedup(Image(f, s)) == Dedup(Image(f, Dedup(s)))
  {
    if s != [] {
      var t := s[1..];
      DedupImage(f, t);
      DedupElements(t);
      assert Image(f, s) == [f(s[0])] + Image(f, t);
      SameImageMembership(f, t, f(s[0]));
      var img := Image(f, s);
      assert img[0] == f(s[0]) && img[1..] == Image(f, t);
      if s[0] in t {
        ImageElements(f, t, s[0]);
        assert Dedup(s) == Dedup(t);
      } else {
        var d := [s[0]] + Dedup(t);
        assert d[0] == s[0] && d[1..] == Dedup(t);
        assert Image(f, d) == [f(s[0])] + Image(f, Dedup(t));
      }
    }
  }

  /** `s` and `Dedup(s)` have the same image. */
  lemma SameImageMembership(f: nat -> nat, s: seq<nat>, y: nat)
    ensures y in Image(f, s) <==> y in Image(f, Dedup(s))
  {
    DedupElements(s);
    ImageElements(f, s, 0);
    ImageElements(f, Dedup(s), 0);
    if y in Image(f, s) {
      var z :| z in s && y == f(z);
      ImageElements(f, Dedup(s), z);
    }
    if y in Image(f, Dedup(s)) {
      var z :| z in Dedup(s) && y == f(z);
      ImageElements(f, s, z);
    }
  }

  lemma {:induction false} FlattenRenameAll(f: nat -> nat, ys: seq<Desc>)
    ensures Flatten(RenameAll(f, ys)) == Image(f, Flatten(ys))
    decreases ys
  {
    if ys != [] {
      var r := RenameAll(f, ys);
      assert r[0] == Rename(f, ys[0]) && r[1..] == RenameAll(f, ys[1..]);
      FlattenRenameAll(f, ys[1..]);
      match ys[0]
      case Plain(t) =>
      case Tuple(zs) =>
        FlattenRenameAll(f, zs);
      ImageAppend(f, FlattenOf(ys[0]), Flatten(ys[1..]));
    }
  }

  /**
   * For a rule that renames plain types and recurses into nested
   * containers, `Map` is the canonical shape renamed type by type and then
   * canonicalised again: types that the rule sends to the same target
   * collapse into one slot, at the last position among them.
   */
  lemma MapOfRename(xs: seq<Desc>, f: nat -> nat)
    requires Node(xs).Some?
    ensures Canon(Map(xs, d => Rename(f, d))) == Dedup(Image(f, Canon(xs)))
  {
    var (h, rt) := Node(xs).value;
    var r := Map(xs, d => Rename(f, d));
    assert r == [Plain(f(h))] + RenameAll(f, rt);
    assert Flatten(r) == [f(h)] + Flatten(RenameAll(f, rt)) by {
      assert r[0] == Plain(f(h)) && r[1..] == RenameAll(f, rt);
    }
    FlattenRenameAll(f, rt);
    var src := [h] + Flatten(rt);
    assert Image(f, src) == [f(h)] + Image(f, Flatten(rt)) by {
      assert src[0] == h && src[1..] == Flatten(rt);
    }
    CanonIsDedupFlatten(r);
    DedupImage(f, src);
    NodeHeadNotDuplicate(xs);
    IsDuplicateIffFlatten(h, rt);
    CanonIsDedupFlatten(rt);
    assert Dedup(src) == [h] + Dedup(Flatten(rt)) by {
      assert src[0] == h && src[1..] == Flatten(rt);
    }
  }

  /** Every shape `Map` produces obeys the central invariant. */
  lemma MapShapeNoDuplicates(xs: seq<Desc>, rule: Desc -> Desc)
    requires Node(xs).Some?
    ensures NoDuplicates(Canon(Map(xs, rule)))
  {
    CanonNoDuplicates(Map(xs, rule));
  }
}
