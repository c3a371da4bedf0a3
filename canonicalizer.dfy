/**
 * The shape canonicaliser of core/CustomTuple.h: the chain of partial
 * specialisations that decides, for `CustomTuple<Head, Tail...>`, whether
 * the head is dropped (an empty container or a duplicate), spliced (a
 * non-empty container) or stored in a slot.
 */
module Canonicalizer {
  import opened Descriptors

  /** 1 when the list starts with a nested container, 0 otherwise. */
  function HeadTag(xs: seq<Desc>): nat
  {
    if xs != [] && xs[0].Tuple? then 1 else 0
  }

  /**
   * The first storage node of `CustomTuple<xs...>`: its `HeadType` and the
   * raw argument list of its `TailType`, or None for a shape that resolves
   * to the empty `CustomTuple<>`.
   */
  function Node(xs: seq<Desc>): (r: Option<(nat, seq<Desc>)>)
    ensures r.Some? ==> 1 + Leaves(r.value.1) <= Leaves(xs)
    decreases Leaves(xs), HeadTag(xs), Weight(xs)
  {
    if xs == [] then None
    else match xs[0]
      case Tuple(ys) =>
        assert Leaves(xs) == Leaves(ys) + Leaves(xs[1..]);
        assert Weight(xs) == 1 + Weight(ys) + Weight(xs[1..]);
        (match Node(ys)
         case None => Node(xs[1..])
         case Some((h, rt)) =>
           var spliced := [Plain(h), Tuple(rt)] + xs[1..];
           assert spliced[0] == Plain(h);
           assert spliced[1..] == [Tuple(rt)] + xs[1..];
           assert spliced[1..][1..] == xs[1..];
           assert Leaves(spliced[1..]) == Leaves(rt) + Leaves(xs[1..]);
           // the splice keeps the leaf count and exposes a plain head
           assert HeadTag(spliced) == 0 && Leaves(spliced) <= Leaves(xs);
           Node(spliced))
      case Plain(t) =>
        assert Leaves(xs) == 1 + Leaves(xs[1..]);
        if IsDuplicate(t, xs[1..]) then Node(xs[1..]) else Some((t, xs[1..]))
  }

  /** The static `has<T>()` of `CustomTuple<xs...>`: a walk down the chain
   *  of storage nodes. */
  function Has(t: nat, xs: seq<Desc>): bool
    decreases Leaves(xs), 2, Weight(xs)
  {
    match Node(xs)
    case None => false
    case Some((h, rt)) => h == t || Has(t, rt)
  }

  /** The `is_duplicate<T, Items...>` fold: some item is `T` itself, or is a
   *  container that `has` `T`. */
  function IsDuplicate(t: nat, items: seq<Desc>): bool
    decreases Leaves(items), 3, Weight(items)
  {
    if items == [] then false
    else
      assert Leaves(items) == LeavesOf(items[0]) + Leaves(items[1..]);
      assert Weight(items) == WeightOf(items[0]) + Weight(items[1..]);
      (match items[0]
       case Plain(u) => u == t
       case Tuple(ys) => Has(t, ys))
      || IsDuplicate(t, items[1..])
  }

  /** The canonical shape: the heads of the storage nodes, in chain order. */
  function Canon(xs: seq<Desc>): seq<nat>
    decreases Leaves(xs)
  {
    match Node(xs)
    case None => []
    case Some((h, rt)) => [h] + Canon(rt)
  }

  /** Facts about the list `[Plain(h), Tuple(rt)] + rest` that replaces
   *  `[Tuple(ys)] + rest` when the head container is spliced. */
  lemma SpliceFacts(ys: seq<Desc>, h: nat, rt: seq<Desc>, rest: seq<Desc>)
    requires Node(ys) == Some((h, rt))
    ensures ([Tuple(ys)] + rest)[1..] == rest
    ensures ([Plain(h), Tuple(rt)] + rest)[1..][1..] == rest
    ensures Leaves([Plain(h), Tuple(rt)] + rest) <= Leaves([Tuple(ys)] + rest)
    ensures HeadTag([Plain(h), Tuple(rt)] + rest) == 0
    ensures Flatten([Plain(h), Tuple(rt)] + rest) == [h] + Flatten(rt) + Flatten(rest)
    ensures Flatten([Tuple(ys)] + rest) == Flatten(ys) + Flatten(rest)
  {
    assert 1 + Leaves(rt) <= Leaves(ys);
    SpliceShape(ys, h, rt, rest);
  }

  /** The list arithmetic behind `SpliceFacts`, for any head and raw tail
   *  with fewer leaves than the container they come from. */
  lemma SpliceShape(ys: seq<Desc>, h: nat, rt: seq<Desc>, rest: seq<Desc>)
    requires 1 + Leaves(rt) <= Leaves(ys)
    ensures ([Tuple(ys)] + rest)[1..] == rest
    ensures ([Plain(h), Tuple(rt)] + rest)[1..][1..] == rest
    ensures Leaves([Plain(h), Tuple(rt)] + rest) <= Leaves([Tuple(ys)] + rest)
    ensures HeadTag([Plain(h), Tuple(rt)] + rest) == 0
    ensures Flatten([Plain(h), Tuple(rt)] + rest) == [h] + Flatten(rt) + Flatten(rest)
    ensures Flatten([Tuple(ys)] + rest) == Flatten(ys) + Flatten(rest)
  {
    var tail := [Tuple(rt)] + rest;
    assert [Plain(h), Tuple(rt)] + rest == [Plain(h)] + tail;
    ConsFacts(Tuple(ys), rest);
    ConsFacts(Plain(h), tail);
    ConsFacts(Tuple(rt), rest);
  }

  /** `has<T>()` holds exactly for the plain types that occur, at any depth,
   *  in the declared list. */
  lemma {:induction false} HasIffFlatten(t: nat, xs: seq<Desc>)
    ensures Has(t, xs) <==> t in Flatten(xs)
    decreases Leaves(xs), HeadTag(xs), Weight(xs)
  {
    if xs != [] {
      var rest := xs[1..];
      assert xs == [xs[0]] + rest;
      match xs[0]
      case Tuple(ys) =>
        assert Leaves(xs) == Leaves(ys) + Leaves(rest);
        assert Weight(xs) == 1 + Weight(ys) + Weight(rest);
        assert Flatten(xs) == Flatten(ys) + Flatten(rest);
        HasIffFlatten(t, ys);
        match Node(ys) {
          case None =>
            HasIffFlatten(t, rest);
          case Some((h, rt)) =>
            SpliceFacts(ys, h, rt, rest);
            var spliced := [Plain(h), Tuple(rt)] + rest;
            HasIffFlatten(t, spliced);
            HasIffFlatten(t, rt);
        }
      case Plain(p) =>
        assert Leaves(xs) == 1 + Leaves(rest);
        HasIffFlatten(t, rest);
        if IsDuplicate(p, rest) {
          IsDuplicateIffFlatten(p, rest);
        }
    }
  }

  /** `is_duplicate<T, Items...>` holds exactly when `T` occurs, at any
   *  depth, among the items. */
  lemma {:induction false} IsDuplicateIffFlatten(t: nat, items: seq<Desc>)
    ensures IsDuplicate(t, items) <==> t in Flatten(items)
    decreases Leaves(items), 2, Weight(items)
  {
    if items != [] {
      var rest := items[1..];
      assert Leaves(items) == LeavesOf(items[0]) + Leaves(rest);
      assert Weight(items) == WeightOf(items[0]) + Weight(rest);
      IsDuplicateIffFlatten(t, rest);
      if items[0].Tuple? {
        HasIffFlatten(t, items[0].items);
      }
    }
  }

  /** A type gets a storage node only when `is_duplicate` does not hold of
   *  it against the node's raw tail. */
  lemma {:induction false} NodeHeadNotDuplicate(xs: seq<Desc>)
    ensures Node(xs).Some? ==> !IsDuplicate(Node(xs).value.0, Node(xs).value.1)
    decreases Leaves(xs), HeadTag(xs), Weight(xs)
  {
    if xs != [] {
      var rest := xs[1..];
      assert xs == [xs[0]] + rest;
      match xs[0]
      case Tuple(ys) =>
        assert Leaves(xs) == Leaves(ys) + Leaves(rest);
        assert Weight(xs) == 1 + Weight(ys) + Weight(rest);
        match Node(ys) {
          case None =>
            NodeHeadNotDuplicate(rest);
          case Some((h, rt)) =>
            SpliceFacts(ys, h, rt, rest);
            NodeHeadNotDuplicate([Plain(h), Tuple(rt)] + rest);
        }
      case Plain(p) =>
        assert Leaves(xs) == 1 + Leaves(rest);
        NodeHeadNotDuplicate(rest);
    }
  }

  /** The plain-head specialisation: a plain head that reappears anywhere
   *  in the tail is dropped, any other plain head gets the node. */
  lemma NodeOfPlainHead(t: nat, rest: seq<Desc>)
    ensures t in Flatten(rest) ==> Node([Plain(t)] + rest) == Node(rest)
    ensures t !in Flatten(rest) ==> Node([Plain(t)] + rest) == Some((t, rest))
  {
    var xs := [Plain(t)] + rest;
    assert xs[0] == Plain(t) && xs[1..] == rest;
    IsDuplicateIffFlatten(t, rest);
  }

  /** The container-head specialisations: an empty container is dropped,
   *  a non-empty one is replaced by its first node's head and raw tail. */
  lemma NodeOfNestedHead(ys: seq<Desc>, rest: seq<Desc>)
    ensures Node(ys).None? ==> Node([Tuple(ys)] + rest) == Node(rest)
    ensures Node(ys).Some? ==>
      Node([Tuple(ys)] + rest) == Node([Plain(Node(ys).value.0), Tuple(Node(ys).value.1)] + rest)
  {
    var xs := [Tuple(ys)] + rest;
    assert xs[0] == Tuple(ys) && xs[1..] == rest;
  }

  /**
   * The canonical shape is the declared list flattened to its plain types,
   * with every repeated type kept only at its last occurrence: nested
   * containers are spliced, empty ones contribute nothing, and an earlier
   * duplicate always gives way to a later one.
   */
  lemma {:induction false} CanonIsDedupFlatten(xs: seq<Desc>)
    ensures Canon(xs) == Dedup(Flatten(xs))
    decreases Leaves(xs), HeadTag(xs), Weight(xs)
  {
    if xs != [] {
      var rest := xs[1..];
      assert xs == [xs[0]] + rest;
      match xs[0]
      case Tuple(ys) =>
        assert Leaves(xs) == Leaves(ys) + Leaves(rest);
        assert Weight(xs) == 1 + Weight(ys) + Weight(rest);
        assert Flatten(xs) == Flatten(ys) + Flatten(rest);
        CanonIsDedupFlatten(ys);
        CanonIsDedupFlatten(rest);
        DedupAppend(Flatten(ys), Flatten(rest));
        match Node(ys) {
          case None =>
            DedupEmpty(Flatten(ys));
          case Some((h, rt)) =>
            SpliceFacts(ys, h, rt, rest);
            var spliced := [Plain(h), Tuple(rt)] + rest;
            CanonIsDedupFlatten(spliced);
            CanonIsDedupFlatten(rt);
            NodeHeadNotDuplicate(ys);
            IsDuplicateIffFlatten(h, rt);
            var head := [h] + Flatten(rt);
            assert Dedup(head) == [h] + Dedup(Flatten(rt)) by {
              assert head[0] == h && head[1..] == Flatten(rt);
            }
            DedupAppend(head, Flatten(rest));
        }
      case Plain(p) =>
        assert Leaves(xs) == 1 + Leaves(rest);
        assert Flatten(xs) == [p] + Flatten(rest);
        CanonIsDedupFlatten(rest);
        IsDuplicateIffFlatten(p, rest);
    }
  }

  /** No type has two slots. */
  lemma CanonNoDuplicates(xs: seq<Desc>)
    ensures NoDuplicates(Canon(xs))
  {
    CanonIsDedupFlatten(xs);
    DedupNoDuplicates(Flatten(xs));
  }

  /** Canonicalisation neither loses nor invents a plain type. */
  lemma CanonElements(xs: seq<Desc>)
    ensures forall t :: t in Canon(xs) <==> t in Flatten(xs)
  {
    CanonIsDedupFlatten(xs);
    DedupElements(Flatten(xs));
  }

  /** `has<T>()` is membership in the canonical shape. */
  lemma HasIffInCanon(t: nat, xs: seq<Desc>)
    ensures Has(t, xs) <==> t in Canon(xs)
  {
    HasIffFlatten(t, xs);
    CanonElements(xs);
  }

  /** A shape resolves to the empty `CustomTuple<>` exactly when it holds no
   *  plain type at any depth, e.g. `CustomTuple<CustomTuple<>>`. */
  lemma EmptyShapeIff(xs: seq<Desc>)
    ensures Node(xs).None? <==> Flatten(xs) == []
  {
    CanonIsDedupFlatten(xs);
    DedupEmpty(Flatten(xs));
  }

  /** The slots appear in the order of the last occurrences of their types
   *  in the flattened declaration. */
  lemma CanonKeepsLastOccurrenceOrder(xs: seq<Desc>, i: nat, j: nat)
    requires i < j < |Canon(xs)|
    ensures Canon(xs)[i] in Flatten(xs) && Canon(xs)[j] in Flatten(xs)
    ensures LastIndex(Flatten(xs), Canon(xs)[i]) < LastIndex(Flatten(xs), Canon(xs)[j])
  {
    CanonIsDedupFlatten(xs);
    DedupKeepsLastOccurrenceOrder(Flatten(xs), i, j);
  }

  lemma {:induction false} FlattenPlains(s: seq<nat>)
    ensures Flatten(Plains(s)) == s
  {
    if s != [] {
      assert Plains(s)[1..] == Plains(s[1..]);
      FlattenPlains(s[1..]);
    }
  }

  /** A flat list of distinct plain types is already canonical. */
  lemma CanonOfDistinctPlains(s: seq<nat>)
    requires NoDuplicates(s)
    ensures Canon(Plains(s)) == s
  {
    CanonIsDedupFlatten(Plains(s));
    FlattenPlains(s);
    DedupOfDistinct(s);
  }

  /** Canonicalising a canonical shape changes nothing. */
  lemma CanonIdempotent(xs: seq<Desc>)
    ensures Canon(Plains(Canon(xs))) == Canon(xs)
  {
    CanonNoDuplicates(xs);
    CanonOfDistinctPlains(Canon(xs));
  }

  /** An empty container anywhere in a list contributes nothing. */
  lemma CanonDropsEmpty(a: seq<Desc>, e: seq<Desc>, b: seq<Desc>)
    requires Node(e).None?
    ensures Canon(a + [Tuple(e)] + b) == Canon(a + b)
  {
    EmptyShapeIff(e);
    FlattenAppend(a + [Tuple(e)], b);
    FlattenAppend(a, [Tuple(e)]);
    FlattenAppend(a, b);
    assert Flatten([Tuple(e)]) == [];
    assert Flatten(a + [Tuple(e)] + b) == Flatten(a + b);
    CanonIsDedupFlatten(a + [Tuple(e)] + b);
    CanonIsDedupFlatten(a + b);
  }

  /** A nested container anywhere in a list is the same as its items
   *  written in its place. */
  lemma CanonSplicesNested(a: seq<Desc>, ys: seq<Desc>, b: seq<Desc>)
    ensures Canon(a + [Tuple(ys)] + b) == Canon(a + ys + b)
  {
    FlattenAppend(a + [Tuple(ys)], b);
    FlattenAppend(a, [Tuple(ys)]);
    FlattenAppend(a + ys, b);
    FlattenAppend(a, ys);
    assert Flatten([Tuple(ys)]) == Flatten(ys);
    CanonIsDedupFlatten(a + [Tuple(ys)] + b);
    CanonIsDedupFlatten(a + ys + b);
  }
}
