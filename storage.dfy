/**
 * The storage chain and traversal of core/CustomTuple.h. Each storage node
 * `CustomTuple<Head, Tail...>` owns one `head` field and inherits the rest
 * of the chain; here the chain is a flat array with one slot per type of
 * the canonical shape, slot `i` holding the value of type `shape[i]`.
 */
module Storage {
  import opened Descriptors
  import opened Canonicalizer

  /** The slot of type `t`: the node whose `HeadType` is `t`, reached by
   *  walking the chain from the front. */
  function SlotOf(shape: seq<nat>, t: nat): (k: nat)
    requires t in shape
    ensures k < |shape| && shape[k] == t
    ensures forall j :: 0 <= j < k ==> shape[j] != t
  {
    if shape[0] == t then 0 else 1 + SlotOf(shape[1..], t)
  }

  /** In a canonical shape every type has exactly one slot. */
  lemma SlotOfUnique(shape: seq<nat>, k: nat)
    requires NoDuplicates(shape) && k < |shape|
    ensures SlotOf(shape, shape[k]) == k
  {
  }

  /** What `apply` does to the slots and to the state of its handler: the
   *  handler runs on the head first, then on the rest of the chain. */
  function Visit<S, V>(handler: (S, nat, V) -> (S, V), s: S, shape: seq<nat>, vals: seq<V>): (r: (S, seq<V>))
    requires |vals| == |shape|
    ensures |r.1| == |vals|
    decreases shape
  {
    if shape == [] then (s, [])
    else
      var (s1, v1) := handler(s, shape[0], vals[0]);
      var (s2, rest) := Visit(handler, s1, shape[1..], vals[1..]);
      (s2, [v1] + rest)
  }

  /** The handler `applyIf<Comparator>` effectively runs on each slot: the
   *  given one where the type-level predicate holds, nothing elsewhere. */
  function OnlyIf<S, V>(pred: nat -> bool, handler: (S, nat, V) -> (S, V)): (S, nat, V) -> (S, V)
  {
    (s: S, t: nat, v: V) => if pred(t) then handler(s, t, v) else (s, v)
  }

  /** A handler that records the type of every slot it is called on. */
  function Logged<V>(update: (nat, V) -> V): (seq<nat>, nat, V) -> (seq<nat>, V)
  {
    (log: seq<nat>, t: nat, v: V) => (log + [t], update(t, v))
  }

  /** The types of `shape` that pass `pred`, in order. */
  function Select(pred: nat -> bool, shape: seq<nat>): seq<nat>
  {
    if shape == [] then []
    else (if pred(shape[0]) then [shape[0]] else []) + Select(pred, shape[1..])
  }

  /** Visiting one more slot at the end of the chain. */
  lemma {:induction false} VisitSnoc<S, V>(handler: (S, nat, V) -> (S, V), s: S,
                                           shape: seq<nat>, vals: seq<V>, t: nat, v: V)
    requires |vals| == |shape|
    ensures Visit(handler, s, shape + [t], vals + [v]) ==
      var (s1, r1) := Visit(handler, s, shape, vals);
      var (s2, v2) := handler(s1, t, v);
      (s2, r1 + [v2])
    decreases shape
  {
    if shape == [] {
      assert shape + [t] == [t] && vals + [v] == [v];
      assert [t][1..] == [] && [v][1..] == [];
      var (s2, v2) := handler(s, t, v);
      assert vals == [] && Visit(handler, s, shape, vals) == (s, []);
      assert Visit(handler, s, [t], [v]) == (s2, [v2] + []);
      assert [v2] + [] == [] + [v2];
    } else {
      assert (shape + [t])[0] == shape[0] && (shape + [t])[1..] == shape[1..] + [t];
      assert (vals + [v])[0] == vals[0] && (vals + [v])[1..] == vals[1..] + [v];
      var (s1, v1) := handler(s, shape[0], vals[0]);
      VisitSnoc(handler, s1, shape[1..], vals[1..], t, v);
      var (s2, rest) := Visit(handler, s1, shape[1..], vals[1..]);
      var (s3, v3) := handler(s2, t, v);
      assert Visit(handler, s, shape, vals) == (s2, [v1] + rest);
      assert Visit(handler, s, shape + [t], vals + [v]) == (s3, [v1] + (rest + [v3]));
      assert [v1] + (rest + [v3]) == ([v1] + rest) + [v3];
    }
  }

  /** `apply` calls its handler exactly once per slot, in the order of the
   *  canonical shape, and each slot receives the handler's result for it. */
  lemma {:induction false} VisitCallsEachSlotOnceInOrder<V>(update: (nat, V) -> V, log: seq<nat>,
                                                             shape: seq<nat>, vals: seq<V>)
    requires |vals| == |shape|
    ensures Visit(Logged(update), log, shape, vals).0 == log + shape
    ensures forall i :: 0 <= i < |shape| ==>
      Visit(Logged(update), log, shape, vals).1[i] == update(shape[i], vals[i])
    decreases shape
  {
    if shape != [] {
      VisitCallsEachSlotOnceInOrder(update, log + [shape[0]], shape[1..], vals[1..]);
      assert log + [shape[0]] + shape[1..] == log + shape;
    }
  }

  /** `applyIf` calls its handler exactly on the slots whose type passes the
   *  predicate, in order. */
  lemma {:induction false} VisitIfCallsSelectedInOrder<V>(pred: nat -> bool, update: (nat, V) -> V,
                                                         log: seq<nat>, shape: seq<nat>, vals: seq<V>)
    requires |vals| == |shape|
    ensures Visit(OnlyIf(pred, Logged(update)), log, shape, vals).0 == log + Select(pred, shape)
    decreases shape
  {
    if shape != [] {
      var first := if pred(shape[0]) then [shape[0]] else [];
      assert OnlyIf(pred, Logged(update))(log, shape[0], vals[0]).0 == log + first;
      VisitIfCallsSelectedInOrder(pred, update, log + first, shape[1..], vals[1..]);
      assert log + first + Select(pred, shape[1..]) == log + Select(pred, shape);
    }
  }

  /** `applyIf` leaves every slot whose type fails the predicate unchanged,
   *  whatever the handler. */
  lemma {:induction false} VisitIfKeepsUnselected<S, V>(pred: nat -> bool, handler: (S, nat, V) -> (S, V),
                                                       s: S, shape: seq<nat>, vals: seq<V>, i: nat)
    requires |vals| == |shape| && i < |shape| && !pred(shape[i])
    ensures Visit(OnlyIf(pred, handler), s, shape, vals).1[i] == vals[i]
    decreases shape
  {
    if i > 0 {
      var (s1, _) := OnlyIf(pred, handler)(s, shape[0], vals[0]);
      VisitIfKeepsUnselected(pred, handler, s1, shape[1..], vals[1..], i - 1);
    }
  }

  /** A container instance: one slot per type of its canonical shape. */
  class Instance<V> {
    const shape: seq<nat>
    const slots: array<V>

    ghost predicate Valid()
      reads this
    {
      slots.Length == |shape| && NoDuplicates(shape)
    }

    /** Declares `CustomTuple<decl...>` and starts every slot at `init`. */
    constructor (decl: seq<Desc>, init: V)
      ensures Valid() && fresh(slots)
      ensures shape == Canon(decl)
      ensures slots[..] == seq(|shape|, _ => init)
    {
      CanonNoDuplicates(decl);
      shape := Canon(decl);
      slots := new V[|Canon(decl)|](_ => init);
    }

    /** `get<T>()`: walks the chain to the node whose `HeadType` is `t`. */
    method Get(t: nat) returns (v: V)
      requires Valid() && t in shape
      ensures v == slots[SlotOf(shape, t)]
    {
      var i := 0;
      while shape[i] != t
        invariant 0 <= i <= SlotOf(shape, t)
        decreases SlotOf(shape, t) - i
      {
        i := i + 1;
      }
      v := slots[i];
    }

    /** `set<T>(value)`: overwrites the slot of `t` and no other. */
    method Set(t: nat, v: V)
      requires Valid() && t in shape
      modifies slots
      ensures Valid()
      ensures slots[..] == old(slots[..])[SlotOf(shape, t) := v]
    {
      var i := 0;
      while shape[i] != t
        invariant 0 <= i <= SlotOf(shape, t)
        decreases SlotOf(shape, t) - i
      {
        i := i + 1;
      }
      slots[i] := v;
    }

    /** `apply(handler)`: runs the handler on every slot, head first. */
    method Apply<S>(handler: (S, nat, V) -> (S, V), s0: S) returns (s: S)
      requires Valid()
      modifies slots
      ensures Valid()
      ensures (s, slots[..]) == Visit(handler, s0, shape, old(slots[..]))
    {
      s := s0;
      var i := 0;
      while i < slots.Length
        invariant 0 <= i <= slots.Length
        invariant (s, slots[..i]) == Visit(handler, s0, shape[..i], old(slots[..i]))
        invariant slots[i..] == old(slots[i..])
        decreases slots.Length - i
      {
        ghost var done := slots[..i];
        assert slots[i] == old(slots[i]);
        VisitSnoc(handler, s0, shape[..i], old(slots[..i]), shape[i], slots[i]);
        var (s1, v) := handler(s, shape[i], slots[i]);
        slots[i] := v;
        s := s1;
        assert shape[..i + 1] == shape[..i] + [shape[i]];
        assert old(slots[..i + 1]) == old(slots[..i]) + [old(slots[i])];
        assert slots[..i + 1] == done + [v];
        i := i + 1;
      }
      assert shape[..i] == shape && slots[..i] == slots[..] && old(slots[..i]) == old(slots[..]);
    }

    /** `applyIf<Comparator>(handler)`: runs the handler on the slots whose
     *  type passes `pred`, head first. */
    method ApplyIf<S>(pred: nat -> bool, handler: (S, nat, V) -> (S, V), s0: S) returns (s: S)
      requires Valid()
      modifies slots
      ensures Valid()
      ensures (s, slots[..]) == Visit(OnlyIf(pred, handler), s0, shape, old(slots[..]))
    {
      s := s0;
      var i := 0;
      while i < slots.Length
        invariant 0 <= i <= slots.Length
        invariant (s, slots[..i]) == Visit(OnlyIf(pred, handler), s0, shape[..i], old(slots[..i]))
        invariant slots[i..] == old(slots[i..])
        decreases slots.Length - i
      {
        ghost var done := slots[..i];
        assert slots[i] == old(slots[i]);
        VisitSnoc(OnlyIf(pred, handler), s0, shape[..i], old(slots[..i]), shape[i], slots[i]);
        if pred(shape[i]) {
          var (s1, v) := handler(s, shape[i], slots[i]);
          slots[i] := v;
          s := s1;
        }
        assert slots[i + 1..] == old(slots[i + 1..]);
        assert shape[..i + 1] == shape[..i] + [shape[i]];
        assert old(slots[..i + 1]) == old(slots[..i]) + [old(slots[i])];
        assert slots[..i + 1] == done + [slots[i]];
        i := i + 1;
      }
      assert shape[..i] == shape && slots[..i] == slots[..] && old(slots[..i]) == old(slots[..]);
    }
  }

  /** The accessor laws on a fresh instance: after `set<T>(v)`, `get<T>()`
   *  answers `v` and every other type still answers its initial value. */
  method GetAfterSet<V>(decl: seq<Desc>, init: V, t: nat, v: V, u: nat) returns (got: V, other: V)
    requires t in Canon(decl) && u in Canon(decl) && u != t
    ensures got == v && other == init
  {
    var inst := new Instance(decl, init);
    inst.Set(t, v);
    got := inst.Get(t);
    other := inst.Get(u);
  }
}
