/**
 * The shapes that main.cpp declares, as concrete fixtures: the flatten and
 * deduplication examples, the `MyMapper` rule, and the static registry that
 * maps trading strategies to their instruments and the instruments to the
 * gateways of their venues.
 */
module Demo {
  import opened Descriptors
  import opened Canonicalizer
  import opened ShapeMap
  import opened Storage

  // Plain types of the examples.
  function Short(): nat { 0 }
  function Int(): nat { 1 }
  function Long(): nat { 2 }
  function Float(): nat { 3 }
  function Double(): nat { 4 }

  // Strategies, instrument definitions and gateways of the registry.
  function ArbitrageStrategy(): nat { 10 }
  function MarketMakingStrategy(): nat { 11 }
  function UsdRubFx(): nat { 20 }
  function UsdRubFFutures(): nat { 21 }
  function AfltEquity(): nat { 22 }
  function MoexFxGateway(): nat { 30 }
  function MoexEquityGateway(): nat { 31 }
  function MoexFuturesGateway(): nat { 32 }

  /** `MyMapper`: `float` becomes `double`, every other type `long`. */
  function MyMapper(d: Desc): Desc
  {
    if d == Plain(Float()) then Plain(Double()) else Plain(Long())
  }

  /** `StrategyToInstruments`: a strategy becomes its `Instruments` shape. */
  function StrategyToInstruments(d: Desc): Desc
  {
    if d == Plain(ArbitrageStrategy()) then Tuple([Plain(UsdRubFx()), Plain(UsdRubFFutures())])
    else if d == Plain(MarketMakingStrategy()) then Tuple([Plain(AfltEquity())])
    else d
  }

  /** The gateway of an instrument definition's venue; the primary template
   *  of the mapper answers the FX gateway. */
  function GatewayOf(t: nat): nat
  {
    if t == AfltEquity() then MoexEquityGateway()
    else if t == UsdRubFFutures() then MoexFuturesGateway()
    else MoexFxGateway()
  }

  /**
   * The shape of `InstrumentToGatewayMapper`: a plain instrument becomes
   * the gateway of its venue, a non-empty container becomes its own `Map`
   * under the same rule, and an empty container becomes `empty`.
   */
  function GatewayRule(empty: Desc, d: Desc): Desc
    decreases LeavesOf(d), if d.Plain? then 0 else 1, 0
  {
    match d
    case Plain(t) => Plain(GatewayOf(t))
    case Tuple(ys) =>
      match Node(ys)
      case None => empty
      case Some((h, rt)) => Tuple([GatewayRule(empty, Plain(h))] + GatewayRuleAll(empty, rt))
  }

  function GatewayRuleAll(empty: Desc, s: seq<Desc>): (r: seq<Desc>)
    ensures |r| == |s|
    decreases Leaves(s), 2, |s|
  {
    if s == [] then []
    else
      assert Leaves(s) == LeavesOf(s[0]) + Leaves(s[1..]);
      [GatewayRule(empty, s[0])] + GatewayRuleAll(empty, s[1..])
  }

  /** `InstrumentToGatewayMapper` as written: the empty container matches
   *  neither partial specialisation and falls to the primary template,
   *  which answers the FX gateway. */
  function InstrumentToGateway(d: Desc): Desc
  {
    GatewayRule(Plain(MoexFxGateway()), d)
  }

  /** The mapper with an empty container mapped to the empty container,
   *  which every shape drops. */
  function InstrumentToGatewayCorrected(d: Desc): Desc
  {
    GatewayRule(Tuple([]), d)
  }

  lemma {:induction false} GatewayRuleAllPointwise(empty: Desc, s: seq<Desc>)
    ensures forall i :: 0 <= i < |s| ==> GatewayRuleAll(empty, s)[i] == GatewayRule(empty, s[i])
    decreases |s|
  {
    if s != [] {
      GatewayRuleAllPointwise(empty, s[1..]);
    }
  }

  /** The nested case of a gateway rule is the `Map` of the container
   *  under the same rule. */
  lemma GatewayRuleIsMap(empty: Desc, rule: Desc -> Desc, ys: seq<Desc>)
    requires forall d :: rule(d) == GatewayRule(empty, d)
    requires Node(ys).Some?
    ensures GatewayRule(empty, Tuple(ys)) == Tuple(Map(ys, rule))
  {
    var h := Node(ys).value.0;
    var rt := Node(ys).value.1;
    var g := GatewayRuleAll(empty, rt);
    assert GatewayRule(empty, Tuple(ys)) == Tuple([Plain(GatewayOf(h))] + g) by {
      assert GatewayRule(empty, Plain(h)) == Plain(GatewayOf(h));
    }
    assert Map(ys, rule) == [Plain(GatewayOf(h))] + g by {
      GatewayRuleAllPointwise(empty, rt);
      var m := Map(ys, rule);
      var e := [Plain(GatewayOf(h))] + g;
      assert |m| == |e|;
      forall i | 0 <= i < |m|
        ensures m[i] == e[i]
      {
        if i == 0 {
          assert m[0] == rule(Plain(h));
        } else {
          assert m[i] == rule(rt[i - 1]) && e[i] == g[i - 1];
        }
      }
    }
  }

  /** The nested case of `InstrumentToGatewayMapper`, as written and
   *  corrected, is the container's own `Map`. */
  lemma NestedGatewayIsMap(ys: seq<Desc>)
    requires Node(ys).Some?
    ensures InstrumentToGateway(Tuple(ys)) == Tuple(Map(ys, InstrumentToGateway))
    ensures InstrumentToGatewayCorrected(Tuple(ys)) == Tuple(Map(ys, InstrumentToGatewayCorrected))
  {
    GatewayRuleIsMap(Plain(MoexFxGateway()), InstrumentToGateway, ys);
    GatewayRuleIsMap(Tuple([]), InstrumentToGatewayCorrected, ys);
  }

  /** Under the corrected rule a descriptor's gateways are its instruments'
   *  gateways, up to repeats. */
  lemma {:induction false} CorrectedGatewayFlatten(d: Desc)
    ensures Dedup(FlattenOf(InstrumentToGatewayCorrected(d))) == Dedup(Image(GatewayOf, FlattenOf(d)))
    decreases LeavesOf(d), if d.Plain? then 0 else 1, 0
  {
    match d
    case Plain(t) =>
    case Tuple(ys) =>
      match Node(ys) {
        case None =>
          EmptyShapeIff(ys);
        case Some((h, rt)) =>
          var mapped := GatewayRuleAll(Tuple([]), rt);
          var items := [Plain(GatewayOf(h))] + mapped;
          assert GatewayRule(Tuple([]), Plain(h)) == Plain(GatewayOf(h));
          assert GatewayRule(Tuple([]), d) == Tuple(items);
          assert items[0] == Plain(GatewayOf(h)) && items[1..] == mapped;
          assert Flatten(items) == [GatewayOf(h)] + Flatten(mapped);
          CorrectedGatewaysFlatten(rt);
          DedupAppendCongruent([GatewayOf(h)], [GatewayOf(h)], Flatten(mapped), Image(GatewayOf, Flatten(rt)));
          var src := [h] + Flatten(rt);
          assert src[0] == h && src[1..] == Flatten(rt);
          assert Image(GatewayOf, src) == [GatewayOf(h)] + Image(GatewayOf, Flatten(rt));
          // the node head does not reappear in its raw tail, so `src`
          // dedups to the canonical shape of `ys`
          NodeHeadNotDuplicate(ys);
          IsDuplicateIffFlatten(h, rt);
          CanonIsDedupFlatten(ys);
          CanonIsDedupFlatten(rt);
          assert Dedup(src) == Dedup(Flatten(ys));
          DedupImage(GatewayOf, src);
          DedupImage(GatewayOf, Flatten(ys));
      }
  }

  lemma {:induction false} CorrectedGatewaysFlatten(s: seq<Desc>)
    ensures Dedup(Flatten(GatewayRuleAll(Tuple([]), s))) == Dedup(Image(GatewayOf, Flatten(s)))
    decreases Leaves(s), 2, |s|
  {
    if s != [] {
      assert Leaves(s) == LeavesOf(s[0]) + Leaves(s[1..]);
      var mapped := GatewayRuleAll(Tuple([]), s);
      assert mapped[0] == InstrumentToGatewayCorrected(s[0]);
      assert mapped[1..] == GatewayRuleAll(Tuple([]), s[1..]);
      CorrectedGatewayFlatten(s[0]);
      CorrectedGatewaysFlatten(s[1..]);
      ImageAppend(GatewayOf, FlattenOf(s[0]), Flatten(s[1..]));
      DedupAppendCongruent(FlattenOf(InstrumentToGatewayCorrected(s[0])), Image(GatewayOf, FlattenOf(s[0])),
                           Flatten(mapped[1..]), Image(GatewayOf, Flatten(s[1..])));
    }
  }

  /** With the corrected rule, the gateway shape of an instrument shape is
   *  the gateway of every instrument, in slot order, with repeats merged at
   *  their last position: one slot per venue in use and no other. */
  lemma CorrectedGatewayMap(xs: seq<Desc>)
    requires Node(xs).Some?
    ensures Canon(Map(xs, InstrumentToGatewayCorrected)) == Dedup(Image(GatewayOf, Canon(xs)))
  {
    NestedGatewayIsMap(xs);
    CorrectedGatewayFlatten(Tuple(xs));
    CanonIsDedupFlatten(Map(xs, InstrumentToGatewayCorrected));
    CanonIsDedupFlatten(xs);
    DedupImage(GatewayOf, Flatten(xs));
  }

  /** `<short, CustomTuple<int, float>, double>`: the nested container is
   *  spliced in place, giving four slots in declaration order. */
  lemma FlattenExample(tShort: nat, tInt: nat, tFloat: nat, tDouble: nat)
    requires NoDuplicates([tShort, tInt, tFloat, tDouble])
    ensures Canon([Plain(tShort), Tuple([Plain(tInt), Plain(tFloat)]), Plain(tDouble)])
         == [tShort, tInt, tFloat, tDouble]
  {
    var xs := [Plain(tShort), Tuple([Plain(tInt), Plain(tFloat)]), Plain(tDouble)];
    assert Dedup(Flatten(xs)) == [tShort, tInt, tFloat, tDouble] by {
      FlattenOfThree(Plain(tShort), Tuple([Plain(tInt), Plain(tFloat)]), Plain(tDouble));
      FlattenOfTwo(Plain(tInt), Plain(tFloat));
      assert Flatten(xs) == [tShort, tInt, tFloat, tDouble];
      DedupOfDistinct([tShort, tInt, tFloat, tDouble]);
    }
    CanonIsDedupFlatten(xs);
  }

  /** `<int, CustomTuple<float, double, int>, float>`: three slots, each
   *  type at its last occurrence, so the order is `double, int, float`. */
  lemma DedupExample(tInt: nat, tFloat: nat, tDouble: nat)
    requires NoDuplicates([tInt, tFloat, tDouble])
    ensures Canon([Plain(tInt), Tuple([Plain(tFloat), Plain(tDouble), Plain(tInt)]), Plain(tFloat)])
         == [tDouble, tInt, tFloat]
  {
    var xs := [Plain(tInt), Tuple([Plain(tFloat), Plain(tDouble), Plain(tInt)]), Plain(tFloat)];
    assert Dedup(Flatten(xs)) == [tDouble, tInt, tFloat] by {
      FlattenOfThree(Plain(tInt), Tuple([Plain(tFloat), Plain(tDouble), Plain(tInt)]), Plain(tFloat));
      FlattenOfThree(Plain(tFloat), Plain(tDouble), Plain(tInt));
      var f := [tInt, tFloat, tDouble, tInt, tFloat];
      assert Flatten(xs) == f;
      assert f[0] == tInt && f[1..] == [tFloat, tDouble, tInt, tFloat] && tInt in f[1..];
      var g := f[1..];
      assert g[0] == tFloat && g[1..] == [tDouble, tInt, tFloat] && tFloat in g[1..];
      DedupOfDistinct([tDouble, tInt, tFloat]);
    }
    CanonIsDedupFlatten(xs);
  }

  /** `<int, float, int>` keeps the second `int`. */
  lemma LastOccurrenceWins(a: nat, b: nat)
    requires a != b
    ensures Canon([Plain(a), Plain(b), Plain(a)]) == [b, a]
  {
    var xs := [Plain(a), Plain(b), Plain(a)];
    assert Dedup(Flatten(xs)) == [b, a] by {
      FlattenOfThree(Plain(a), Plain(b), Plain(a));
      var f := [a, b, a];
      assert Flatten(xs) == f;
      assert f[0] == a && f[1..] == [b, a] && a in f[1..];
      DedupOfDistinct([b, a]);
    }
    CanonIsDedupFlatten(xs);
  }

  /** `<A, B, A, B>` collapses to `<A, B>`. */
  lemma RepeatedPairCollapses(a: nat, b: nat)
    requires a != b
    ensures Canon([Plain(a), Plain(b), Plain(a), Plain(b)]) == [a, b]
  {
    var xs := [Plain(a), Plain(b), Plain(a), Plain(b)];
    assert Dedup(Flatten(xs)) == [a, b] by {
      assert xs[0] == Plain(a) && xs[1..] == [Plain(b), Plain(a), Plain(b)];
      FlattenOfThree(Plain(b), Plain(a), Plain(b));
      var f := [a, b, a, b];
      assert Flatten(xs) == f;
      assert f[0] == a && f[1..] == [b, a, b] && a in f[1..];
      var g := f[1..];
      assert g[0] == b && g[1..] == [a, b] && b in g[1..];
      DedupOfDistinct([a, b]);
    }
    CanonIsDedupFlatten(xs);
  }

  /** `CustomTuple<CustomTuple<>>` has no storage node, and as an argument
   *  it contributes nothing. */
  lemma NestedEmptyIsEmpty(a: nat, b: nat)
    requires a != b
    ensures Node([Tuple([Tuple([])])]).None?
    ensures Canon([Plain(a), Tuple([Tuple([])]), Plain(b)]) == [a, b]
  {
    assert Flatten([Tuple([Tuple([])])]) == [] by {
      assert [Tuple([Tuple([])])][1..] == [];
      assert [Tuple([])][1..] == [];
    }
    EmptyShapeIff([Tuple([Tuple([])])]);
    CanonDropsEmpty([Plain(a)], [Tuple([])], [Plain(b)]);
    assert [Plain(a)] + [Tuple([Tuple([])])] + [Plain(b)] == [Plain(a), Tuple([Tuple([])]), Plain(b)];
    assert [Plain(a)] + [Plain(b)] == Plains([a, b]);
    CanonOfDistinctPlains([a, b]);
  }

  /** `MyMapper` over `<int, float>` gives `<long, double>`. */
  lemma MyMapperExample()
    ensures Canon(Map([Plain(Int()), Plain(Float())], MyMapper)) == [Long(), Double()]
  {
    assert Map([Plain(Int()), Plain(Float())], MyMapper) == [Plain(Long()), Plain(Double())] by {
      NodeOfPlainHead(Int(), [Plain(Float())]);
      assert Node([Plain(Int()), Plain(Float())]) == Some((Int(), [Plain(Float())]));
      assert MyMapper(Plain(Float())) == Plain(Double());
      assert Map([Plain(Int()), Plain(Float())], MyMapper)[1] == Plain(Double());
    }
    assert Dedup(Flatten([Plain(Long()), Plain(Double())])) == [Long(), Double()] by {
      FlattenOfTwo(Plain(Long()), Plain(Double()));
      DedupOfDistinct([Long(), Double()]);
    }
    CanonIsDedupFlatten([Plain(Long()), Plain(Double())]);
  }

  /** `CustomTuple<int, CustomTuple<float>>` has the canonical shape `<int, float>`. */
  lemma NestedFloatShape()
    ensures Canon([Plain(Int()), Tuple([Plain(Float())])]) == [Int(), Float()]
  {
    assert Dedup(Flatten([Plain(Int()), Tuple([Plain(Float())])])) == [Int(), Float()] by {
      FlattenOfTwo(Plain(Int()), Tuple([Plain(Float())]));
      assert Flatten([Plain(Float())]) == [Float()];
      DedupOfDistinct([Int(), Float()]);
    }
    CanonIsDedupFlatten([Plain(Int()), Tuple([Plain(Float())])]);
  }

  /** `Map` sees the raw tail of the first storage node: a nested container
   *  there is one argument of the rule, so `MyMapper` sends it to `long`
   *  as a whole, although the canonical shape is `<int, float>`. */
  lemma MapSeesRawTail()
    ensures Canon([Plain(Int()), Tuple([Plain(Float())])]) == [Int(), Float()]
    ensures Canon(Map([Plain(Int()), Tuple([Plain(Float())])], MyMapper)) == [Long()]
  {
    NestedFloatShape();
    assert Map([Plain(Int()), Tuple([Plain(Float())])], MyMapper) == [Plain(Long()), Plain(Long())] by {
      NodeOfPlainHead(Int(), [Tuple([Plain(Float())])]);
      assert Node([Plain(Int()), Tuple([Plain(Float())])]) == Some((Int(), [Tuple([Plain(Float())])]));
      assert MyMapper(Tuple([Plain(Float())])) == Plain(Long());
      assert Map([Plain(Int()), Tuple([Plain(Float())])], MyMapper)[1] == Plain(Long());
    }
    assert Dedup(Flatten([Plain(Long()), Plain(Long())])) == [Long()] by {
      FlattenOfTwo(Plain(Long()), Plain(Long()));
      var f := [Long(), Long()];
      assert f[0] == Long() && f[1..] == [Long()] && Long() in f[1..];
      DedupOfDistinct([Long()]);
    }
    CanonIsDedupFlatten([Plain(Long()), Plain(Long())]);
  }

  /** Both strategies: their instrument lists. */
  lemma RegistryInstruments()
    ensures Map([Plain(ArbitrageStrategy()), Plain(MarketMakingStrategy())], StrategyToInstruments)
         == [Tuple([Plain(UsdRubFx()), Plain(UsdRubFFutures())]), Tuple([Plain(AfltEquity())])]
  {
    NodeOfPlainHead(ArbitrageStrategy(), [Plain(MarketMakingStrategy())]);
    assert Node([Plain(ArbitrageStrategy()), Plain(MarketMakingStrategy())])
        == Some((ArbitrageStrategy(), [Plain(MarketMakingStrategy())]));
    assert StrategyToInstruments(Plain(MarketMakingStrategy())) == Tuple([Plain(AfltEquity())]);
    assert Map([Plain(ArbitrageStrategy()), Plain(MarketMakingStrategy())], StrategyToInstruments)[1]
        == Tuple([Plain(AfltEquity())]);
  }

  /** Both strategies: the three distinct instruments they trade, in
   *  declaration order. */
  lemma RegistryInstrumentShape()
    ensures Canon([Tuple([Plain(UsdRubFx()), Plain(UsdRubFFutures())]), Tuple([Plain(AfltEquity())])])
         == [UsdRubFx(), UsdRubFFutures(), AfltEquity()]
  {
    var xs := [Tuple([Plain(UsdRubFx()), Plain(UsdRubFFutures())]), Tuple([Plain(AfltEquity())])];
    assert Dedup(Flatten(xs)) == [UsdRubFx(), UsdRubFFutures(), AfltEquity()] by {
      FlattenOfTwo(Tuple([Plain(UsdRubFx()), Plain(UsdRubFFutures())]), Tuple([Plain(AfltEquity())]));
      FlattenOfTwo(Plain(UsdRubFx()), Plain(UsdRubFFutures()));
      assert Flatten([Plain(AfltEquity())]) == [AfltEquity()];
      DedupOfDistinct([UsdRubFx(), UsdRubFFutures(), AfltEquity()]);
    }
    CanonIsDedupFlatten(xs);
  }

  /** The first storage node of the instrument shape splices the Arbitrage
   *  instruments and stores USD/RUB FX. */
  lemma RegistryInstrumentsNode()
    ensures Node([Tuple([Plain(UsdRubFx()), Plain(UsdRubFFutures())]), Tuple([Plain(AfltEquity())])])
         == Some((UsdRubFx(), [Tuple([Plain(UsdRubFFutures())]), Tuple([Plain(AfltEquity())])]))
  {
    NodeOfPlainHead(UsdRubFx(), [Plain(UsdRubFFutures())]);
    assert Flatten([Plain(UsdRubFFutures())]) == [UsdRubFFutures()];
    assert Node([Plain(UsdRubFx()), Plain(UsdRubFFutures())]) == Some((UsdRubFx(), [Plain(UsdRubFFutures())]));
    NodeOfNestedHead([Plain(UsdRubFx()), Plain(UsdRubFFutures())], [Tuple([Plain(AfltEquity())])]);
    assert [Tuple([Plain(UsdRubFx()), Plain(UsdRubFFutures())])] + [Tuple([Plain(AfltEquity())])]
        == [Tuple([Plain(UsdRubFx()), Plain(UsdRubFFutures())]), Tuple([Plain(AfltEquity())])];
    assert [Plain(UsdRubFx()), Tuple([Plain(UsdRubFFutures())])] + [Tuple([Plain(AfltEquity())])]
        == [Plain(UsdRubFx())] + [Tuple([Plain(UsdRubFFutures())]), Tuple([Plain(AfltEquity())])];
    NodeOfPlainHead(UsdRubFx(), [Tuple([Plain(UsdRubFFutures())]), Tuple([Plain(AfltEquity())])]);
    assert Flatten([Tuple([Plain(UsdRubFFutures())]), Tuple([Plain(AfltEquity())])]) == [UsdRubFFutures(), AfltEquity()];
  }

  /** A container holding one instrument maps to a container holding its
   *  gateway. */
  lemma SingleInstrumentGateway(t: nat)
    ensures InstrumentToGateway(Tuple([Plain(t)])) == Tuple([Plain(GatewayOf(t))])
  {
    NodeOfPlainHead(t, []);
    assert [Plain(t)] + [] == [Plain(t)];
    assert Node([Plain(t)]) == Some((t, []));
    assert GatewayRuleAll(Plain(MoexFxGateway()), []) == [];
    assert GatewayRule(Plain(MoexFxGateway()), Plain(t)) == Plain(GatewayOf(t));
    assert GatewayRule(Plain(MoexFxGateway()), Tuple([Plain(t)]))
        == Tuple([Plain(GatewayOf(t))] + []);
  }

  /** The argument list of the gateway `Map` of the instrument shape. */
  lemma RegistryGatewayArguments()
    ensures Node([Tuple([Plain(UsdRubFx()), Plain(UsdRubFFutures())]), Tuple([Plain(AfltEquity())])]).Some?
    ensures Map([Tuple([Plain(UsdRubFx()), Plain(UsdRubFFutures())]), Tuple([Plain(AfltEquity())])],
                InstrumentToGateway)
         == [Plain(MoexFxGateway()), Tuple([Plain(MoexFuturesGateway())]), Tuple([Plain(MoexEquityGateway())])]
  {
    RegistryInstrumentsNode();
    SingleInstrumentGateway(UsdRubFFutures());
    SingleInstrumentGateway(AfltEquity());
  }

  /** Both strategies: three gateway slots, one per venue. */
  lemma RegistryGateways()
    ensures Node([Tuple([Plain(UsdRubFx()), Plain(UsdRubFFutures())]), Tuple([Plain(AfltEquity())])]).Some?
    ensures Canon(Map([Tuple([Plain(UsdRubFx()), Plain(UsdRubFFutures())]), Tuple([Plain(AfltEquity())])],
                      InstrumentToGateway))
         == [MoexFxGateway(), MoexFuturesGateway(), MoexEquityGateway()]
  {
    RegistryGatewayArguments();
    var gs := [Plain(MoexFxGateway()), Tuple([Plain(MoexFuturesGateway())]), Tuple([Plain(MoexEquityGateway())])];
    assert Dedup(Flatten(gs)) == [MoexFxGateway(), MoexFuturesGateway(), MoexEquityGateway()] by {
      FlattenOfThree(Plain(MoexFxGateway()), Tuple([Plain(MoexFuturesGateway())]), Tuple([Plain(MoexEquityGateway())]));
      assert Flatten([Plain(MoexFuturesGateway())]) == [MoexFuturesGateway()];
      assert Flatten([Plain(MoexEquityGateway())]) == [MoexEquityGateway()];
      DedupOfDistinct([MoexFxGateway(), MoexFuturesGateway(), MoexEquityGateway()]);
    }
    CanonIsDedupFlatten(gs);
  }

  /** Arbitrage alone: its instrument list and the first node of it. */
  lemma ArbitrageInstrumentsNode()
    ensures Map([Plain(ArbitrageStrategy())], StrategyToInstruments)
         == [Tuple([Plain(UsdRubFx()), Plain(UsdRubFFutures())])]
    ensures Node([Tuple([Plain(UsdRubFx()), Plain(UsdRubFFutures())])])
         == Some((UsdRubFx(), [Tuple([Plain(UsdRubFFutures())])]))
  {
    NodeOfPlainHead(ArbitrageStrategy(), []);
    assert [Plain(ArbitrageStrategy())] + [] == [Plain(ArbitrageStrategy())];
    NodeOfPlainHead(UsdRubFx(), [Plain(UsdRubFFutures())]);
    assert Node([Plain(UsdRubFx()), Plain(UsdRubFFutures())]) == Some((UsdRubFx(), [Plain(UsdRubFFutures())]));
    NodeOfNestedHead([Plain(UsdRubFx()), Plain(UsdRubFFutures())], []);
    assert [Tuple([Plain(UsdRubFx()), Plain(UsdRubFFutures())])] + []
        == [Tuple([Plain(UsdRubFx()), Plain(UsdRubFFutures())])];
    assert [Plain(UsdRubFx()), Tuple([Plain(UsdRubFFutures())])] + []
        == [Plain(UsdRubFx())] + [Tuple([Plain(UsdRubFFutures())])];
    NodeOfPlainHead(UsdRubFx(), [Tuple([Plain(UsdRubFFutures())])]);
  }

  /** Arbitrage alone: the FX and futures gateways. */
  lemma RegistryArbitrageOnly()
    ensures Node([Tuple([Plain(UsdRubFx()), Plain(UsdRubFFutures())])]).Some?
    ensures Canon(Map([Tuple([Plain(UsdRubFx()), Plain(UsdRubFFutures())])], InstrumentToGateway))
         == [MoexFxGateway(), MoexFuturesGateway()]
  {
    ArbitrageInstrumentsNode();
    var gs := [Plain(MoexFxGateway()), Tuple([Plain(MoexFuturesGateway())])];
    assert Map([Tuple([Plain(UsdRubFx()), Plain(UsdRubFFutures())])], InstrumentToGateway) == gs by {
      SingleInstrumentGateway(UsdRubFFutures());
    }
    assert Dedup(Flatten(gs)) == [MoexFxGateway(), MoexFuturesGateway()] by {
      FlattenOfTwo(Plain(MoexFxGateway()), Tuple([Plain(MoexFuturesGateway())]));
      assert Flatten([Plain(MoexFuturesGateway())]) == [MoexFuturesGateway()];
      DedupOfDistinct([MoexFxGateway(), MoexFuturesGateway()]);
    }
    CanonIsDedupFlatten(gs);
  }

  /** The first storage node of the MarketMaking instrument shape: the
   *  splice leaves the empty container `CustomTuple<>` in its raw tail. */
  lemma MarketMakingInstrumentsNode()
    ensures Map([Plain(MarketMakingStrategy())], StrategyToInstruments) == [Tuple([Plain(AfltEquity())])]
    ensures Node([Tuple([Plain(AfltEquity())])]) == Some((AfltEquity(), [Tuple([])]))
  {
    NodeOfPlainHead(MarketMakingStrategy(), []);
    assert [Plain(MarketMakingStrategy())] + [] == [Plain(MarketMakingStrategy())];
    NodeOfPlainHead(AfltEquity(), []);
    assert [Plain(AfltEquity())] + [] == [Plain(AfltEquity())];
    NodeOfNestedHead([Plain(AfltEquity())], []);
    assert [Tuple([Plain(AfltEquity())])] + [] == [Tuple([Plain(AfltEquity())])];
    assert [Plain(AfltEquity()), Tuple([])] + [] == [Plain(AfltEquity())] + [Tuple([])];
    NodeOfPlainHead(AfltEquity(), [Tuple([])]);
    assert Flatten([Tuple([])]) == [];
  }

  /** MarketMaking alone, as written: the empty container in the raw tail
   *  reaches the mapper's primary template, so an FX gateway is connected
   *  although no strategy trades on that venue. */
  lemma RegistryMarketMakingOnly()
    ensures Node([Tuple([Plain(AfltEquity())])]).Some?
    ensures Canon(Map([Tuple([Plain(AfltEquity())])], InstrumentToGateway))
         == [MoexEquityGateway(), MoexFxGateway()]
  {
    MarketMakingInstrumentsNode();
    var gs := [Plain(MoexEquityGateway()), Plain(MoexFxGateway())];
    assert Map([Tuple([Plain(AfltEquity())])], InstrumentToGateway) == gs by {
      assert Node([]) == None;
      assert InstrumentToGateway(Tuple([])) == Plain(MoexFxGateway());
      assert InstrumentToGateway(Plain(AfltEquity())) == Plain(MoexEquityGateway());
    }
    assert Dedup(Flatten(gs)) == [MoexEquityGateway(), MoexFxGateway()] by {
      FlattenOfTwo(Plain(MoexEquityGateway()), Plain(MoexFxGateway()));
      DedupOfDistinct([MoexEquityGateway(), MoexFxGateway()]);
    }
    CanonIsDedupFlatten(gs);
  }

  /** MarketMaking alone, with the corrected rule: the equity gateway only. */
  lemma RegistryMarketMakingOnlyCorrected()
    ensures Node([Tuple([Plain(AfltEquity())])]).Some?
    ensures Canon(Map([Tuple([Plain(AfltEquity())])], InstrumentToGatewayCorrected)) == [MoexEquityGateway()]
  {
    MarketMakingInstrumentsNode();
    CorrectedGatewayMap([Tuple([Plain(AfltEquity())])]);
    assert Canon([Tuple([Plain(AfltEquity())])]) == [AfltEquity()] by {
      CanonIsDedupFlatten([Tuple([Plain(AfltEquity())])]);
      assert Flatten([Tuple([Plain(AfltEquity())])]) == [AfltEquity()];
      DedupOfDistinct([AfltEquity()]);
    }
    assert Image(GatewayOf, [AfltEquity()]) == [MoexEquityGateway()];
    DedupOfDistinct([MoexEquityGateway()]);
  }

  /** Both strategies, with the corrected rule: the same three gateways as
   *  the rule as written, since no empty container reaches it. */
  lemma RegistryGatewaysCorrected()
    ensures Node([Tuple([Plain(UsdRubFx()), Plain(UsdRubFFutures())]), Tuple([Plain(AfltEquity())])]).Some?
    ensures Canon(Map([Tuple([Plain(UsdRubFx()), Plain(UsdRubFFutures())]), Tuple([Plain(AfltEquity())])],
                      InstrumentToGatewayCorrected))
         == [MoexFxGateway(), MoexFuturesGateway(), MoexEquityGateway()]
  {
    RegistryInstrumentsNode();
    RegistryInstrumentShape();
    CorrectedGatewayMap([Tuple([Plain(UsdRubFx()), Plain(UsdRubFFutures())]), Tuple([Plain(AfltEquity())])]);
    assert Image(GatewayOf, [UsdRubFx(), UsdRubFFutures(), AfltEquity()])
        == [MoexFxGateway(), MoexFuturesGateway(), MoexEquityGateway()];
    DedupOfDistinct([MoexFxGateway(), MoexFuturesGateway(), MoexEquityGateway()]);
  }

  /** Doubles a slot value, whatever its type. */
  function Twice(t: nat, v: int): int
  {
    2 * v
  }

  /** `is_same_type<int>` and `is_same_type<float>`. */
  predicate IsInt(t: nat) { t == Int() }
  predicate IsFloat(t: nat) { t == Float() }

  /** Handlers that multiply a slot value; they keep no state. */
  function TimesTwo(s: (), t: nat, v: int): ((), int) { (s, Twice(t, v)) }
  function TimesThree(s: (), t: nat, v: int): ((), int) { (s, 3 * v) }

  /** Visiting a two-slot chain: the head first, then the second slot. */
  lemma VisitTwoSlots<S>(handler: (S, nat, int) -> (S, int), s: S, a: nat, b: nat, x: int, y: int)
    ensures Visit(handler, s, [a, b], [x, y]) ==
      var (s1, v1) := handler(s, a, x);
      var (s2, v2) := handler(s1, b, y);
      (s2, [v1, v2])
  {
    var (s1, v1) := handler(s, a, x);
    var (s2, v2) := handler(s1, b, y);
    assert [a, b][1..] == [b] && [x, y][1..] == [y];
    assert [b][1..] == [] && [y][1..] == [];
    assert Visit(handler, s1, [b], [y]) == (s2, [v2] + []);
    assert [v1] + ([v2] + []) == [v1, v2];
  }

  lemma ApplyTwiceExample()
    ensures Visit(Logged(Twice), [], [Int(), Float()], [123, 456]) == ([Int(), Float()], [246, 912])
  {
    VisitTwoSlots(Logged(Twice), [], Int(), Float(), 123, 456);
    assert [] + [Int()] + [Float()] == [Int(), Float()];
  }

  lemma ApplyIfExample()
    ensures Visit(OnlyIf(IsInt, TimesTwo), (), [Int(), Float()], [246, 912]) == ((), [492, 912])
    ensures Visit(OnlyIf(IsFloat, TimesThree), (), [Int(), Float()], [492, 912]) == ((), [492, 2736])
  {
    VisitTwoSlots(OnlyIf(IsInt, TimesTwo), (), Int(), Float(), 246, 912);
    assert IsInt(Int()) && !IsInt(Float());
    assert TimesTwo((), Int(), 246) == ((), 492);
    assert OnlyIf(IsInt, TimesTwo)((), Int(), 246) == ((), 492);
    assert OnlyIf(IsInt, TimesTwo)((), Float(), 912) == ((), 912);
    VisitTwoSlots(OnlyIf(IsFloat, TimesThree), (), Int(), Float(), 492, 912);
  }

  /** `CustomTuple<int, float>` has an `int` slot followed by a `float` slot. */
  lemma IntFloatShape()
    ensures Canon([Plain(Int()), Plain(Float())]) == [Int(), Float()]
  {
    assert Dedup(Flatten([Plain(Int()), Plain(Float())])) == [Int(), Float()] by {
      FlattenOfTwo(Plain(Int()), Plain(Float()));
      DedupOfDistinct([Int(), Float()]);
    }
    CanonIsDedupFlatten([Plain(Int()), Plain(Float())]);
  }

  /** The `<int, float>` walk-through: two sets, a doubling `apply`, then
   *  `applyIf` doubling the `int` slot and tripling the `float` slot. Slot
   *  values are integers here; the numbers involved are exact in `float`. */
  method IntFloatWalkThrough() returns (i0: int, f0: int, order: seq<nat>, i1: int, f1: int, i2: int, f2: int)
    ensures i0 == 123 && f0 == 456
    ensures order == [Int(), Float()]
    ensures i1 == 246 && f1 == 912
    ensures i2 == 492 && f2 == 2736
  {
    IntFloatShape();
    var tuple := new Instance([Plain(Int()), Plain(Float())], 0);
    tuple.Set(Int(), 123);
    tuple.Set(Float(), 456);
    i0 := tuple.Get(Int());
    f0 := tuple.Get(Float());
    assert tuple.slots[..] == [123, 456];

    ApplyTwiceExample();
    order := tuple.Apply(Logged(Twice), []);
    i1 := tuple.Get(Int());
    f1 := tuple.Get(Float());

    ApplyIfExample();
    var _ := tuple.ApplyIf(IsInt, TimesTwo, ());
    var _ := tuple.ApplyIf(IsFloat, TimesThree, ());
    i2 := tuple.Get(Int());
    f2 := tuple.Get(Float());
  }
}
