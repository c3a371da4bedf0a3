# CustomTuple: a verified model of the shape canonicaliser, storage chain and `Map`

`CustomTuple<Args...>` (core/CustomTuple.h) is a heterogeneous container
whose shape is decided at compile time by a chain of partial
specialisations:

- a nested non-empty `CustomTuple` in head position is spliced in place;
- an empty one (including one that only holds empty ones) is dropped;
- a plain type that occurs again later (`is_duplicate`) is dropped;
- any other plain type gets a storage node with a `head` field.

The container offers `set`/`get`/`has`/`apply`/`applyIf` on those slots and
a type-level `Map` that sends the first node's head and raw tail through a
rule and canonicalises the result again.

The model has five modules:

- `Descriptors`: type descriptors (`Plain(id)` or `Tuple(items)`) and the
  reference definitions the canonicaliser is measured against. `Flatten`
  lists the plain types in declaration order; `Dedup` keeps the last
  occurrence of each.
- `Canonicalizer`: `Node` is the first storage node of a list, as
  (HeadType, raw TailType arguments), following the four specialisations
  case by case. `Has` and `IsDuplicate` are the `has`/`is_duplicate`
  recursion; `Canon` is the chain of node heads. The central theorem is
  `Canon(xs) == Dedup(Flatten(xs))`.
- `ShapeMap`: `Map` over head and raw tail, with its meaning for rules that
  rename plain types structurally.
- `Storage`: class `Instance` holding the canonical shape and an array of
  slots. `Get`/`Set` walk the chain and are proved against `SlotOf`, the
  first node whose head is the requested type. `Apply`/`ApplyIf` loop over
  the chain and are proved against the specification function `Visit`.
- `Demo`: the fixtures of main.cpp (`MyMapper`, `StrategyToInstruments`,
  `InstrumentToGatewayMapper`, the `<int, float>` walk-through) and the
  shapes they produce.

Type identities are natural numbers; a canonical shape is a `seq<nat>`, so
every slot holds a plain type by construction.

Two consequences of the code are easy to misread:

- Duplicate removal keeps each type at its LAST occurrence.
  `CustomTuple<int, CustomTuple<float, double, int>, float>` has the slots
  `double, int, float` (`Demo.DedupExample`), not the first-occurrence order
  `int, float, double`.
- `Map` (core/CustomTuple.h:50-51) applies the rule to the first node's head
  and to the arguments of its raw `TailType`, not to the canonical shape.
  The two agree for structural renaming rules (`ShapeMap.MapOfRename`).
  They differ for a rule that treats a nested container as a single type:
  `CustomTuple<int, CustomTuple<float>>::Map<MyMapper>` is `<long>`,
  although the canonical shape is `<int, float>` (`Demo.MapSeesRawTail`).

## Model

| member | source | states |
|---|---|---|
| Descriptors.DedupElements | core/CustomTuple.h:114-118 | dropping duplicates keeps every type of the input and adds none |
| Descriptors.DedupNoDuplicates | core/CustomTuple.h:114-118 | after duplicate removal no type occurs twice |
| Descriptors.DedupOfDistinct | core/CustomTuple.h:114-118 | a list without repeats is left as it is |
| Descriptors.DedupKeepsLastOccurrenceOrder | core/CustomTuple.h:114-118 | kept types appear in the order of their last occurrences in the input |
| Descriptors.DedupAppend | core/CustomTuple.h:114-118 | a later part of the list removes from the earlier part exactly the types it repeats |
| Descriptors.FlattenAppend | core/CustomTuple.h:102-106 | the plain types of a concatenation are those of the parts, in order |
| Canonicalizer.Node | core/CustomTuple.h:102-118 | the first node's raw tail has fewer plain leaves than the declared list, so the specialisation chain ends |
| Canonicalizer.SpliceFacts | core/CustomTuple.h:102-106 | splicing `[Head::HeadType, Head::TailType] + rest` keeps the plain types in order and does not add leaves |
| Canonicalizer.HasIffFlatten | core/CustomTuple.h:77-85 | `has<T>()` holds iff T occurs at any depth in the declared list |
| Canonicalizer.IsDuplicateIffFlatten | core/CustomTuple.h:18-19 | `is_duplicate<T, Items...>` holds iff T occurs at any depth among the items |
| Canonicalizer.NodeHeadNotDuplicate | core/CustomTuple.h:114-118 | a type gets a storage node only when `is_duplicate` is false against its raw tail |
| Canonicalizer.NodeOfPlainHead | core/CustomTuple.h:114-118 | a plain head that reappears in the tail is dropped; otherwise it is the node with the rest as raw tail |
| Canonicalizer.CanonIsDedupFlatten | core/CustomTuple.h:102-118 | the slots are the declared plain types, flattened, with each type at its last occurrence |
| Canonicalizer.CanonNoDuplicates | core/CustomTuple.h:114-118 | no type has two slots |
| Canonicalizer.CanonElements | core/CustomTuple.h:102-118 | a type has a slot iff it occurs at any depth in the declaration |
| Canonicalizer.HasIffInCanon | core/CustomTuple.h:77-85 | `has<T>()` is membership in the canonical shape, so it is false on the empty shape |
| Canonicalizer.EmptyShapeIff | core/CustomTuple.h:108-112 | a shape is the empty `CustomTuple<>` iff it holds no plain type at any depth |
| Canonicalizer.CanonKeepsLastOccurrenceOrder | core/CustomTuple.h:114-118 | slots follow the order of the last occurrences of their types in the flattened declaration |
| Canonicalizer.CanonOfDistinctPlains | core/CustomTuple.h:44-55 | a flat list of distinct plain types gets one node per type, in order |
| Canonicalizer.CanonIdempotent | core/CustomTuple.h:102-118 | canonicalising a canonical shape changes nothing |
| Canonicalizer.CanonDropsEmpty | core/CustomTuple.h:108-112 | an empty container anywhere in the list contributes nothing |
| Canonicalizer.CanonSplicesNested | core/CustomTuple.h:102-106 | a nested container anywhere in the list has the same shape as its items written in its place |
| ShapeMap.MapOfRename | core/CustomTuple.h:50-51 | for a structural renaming rule, `Map` is the canonical shape renamed type by type, with collisions merged at their last position |
| ShapeMap.MapShapeNoDuplicates | core/CustomTuple.h:50-51 | every shape `Map` produces has no duplicate slot |
| ShapeMap.DedupImage | core/CustomTuple.h:50-51 | renaming before or after duplicate removal gives the same merged list |
| Storage.SlotOf | core/CustomTuple.h:67-75 | the walk down the chain stops at the first node whose `HeadType` is T |
| Storage.SlotOfUnique | core/CustomTuple.h:57-75 | in a canonical shape each type addresses exactly its own slot |
| Storage.VisitCallsEachSlotOnceInOrder | core/CustomTuple.h:87-91 | `apply` calls its handler once per slot, head first, and each slot receives the handler's result for it |
| Storage.VisitIfCallsSelectedInOrder | core/CustomTuple.h:93-99 | `applyIf` calls its handler exactly on the slots whose type passes the predicate, in order |
| Storage.VisitIfKeepsUnselected | core/CustomTuple.h:93-99 | `applyIf` leaves every slot whose type fails the predicate unchanged |
| Storage.Instance.constructor | core/CustomTuple.h:44-55 | a new container has one slot per type of the canonical shape, all at the initial value |
| Storage.Instance.Get | core/CustomTuple.h:67-75 | `get<T>()` returns the slot of T |
| Storage.Instance.Set | core/CustomTuple.h:57-65 | `set<T>(v)` overwrites the slot of T and no other |
| Storage.Instance.Apply | core/CustomTuple.h:87-91 | the new slots and handler state are those of visiting every slot in order (nothing on the empty shape) |
| Storage.Instance.ApplyIf | core/CustomTuple.h:93-99 | the new slots and handler state are those of visiting the slots that pass the predicate (nothing on the empty shape) |
| Storage.GetAfterSet | core/CustomTuple.h:57-75 | after `set<T>(v)`, `get<T>()` answers v and another type still answers its initial value |
| Demo.GatewayRuleIsMap | main.cpp:109-113 | the nested case of the gateway mapper is the container's own `Map` under the same mapper |
| Demo.NestedGatewayIsMap | main.cpp:102-126 | the mapper as written and the corrected mapper both map a non-empty container to its `Map` |
| Demo.CorrectedGatewayFlatten | main.cpp:102-126 | under the corrected mapper a descriptor's gateways are its instruments' gateways, up to repeats |
| Demo.CorrectedGatewayMap | main.cpp:149 | with the corrected mapper the gateway shape is the gateway of every instrument slot, repeats merged |
| Demo.FlattenExample | main.cpp:253-262 | `<short, <int, float>, double>` has the slots short, int, float, double |
| Demo.DedupExample | main.cpp:264-272 | `<int, <float, double, int>, float>` has exactly the slots double, int, float |
| Demo.LastOccurrenceWins | core/CustomTuple.h:114-118 | `<A, B, A>` has the slots B, A |
| Demo.RepeatedPairCollapses | core/CustomTuple.h:114-118 | `<A, B, A, B>` has the slots A, B |
| Demo.NestedEmptyIsEmpty | core/CustomTuple.h:108-112 | `CustomTuple<CustomTuple<>>` is empty and contributes nothing as an argument |
| Demo.MyMapperExample | main.cpp:245-250 | `<int, float>::Map<MyMapper>` has the slots long, double |
| Demo.NestedFloatShape | core/CustomTuple.h:102-106 | `<int, <float>>` has the slots int, float |
| Demo.MapSeesRawTail | core/CustomTuple.h:50-51 | `<int, <float>>::Map<MyMapper>` has the single slot long, because the rule sees the nested container whole |
| Demo.RegistryInstruments | main.cpp:128-136 | both strategies map to their two instrument lists |
| Demo.RegistryInstrumentShape | main.cpp:32-53 | the instrument lists of both strategies give three distinct instrument slots in declaration order |
| Demo.RegistryInstrumentsNode | core/CustomTuple.h:102-106 | the first node of that shape is USD/RUB FX, with the futures and equity lists as raw tail |
| Demo.SingleInstrumentGateway | main.cpp:115-123 | a one-instrument container maps to the container of its venue's gateway |
| Demo.RegistryGatewayArguments | main.cpp:149 | the gateway `Map` of both strategies has the FX gateway, then the futures and equity gateway containers |
| Demo.RegistryGateways | main.cpp:212-216 | both strategies connect three gateways: FX, futures, equity |
| Demo.ArbitrageInstrumentsNode | main.cpp:200-204 | Arbitrage alone maps to its instrument list, whose first node is USD/RUB FX |
| Demo.RegistryArbitrageOnly | main.cpp:200-204 | Arbitrage alone connects the FX and futures gateways |
| Demo.MarketMakingInstrumentsNode | main.cpp:206-210 | MarketMaking alone maps to `<<AFLT>>`, whose first node leaves the empty `CustomTuple<>` in its raw tail |
| Demo.RegistryMarketMakingOnly | main.cpp:206-210 | as written, MarketMaking alone connects the equity gateway and also an FX gateway |
| Demo.RegistryMarketMakingOnlyCorrected | main.cpp:102-126 | with the corrected mapper, MarketMaking alone connects the equity gateway only |
| Demo.RegistryGatewaysCorrected | main.cpp:212-216 | with the corrected mapper both strategies still connect the same three gateways |
| Demo.ApplyTwiceExample | main.cpp:225-230 | doubling `apply` on `<int, float>` visits int then float and doubles both |
| Demo.ApplyIfExample | main.cpp:232-243 | `applyIf<is_same_type<int>>` doubles only the int slot; `applyIf<is_same_type<float>>` triples only the float slot |
| Demo.IntFloatShape | main.cpp:218 | `<int, float>` has an int slot followed by a float slot |
| Demo.IntFloatWalkThrough | main.cpp:218-243 | the walk-through reads 123 and 456, then 246 and 912 after `apply`, then 492 and 2736 after the two `applyIf` calls |

## Left out

- C++ template mechanics are not modelled: concept substitution failure, class-scope explicit specialisations, private against public inheritance, and the `IsCustomTuple`/`IsEmptyCustomTuple` flags. They become the `Plain`/`Tuple` cases and the result of `Node`.
- A program that calls `get`/`set` with a type that has no slot does not compile. Here that is a precondition.
- `get` returns the slot's value, not a reference to it.
- Every slot of an `Instance` holds a value of one shared type `V`, and every slot starts at the same initial value given to the constructor. The per-type typing of `set<T>(const T &)` and `get<T>()` and the per-type `{}` default of each `head` field are not modelled.
- Floating point is not modelled. The walk-through stores its numbers as integers, which the `float` values in main.cpp hold exactly.
- Handlers are pure functions that return the new slot value. They may thread a state through the traversal, which is how the visiting order is stated. The source's handlers are lambdas that mutate the slot through a reference.
- Canonicalizer.Has: has no contract of its own, since it is the `has<T>()` chain walk of core/CustomTuple.h:38-41 and 77-85 written out. Its meaning is stated by `Canonicalizer.HasIffFlatten` and `Canonicalizer.HasIffInCanon`.
- Canonicalizer.IsDuplicate: has no contract of its own, since it is the `is_duplicate` fold of core/CustomTuple.h:18-19 written out. Its meaning is stated by `Canonicalizer.IsDuplicateIffFlatten`.
- Canonicalizer.Canon: has no contract of its own, since it is the chain of storage-node heads of core/CustomTuple.h:44-118. Its meaning is stated by `Canonicalizer.CanonIsDedupFlatten` and the lemmas after it.
- Storage.Visit: its only contract is that it keeps the number of slots, since it is the specification of `apply` (core/CustomTuple.h:87-91). Its meaning is stated by `Storage.VisitCallsEachSlotOnceInOrder`, and `Storage.Instance.Apply` is proved equal to it.
- Storage.OnlyIf: has no contract of its own, since it is the `if constexpr` test of core/CustomTuple.h:95-97 wrapped around a handler. Its meaning is stated by `Storage.VisitIfCallsSelectedInOrder` and `Storage.VisitIfKeepsUnselected`.
- Demo.MyMapper, Demo.StrategyToInstruments: have no contract of their own, since they are the fixture rules of main.cpp:184-197 and 128-136. What they produce is stated by `Demo.MyMapperExample`, `Demo.MapSeesRawTail` and `Demo.RegistryInstruments`.
- Demo.GatewayRule, Demo.InstrumentToGateway, Demo.GatewayOf: have no contract of their own, since they are the mapper of main.cpp:102-126. Its recursion into containers is stated by `Demo.GatewayRuleIsMap` and `Demo.NestedGatewayIsMap`, its effect on shapes by `Demo.CorrectedGatewayMap` and the `Demo.Registry` lemmas.
- ShapeMap.Map: has no contract of its own, since it is the definition from core/CustomTuple.h:50-51. Its meaning is stated by `ShapeMap.MapOfRename` and `ShapeMap.MapShapeNoDuplicates`.
- main.cpp's gateways (`connect`, `readPackage`), the `runMain` read loop and `makeMoney` dispatch, `HasInstrument`, and all printing are input/output around the container. They are not modelled beyond the shapes they give rise to.
- main.cpp's `set<long>`/`set<double>` calls on the mapped tuple are not modelled. `Demo.MyMapperExample` only gives that tuple's shape.
- Instrument definitions are identified by number, and `GatewayOf` stands for their `VenueType`.

## Findings

| source | as written | input that shows it | evidently intended | confidence | as-written member | corrected member |
|---|---|---|---|---|---|---|
| main.cpp:102-126 | `InstrumentToGatewayMapper` sends every type that matches neither the non-empty-container nor a venue specialisation to `MoexFxGateway`, including the empty `CustomTuple<>` | `CustomTuple<MarketMakingStrategy>` (main.cpp:206-210): the instrument shape `<<AFLT>>` splices to `<AFLT, CustomTuple<>>`, so its gateway `Map` is `<MoexEquityGateway, MoexFxGateway>` and an FX gateway is connected although no strategy trades FX | an empty container maps to an empty container, so the gateways are exactly those of the venues in use (`<MoexEquityGateway>`) | medium, not executed | Demo.RegistryMarketMakingOnly | Demo.CorrectedGatewayMap |
