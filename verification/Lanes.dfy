/** Which wallets a run signs with, and how the host's lane plan spreads them over start offsets. */
module Lanes {
  import opened Basics

  type Address = nat

  // ---- Selecting wallets from the key list ----

  datatype KeyEntry = KeyEntry(index: nat, address: Address)
  datatype Selection = Selection(indexes: seq<nat>, addresses: seq<Address>)

  function Matching(available: seq<KeyEntry>, requested: set<Address>): seq<KeyEntry> {
    if available == [] then []
    else Matching(available[..|available| - 1], requested) +
         if available[|available| - 1].address in requested then [available[|available| - 1]] else []
  }

  function IndexesOf(picked: seq<KeyEntry>): seq<nat> {
    seq(|picked|, i requires 0 <= i < |picked| => picked[i].index)
  }

  function AddressesOf(picked: seq<KeyEntry>): seq<Address> {
    seq(|picked|, i requires 0 <= i < |picked| => picked[i].address)
  }

  function SelectWallets(available: seq<KeyEntry>, addresses: seq<Address>): Result<Selection> {
    if addresses == [] then Err("EMPTY_EXECUTION_FLEET")
    else if !Distinct(addresses) then Err("WALLET_SELECTION_NOT_REPRESENTABLE")
    else
      var picked := Matching(available, ToSet(addresses));
      if |picked| != |addresses| || !Distinct(AddressesOf(picked)) || !Distinct(IndexesOf(picked)) then Err("WALLET_SELECTION_NOT_REPRESENTABLE")
      else Ok(Selection(IndexesOf(picked), AddressesOf(picked)))
  }

  lemma {:induction false} MatchingExact(available: seq<KeyEntry>, requested: set<Address>, k: KeyEntry)
    ensures k in Matching(available, requested) <==> k in available && k.address in requested
  {
    if available != [] {
      var n := |available| - 1;
      MatchingExact(available[..n], requested, k);
      assert available == available[..n] + [available[n]];
    }
  }

  /** A selection is exactly the requested set, each address once, with distinct key positions. */
  lemma SelectionIsRequest(available: seq<KeyEntry>, addresses: seq<Address>)
    requires SelectWallets(available, addresses).Ok?
    ensures var s := SelectWallets(available, addresses).value;
            && |s.indexes| == |s.addresses| == |addresses|
            && ToSet(s.addresses) == ToSet(addresses)
            && Distinct(s.addresses) && Distinct(s.indexes) && s.indexes != []
            && (forall i :: 0 <= i < |s.indexes| ==> KeyEntry(s.indexes[i], s.addresses[i]) in available)
  {
    var picked := Matching(available, ToSet(addresses));
    forall i | 0 <= i < |picked| ensures picked[i] in available && picked[i].address in addresses {
      MatchingExact(available, ToSet(addresses), picked[i]);
    }
    var chosen := AddressesOf(picked);
    assert ToSet(chosen) <= ToSet(addresses) by {
      forall a | a in chosen ensures a in addresses {
        var i :| 0 <= i < |chosen| && chosen[i] == a;
        assert picked[i].address == a;
      }
    }
    DistinctSize(chosen);
    DistinctSize(addresses);
    SameSizeSubset(ToSet(chosen), ToSet(addresses));
  }

  lemma SameSizeSubset<T>(a: set<T>, b: set<T>)
    requires a <= b && |a| == |b|
    ensures a == b
  {
    if x :| x in b && x !in a {
      SubsetSize(a + {x}, b);
    }
  }

  /** The order the wallets are requested in does not matter: same set, same outcome. */
  lemma OrderDoesNotMatter(available: seq<KeyEntry>, addresses: seq<Address>, reordered: seq<Address>)
    requires Distinct(addresses) && Distinct(reordered) && ToSet(addresses) == ToSet(reordered)
    ensures SelectWallets(available, addresses) == SelectWallets(available, reordered)
  {
    DistinctSize(addresses);
    DistinctSize(reordered);
  }

  /** No two requested entries of the key list share an address or a position. */
  ghost predicate NoClash(available: seq<KeyEntry>, requested: set<Address>) {
    forall k, m :: 0 <= k < m < |available| && available[k].address in requested && available[m].address in requested ==>
      available[k].address != available[m].address && available[k].index != available[m].index
  }

  ghost predicate Listed(available: seq<KeyEntry>, a: Address) {
    exists k :: 0 <= k < |available| && available[k].address == a
  }

  lemma NoClashFront(available: seq<KeyEntry>, requested: set<Address>)
    requires available != []
    ensures var n := |available| - 1;
            NoClash(available, requested) <==>
              NoClash(available[..n], requested) &&
              (available[n].address in requested ==>
                 forall x :: x in Matching(available[..n], requested) ==> x.address != available[n].address && x.index != available[n].index)
  {
    var n := |available| - 1;
    var front := available[..n];
    forall x ensures x in Matching(front, requested) <==> x in front && x.address in requested { MatchingExact(front, requested, x); }
    assert forall k :: 0 <= k < n ==> front[k] == available[k] && front[k] in front;
  }

  lemma DistinctLast<T>(s: seq<T>, x: T)
    ensures Distinct(s + [x]) <==> Distinct(s) && x !in s
  {
    var all := s + [x];
    if Distinct(all) {
      forall i, j | 0 <= i < j < |s| ensures s[i] != s[j] { assert all[i] != all[j]; }
      forall i | 0 <= i < |s| ensures s[i] != x { assert all[i] != all[|s|]; }
    }
  }

  /** The matching entries have distinct addresses and positions exactly when nothing clashes. */
  lemma {:induction false} MatchingDistinct(available: seq<KeyEntry>, requested: set<Address>)
    ensures var picked := Matching(available, requested);
            Distinct(AddressesOf(picked)) && Distinct(IndexesOf(picked)) <==> NoClash(available, requested)
  {
    if available != [] {
      var n := |available| - 1;
      var front, last := Matching(available[..n], requested), available[n];
      MatchingDistinct(available[..n], requested);
      NoClashFront(available, requested);
      if last.address in requested {
        assert AddressesOf(front + [last]) == AddressesOf(front) + [last.address];
        assert IndexesOf(front + [last]) == IndexesOf(front) + [last.index];
        DistinctLast(AddressesOf(front), last.address);
        DistinctLast(IndexesOf(front), last.index);
        LookedUp(front, last);
      } else {
        assert Matching(available, requested) == front;
      }
    }
  }

  lemma LookedUp(picked: seq<KeyEntry>, last: KeyEntry)
    ensures last.address in AddressesOf(picked) <==> exists x :: x in picked && x.address == last.address
    ensures last.index in IndexesOf(picked) <==> exists x :: x in picked && x.index == last.index
  {
    if x :| x in picked && x.address == last.address {
      var i :| 0 <= i < |picked| && picked[i] == x;
      assert AddressesOf(picked)[i] == last.address;
    }
    if x :| x in picked && x.index == last.index {
      var i :| 0 <= i < |picked| && picked[i] == x;
      assert IndexesOf(picked)[i] == last.index;
    }
    if last.address in AddressesOf(picked) {
      var i :| 0 <= i < |picked| && AddressesOf(picked)[i] == last.address;
      assert picked[i] in picked;
    }
    if last.index in IndexesOf(picked) {
      var i :| 0 <= i < |picked| && IndexesOf(picked)[i] == last.index;
      assert picked[i] in picked;
    }
  }

  lemma PickedAddresses(available: seq<KeyEntry>, addresses: seq<Address>)
    ensures ToSet(AddressesOf(Matching(available, ToSet(addresses)))) == set a | a in addresses && Listed(available, a)
  {
    var picked := Matching(available, ToSet(addresses));
    forall a ensures a in AddressesOf(picked) <==> a in addresses && Listed(available, a) {
      if a in AddressesOf(picked) {
        var i :| 0 <= i < |picked| && AddressesOf(picked)[i] == a;
        MatchingExact(available, ToSet(addresses), picked[i]);
        var k :| 0 <= k < |available| && available[k] == picked[i];
      }
      if a in addresses && Listed(available, a) {
        var k :| 0 <= k < |available| && available[k].address == a;
        MatchingExact(available, ToSet(addresses), available[k]);
        var i :| 0 <= i < |picked| && picked[i] == available[k];
        assert AddressesOf(picked)[i] == a;
      }
    }
  }

  /** A selection exists exactly when the request is non-empty and repeats nothing, every address is in the key list, and nothing clashes. */
  lemma SelectsExactly(available: seq<KeyEntry>, addresses: seq<Address>)
    ensures SelectWallets(available, addresses).Ok? <==>
            addresses != [] && Distinct(addresses) && NoClash(available, ToSet(addresses)) && forall a :: a in addresses ==> Listed(available, a)
  {
    var picked := Matching(available, ToSet(addresses));
    MatchingDistinct(available, ToSet(addresses));
    PickedAddresses(available, addresses);
    if Distinct(addresses) && Distinct(AddressesOf(picked)) {
      DistinctSize(addresses);
      DistinctSize(AddressesOf(picked));
      if |picked| == |addresses| {
        SameSizeSubset(ToSet(AddressesOf(picked)), ToSet(addresses));
        forall a | a in addresses ensures Listed(available, a) { assert a in ToSet(AddressesOf(picked)); }
      }
      if forall a :: a in addresses ==> Listed(available, a) {
        assert ToSet(AddressesOf(picked)) == ToSet(addresses);
      }
    }
  }

  // ---- The host's lane configuration ----

  datatype LaneConfig = LaneConfig(positions: seq<int>, startOffsetMs: int)
  datatype Lane = Lane(walletIndexes: seq<nat>, startOffsetMs: int)

  function Positions(lanes: seq<LaneConfig>): seq<int> {
    if lanes == [] then [] else Positions(lanes[..|lanes| - 1]) + lanes[|lanes| - 1].positions
  }

  predicate LaneOk(lane: LaneConfig, prior: int) {
    prior <= lane.startOffsetMs <= 30_000 && 1 <= |lane.positions| <= 100
  }

  function Prior(lanes: seq<LaneConfig>, i: nat): int
    requires i <= |lanes|
  {
    if i == 0 then 0 else lanes[i - 1].startOffsetMs
  }

  ghost predicate LaneAt(lanes: seq<LaneConfig>, i: nat)
    requires i < |lanes|
  {
    LaneOk(lanes[i], Prior(lanes, i))
  }

  ghost predicate OffsetsRise(lanes: seq<LaneConfig>) {
    forall i :: 0 <= i < |lanes| ==> LaneAt(lanes, i)
  }

  /** The positions of all lanes together number 0, 1, 2, ... without gaps or repeats. */
  ghost predicate Numbering(ps: seq<int>) {
    Distinct(ps) && forall p :: p in ps <==> 0 <= p < |ps|
  }

  ghost predicate ValidLanes(lanes: seq<LaneConfig>) {
    1 <= |lanes| <= 100 && OffsetsRise(lanes) && |Positions(lanes)| <= 100 && Numbering(Positions(lanes))
  }

  /** The positions scanned so far are in range, new, and exactly the ones remembered. */
  ghost predicate Scanned(ps: seq<int>, seen: set<int>) {
    Distinct(ps) && ToSet(ps) == seen && forall p :: p in ps ==> 0 <= p <= 99
  }

  method ScanPositions(positions: seq<int>, before: set<int>, ghost earlier: seq<int>) returns (ok: bool, seen: set<int>)
    requires Scanned(earlier, before)
    ensures ok <==> Distinct(earlier + positions) && forall p :: p in positions ==> 0 <= p <= 99
    ensures ok ==> Scanned(earlier + positions, seen)
  {
    seen := before;
    var i := 0;
    assert earlier + positions[..0] == earlier;
    while i < |positions|
      invariant 0 <= i <= |positions| && Scanned(earlier + positions[..i], seen)
    {
      var p := positions[i];
      assert earlier + positions[..i + 1] == (earlier + positions[..i]) + [p];
      if p < 0 || p > 99 {
        assert positions[i] in positions;
        return false, seen;
      }
      if p in seen {
        RepeatFound(earlier + positions[..i], p, positions[i + 1..]);
        assert (earlier + positions[..i]) + [p] + positions[i + 1..] == earlier + positions;
        return false, seen;
      }
      seen := seen + {p};
      i := i + 1;
    }
    assert positions[..i] == positions;
    forall p | p in positions ensures 0 <= p <= 99 { assert p in earlier + positions; }
    return true, seen;
  }

  lemma RepeatFound(before: seq<int>, p: int, rest: seq<int>)
    requires p in before
    ensures !Distinct(before + [p] + rest)
  {
    var all := before + [p] + rest;
    var i :| 0 <= i < |before| && before[i] == p;
    assert all[i] == all[|before|];
  }

  /** Accepts a host configuration exactly when its lanes are valid. */
  method ConfigureLanes(lanes: seq<LaneConfig>) returns (ok: bool)
    ensures ok <==> ValidLanes(lanes)
  {
    if |lanes| == 0 || |lanes| > 100 {
      return false;
    }
    var prior := 0;
    var seen: set<int> := {};
    var i := 0;
    while i < |lanes|
      invariant 0 <= i <= |lanes|
      invariant prior == Prior(lanes, i)
      invariant forall k :: 0 <= k < i ==> LaneAt(lanes, k)
      invariant Scanned(Positions(lanes[..i]), seen)
    {
      var lane := lanes[i];
      assert lanes[..i + 1][..i] == lanes[..i];
      if lane.startOffsetMs < prior || lane.startOffsetMs > 30_000 || |lane.positions| == 0 || |lane.positions| > 100 {
        assert !LaneAt(lanes, i);
        return false;
      }
      prior := lane.startOffsetMs;
      var good, seen' := ScanPositions(lane.positions, seen, Positions(lanes[..i]));
      if !good {
        BadPositions(lanes, i);
        return false;
      }
      seen := seen';
      i := i + 1;
    }
    assert lanes[..i] == lanes;
    ghost var ps := Positions(lanes);
    DistinctSize(ps);
    SmallSet(seen, 100);
    var position := 0;
    while position < |seen|
      invariant 0 <= position <= |seen| && forall p :: 0 <= p < position ==> p in seen
    {
      if position !in seen {
        assert position !in ps;
        return false;
      }
      position := position + 1;
    }
    Gapless(ps, seen);
    return true;
  }

  /** Duplicate or out-of-range positions of a prefix spoil the whole configuration. */
  lemma BadPositions(lanes: seq<LaneConfig>, i: nat)
    requires i < |lanes|
    requires !(Distinct(Positions(lanes[..i]) + lanes[i].positions) && forall p :: p in lanes[i].positions ==> 0 <= p <= 99)
    ensures !ValidLanes(lanes)
  {
    assert lanes[..i + 1][..i] == lanes[..i];
    PositionsPrefix(lanes, i + 1);
    var ps, front := Positions(lanes), Positions(lanes[..i + 1]);
    if ValidLanes(lanes) {
      assert Distinct(front) by {
        forall x, y | 0 <= x < y < |front| ensures front[x] != front[y] { assert ps[x] == front[x] && ps[y] == front[y]; }
      }
      forall p | p in lanes[i].positions ensures 0 <= p <= 99 {
        assert p in front;
        var k :| 0 <= k < |front| && front[k] == p;
        assert ps[k] == p && p in ps;
      }
    }
  }

  lemma {:induction false} PositionsPrefix(lanes: seq<LaneConfig>, i: nat)
    requires i <= |lanes|
    ensures Positions(lanes[..i]) <= Positions(lanes)
    decreases |lanes|
  {
    if i < |lanes| {
      assert lanes[..|lanes| - 1][..i] == lanes[..i];
      PositionsPrefix(lanes[..|lanes| - 1], i);
    } else {
      assert lanes[..i] == lanes;
    }
  }

  lemma SmallSet(s: set<int>, n: nat)
    requires forall p :: p in s ==> 0 <= p < n
    ensures |s| <= n
  {
    BelowExact(n);
    forall p | p in s ensures p in Below(n) { }
    SubsetSize(s, Below(n));
  }

  /** Distinct values that include 0 up to their own number are exactly that range. */
  lemma Gapless(ps: seq<int>, seen: set<int>)
    requires Distinct(ps) && ToSet(ps) == seen && |seen| == |ps| && forall p :: 0 <= p < |seen| ==> p in seen
    ensures Numbering(ps)
  {
    BelowExact(|ps|);
    forall p | p in Below(|ps|) ensures p in seen { assert 0 <= p < |seen|; }
    SameSizeSubset(Below(|ps|), seen);
    forall p ensures p in ps <==> 0 <= p < |ps| {
      assert p in ps <==> p in seen;
    }
  }

  // ---- Planning a selection ----

  function Keep(ps: seq<int>, n: nat): seq<int> {
    if ps == [] then [] else Keep(ps[..|ps| - 1], n) + if ps[|ps| - 1] < n then [ps[|ps| - 1]] else []
  }

  predicate InRange(ps: seq<int>, n: nat) {
    forall k :: 0 <= k < |ps| ==> 0 <= ps[k] < n
  }

  function Look(ps: seq<int>, indexes: seq<nat>): seq<nat>
    requires InRange(ps, |indexes|)
  {
    seq(|ps|, k requires 0 <= k < |ps| => indexes[ps[k]])
  }

  predicate NoNegative(ps: seq<int>) {
    forall k :: 0 <= k < |ps| ==> ps[k] >= 0
  }

  lemma {:induction false} KeepInRange(ps: seq<int>, n: nat)
    requires NoNegative(ps)
    ensures InRange(Keep(ps, n), n)
  {
    if ps != [] {
      KeepInRange(ps[..|ps| - 1], n);
    }
  }

  predicate NonNegative(lanes: seq<LaneConfig>) {
    forall i :: 0 <= i < |lanes| ==> NoNegative(lanes[i].positions)
  }

  function PlanOne(lane: LaneConfig, indexes: seq<nat>): seq<Lane>
    requires NoNegative(lane.positions)
  {
    KeepInRange(lane.positions, |indexes|);
    var kept := Keep(lane.positions, |indexes|);
    if kept == [] then [] else [Lane(Look(kept, indexes), lane.startOffsetMs)]
  }

  /** Every lane's positions, restricted to the fleet and looked up in it; lanes left empty are dropped. */
  function PlanLanes(lanes: seq<LaneConfig>, indexes: seq<nat>): seq<Lane>
    requires NonNegative(lanes)
  {
    if lanes == [] then [] else PlanLanes(lanes[..|lanes| - 1], indexes) + PlanOne(lanes[|lanes| - 1], indexes)
  }

  function WalletsOf(plan: seq<Lane>): seq<nat> {
    if plan == [] then [] else WalletsOf(plan[..|plan| - 1]) + plan[|plan| - 1].walletIndexes
  }

  lemma {:induction false} KeepConcat(a: seq<int>, b: seq<int>, n: nat)
    ensures Keep(a + b, n) == Keep(a, n) + Keep(b, n)
    decreases |b|
  {
    if b == [] {
      assert a + b == a;
    } else {
      var m := |b| - 1;
      assert (a + b)[..|a + b| - 1] == a + b[..m];
      KeepConcat(a, b[..m], n);
    }
  }

  lemma {:induction false} PositionsNonNegative(lanes: seq<LaneConfig>)
    requires NonNegative(lanes)
    ensures NoNegative(Positions(lanes))
  {
    if lanes != [] {
      PositionsNonNegative(lanes[..|lanes| - 1]);
    }
  }

  lemma LookConcat(a: seq<int>, b: seq<int>, indexes: seq<nat>)
    requires InRange(a, |indexes|) && InRange(b, |indexes|)
    ensures InRange(a + b, |indexes|) && Look(a + b, indexes) == Look(a, indexes) + Look(b, indexes)
  {
  }

  ghost predicate NoEmptyLane(plan: seq<Lane>) {
    forall i :: 0 <= i < |plan| ==> |plan[i].walletIndexes| > 0
  }

  lemma {:induction false} LanesWithinWallets(plan: seq<Lane>)
    requires NoEmptyLane(plan)
    ensures |plan| <= |WalletsOf(plan)|
  {
    if plan != [] {
      LanesWithinWallets(plan[..|plan| - 1]);
    }
  }

  lemma WalletsAppend(plan: seq<Lane>, lane: Lane)
    ensures WalletsOf(plan + [lane]) == WalletsOf(plan) + lane.walletIndexes
  {
    assert (plan + [lane])[..|plan|] == plan;
  }

  /** The wallets of a plan, in lane order, are the kept positions looked up one by one. */
  lemma {:induction false} WalletsOfPlan(lanes: seq<LaneConfig>, indexes: seq<nat>)
    requires NonNegative(lanes)
    ensures InRange(Keep(Positions(lanes), |indexes|), |indexes|)
    ensures WalletsOf(PlanLanes(lanes, indexes)) == Look(Keep(Positions(lanes), |indexes|), indexes)
    ensures NoEmptyLane(PlanLanes(lanes, indexes))
  {
    PositionsNonNegative(lanes);
    KeepInRange(Positions(lanes), |indexes|);
    if lanes != [] {
      var n := |lanes| - 1;
      var front, last := lanes[..n], lanes[n];
      WalletsOfPlan(front, indexes);
      KeepConcat(Positions(front), last.positions, |indexes|);
      KeepInRange(last.positions, |indexes|);
      var kept := Keep(last.positions, |indexes|);
      LookConcat(Keep(Positions(front), |indexes|), kept, indexes);
      var before := PlanLanes(front, indexes);
      if kept != [] {
        assert PlanLanes(lanes, indexes) == before + [Lane(Look(kept, indexes), last.startOffsetMs)];
        WalletsAppend(before, Lane(Look(kept, indexes), last.startOffsetMs));
      } else {
        assert PlanLanes(lanes, indexes) == before;
        assert Keep(Positions(lanes), |indexes|) == Keep(Positions(front), |indexes|);
      }
    }
  }

  lemma {:induction false} KeepExact(ps: seq<int>, n: nat)
    requires Distinct(ps)
    ensures Distinct(Keep(ps, n)) && forall p :: p in Keep(ps, n) <==> p in ps && p < n
  {
    if ps != [] {
      var m := |ps| - 1;
      KeepExact(ps[..m], n);
      assert ps == ps[..m] + [ps[m]];
      assert ps[m] !in ps[..m];
    }
  }

  /** Start offsets rise along the plan, from zero up to at most `top`. */
  ghost predicate Rising(plan: seq<Lane>, top: int) {
    && (forall i :: 0 <= i < |plan| ==> 0 <= plan[i].startOffsetMs <= top)
    && (forall i, j :: 0 <= i < j < |plan| ==> plan[i].startOffsetMs <= plan[j].startOffsetMs)
  }

  lemma RisingAppend(plan: seq<Lane>, prior: int, lane: Lane)
    requires Rising(plan, prior) && 0 <= prior <= lane.startOffsetMs
    ensures Rising(plan + [lane], lane.startOffsetMs) && Rising(plan, lane.startOffsetMs)
  {
  }

  lemma {:induction false} OffsetsOfPlan(lanes: seq<LaneConfig>, indexes: seq<nat>)
    requires NonNegative(lanes) && OffsetsRise(lanes)
    ensures 0 <= Prior(lanes, |lanes|) <= 30_000 && Rising(PlanLanes(lanes, indexes), Prior(lanes, |lanes|))
  {
    if lanes != [] {
      var n := |lanes| - 1;
      assert LaneAt(lanes, n);
      forall i | 0 <= i < n ensures LaneAt(lanes[..n], i) { assert LaneAt(lanes, i); }
      OffsetsOfPlan(lanes[..n], indexes);
      var before := PlanLanes(lanes[..n], indexes);
      assert Prior(lanes[..n], n) == Prior(lanes, n);
      KeepInRange(lanes[n].positions, |indexes|);
      var lane := Lane(Look(Keep(lanes[n].positions, |indexes|), indexes), lanes[n].startOffsetMs);
      RisingAppend(before, Prior(lanes, n), lane);
      assert PlanLanes(lanes, indexes) == before || PlanLanes(lanes, indexes) == before + [lane];
    }
  }

  /** The engine's own check of a lane plan. */
  ghost predicate EngineAccepts(selected: seq<nat>, plan: seq<Lane>) {
    && selected != [] && Distinct(selected) && 1 <= |plan| <= |selected|
    && (forall i :: 0 <= i < |plan| ==> plan[i].walletIndexes != [] && 0 <= plan[i].startOffsetMs <= 30_000)
    && (forall i, j :: 0 <= i < j < |plan| ==> plan[i].startOffsetMs <= plan[j].startOffsetMs)
    && Distinct(WalletsOf(plan)) && ToSet(WalletsOf(plan)) == ToSet(selected)
  }

  lemma ValidIsNonNegative(lanes: seq<LaneConfig>)
    requires ValidLanes(lanes)
    ensures NonNegative(lanes)
  {
    forall i | 0 <= i < |lanes| ensures NoNegative(lanes[i].positions) {
      assert lanes[..i + 1][..i] == lanes[..i];
      PositionsPrefix(lanes, i + 1);
      forall k | 0 <= k < |lanes[i].positions| ensures lanes[i].positions[k] >= 0 {
        assert Positions(lanes)[|Positions(lanes[..i])| + k] == lanes[i].positions[k];
        assert lanes[i].positions[k] in Positions(lanes);
      }
    }
  }

  /**
   * For every valid configuration and every selection it has room for, the plan lists each selected key index exactly
   * once, has no empty lane and rising start offsets, and the engine's own check accepts it.
   */
  lemma PlanIsExact(lanes: seq<LaneConfig>, selected: seq<nat>)
    requires ValidLanes(lanes) && selected != [] && Distinct(selected) && |selected| <= |Positions(lanes)|
    ensures NonNegative(lanes) && EngineAccepts(selected, PlanLanes(lanes, selected))
    ensures |WalletsOf(PlanLanes(lanes, selected))| == |selected|
  {
    ValidIsNonNegative(lanes);
    WalletsOfPlan(lanes, selected);
    OffsetsOfPlan(lanes, selected);
    LanesWithinWallets(PlanLanes(lanes, selected));
    var n := |selected|;
    var kept := Keep(Positions(lanes), n);
    KeepExact(Positions(lanes), n);
    forall i | 0 <= i < n ensures i in kept { assert i in Positions(lanes); }
    LookCovers(selected, kept);
    var plan := PlanLanes(lanes, selected);
    assert plan != [] by { assert |WalletsOf(plan)| == n; }
    forall i | 0 <= i < |plan| ensures plan[i].walletIndexes != [] && 0 <= plan[i].startOffsetMs <= 30_000 {
      assert |plan[i].walletIndexes| > 0;
    }
  }

  /** Looking up every position of a duplicate-free list once yields the list, in some order. */
  lemma LookCovers(selected: seq<nat>, kept: seq<int>)
    requires Distinct(selected) && Distinct(kept) && InRange(kept, |selected|) && forall i :: 0 <= i < |selected| ==> i in kept
    ensures Distinct(Look(kept, selected)) && ToSet(Look(kept, selected)) == ToSet(selected) && |Look(kept, selected)| == |selected|
  {
    var flat := Look(kept, selected);
    forall i, j | 0 <= i < j < |flat| ensures flat[i] != flat[j] { LookDistinct(selected, kept, i, j); }
    forall x ensures x in flat <==> x in selected {
      if x in flat { var k :| 0 <= k < |flat| && flat[k] == x; assert x == selected[kept[k]]; }
      if x in selected {
        var i :| 0 <= i < |selected| && selected[i] == x;
        assert i in kept;
        var k :| 0 <= k < |kept| && kept[k] == i;
        assert flat[k] == x;
      }
    }
    DistinctSize(flat);
    DistinctSize(selected);
    assert ToSet(flat) == ToSet(selected);
  }

  lemma LookDistinct(selected: seq<nat>, kept: seq<int>, i: nat, j: nat)
    requires Distinct(selected) && Distinct(kept) && InRange(kept, |selected|) && i < j < |kept|
    ensures selected[kept[i]] != selected[kept[j]]
  {
    if kept[i] < kept[j] {
      assert selected[kept[i]] != selected[kept[j]];
    } else {
      assert selected[kept[j]] != selected[kept[i]];
    }
  }

  /** The planning closure: a selection larger than the configuration is refused. */
  function FireLanes(lanes: seq<LaneConfig>, selected: seq<nat>): Result<seq<Lane>>
    requires NonNegative(lanes)
  {
    if |selected| > |Positions(lanes)| then Err("FIRE_LANE_SELECTED_FLEET_MISMATCH") else Ok(PlanLanes(lanes, selected))
  }

  /** From an approved wallet list to its lanes: the plan exists exactly when the fleet fits, and then fires every wallet once. */
  lemma ApprovedFleetFiresOnce(available: seq<KeyEntry>, addresses: seq<Address>, lanes: seq<LaneConfig>)
    requires SelectWallets(available, addresses).Ok? && ValidLanes(lanes)
    ensures NonNegative(lanes)
    ensures var s := SelectWallets(available, addresses).value;
            && (FireLanes(lanes, s.indexes).Ok? <==> |addresses| <= |Positions(lanes)|)
            && (FireLanes(lanes, s.indexes).Ok? ==> EngineAccepts(s.indexes, FireLanes(lanes, s.indexes).value))
  {
    SelectionIsRequest(available, addresses);
    ValidIsNonNegative(lanes);
    var s := SelectWallets(available, addresses).value;
    if |s.indexes| <= |Positions(lanes)| {
      PlanIsExact(lanes, s.indexes);
    }
  }

  // ---- Which lane a wallet goes to ----

  /** The planned lane is the configured one cut to the fleet: same start, and the wallets at its positions that exist. */
  ghost predicate IsCut(lane: Lane, configured: LaneConfig, selected: seq<nat>) {
    && lane.startOffsetMs == configured.startOffsetMs
    && forall x :: x in lane.walletIndexes <==>
         exists k :: 0 <= k < |configured.positions| && 0 <= configured.positions[k] < |selected| && x == selected[configured.positions[k]]
  }

  ghost predicate Reaches(configured: LaneConfig, n: nat) {
    exists k :: 0 <= k < |configured.positions| && configured.positions[k] < n
  }

  lemma {:induction false} KeepMembers(ps: seq<int>, n: nat, p: int)
    ensures p in Keep(ps, n) <==> p in ps && p < n
  {
    if ps != [] {
      var m := |ps| - 1;
      KeepMembers(ps[..m], n, p);
      assert ps == ps[..m] + [ps[m]];
    }
  }

  lemma CutExactly(lane: LaneConfig, selected: seq<nat>)
    requires NoNegative(lane.positions)
    ensures PlanOne(lane, selected) == [] <==> !Reaches(lane, |selected|)
    ensures PlanOne(lane, selected) != [] ==> |PlanOne(lane, selected)| == 1 && IsCut(PlanOne(lane, selected)[0], lane, selected)
  {
    var n := |selected|;
    var kept := Keep(lane.positions, n);
    KeepInRange(lane.positions, n);
    forall p ensures p in kept <==> p in lane.positions && p < n { KeepMembers(lane.positions, n, p); }
    forall k | 0 <= k < |lane.positions| && lane.positions[k] < n ensures kept != [] { assert lane.positions[k] in kept; }
    if kept != [] {
      assert kept[0] in kept;
      var k :| 0 <= k < |lane.positions| && lane.positions[k] == kept[0];
      var flat := Look(kept, selected);
      forall x ensures x in flat <==> exists k :: 0 <= k < |lane.positions| && 0 <= lane.positions[k] < n && x == selected[lane.positions[k]] {
        if x in flat {
          var i :| 0 <= i < |flat| && flat[i] == x;
          assert kept[i] in kept;
          var m :| 0 <= m < |lane.positions| && lane.positions[m] == kept[i];
        }
        if m :| 0 <= m < |lane.positions| && 0 <= lane.positions[m] < n && x == selected[lane.positions[m]] {
          assert lane.positions[m] in kept;
          var i :| 0 <= i < |kept| && kept[i] == lane.positions[m];
          assert flat[i] == x;
        }
      }
    }
  }

  /** Every planned lane is a configured one cut to the fleet. */
  lemma {:induction false} PlannedIsConfigured(lanes: seq<LaneConfig>, selected: seq<nat>, i: nat) returns (m: nat)
    requires NonNegative(lanes) && i < |PlanLanes(lanes, selected)|
    ensures m < |lanes| && IsCut(PlanLanes(lanes, selected)[i], lanes[m], selected)
    decreases |lanes|
  {
    var n := |lanes| - 1;
    var before := PlanLanes(lanes[..n], selected);
    if i < |before| {
      m := PlannedIsConfigured(lanes[..n], selected, i);
    } else {
      CutExactly(lanes[n], selected);
      m := n;
    }
  }

  /** Every configured lane that reaches the fleet is planned. */
  lemma {:induction false} ConfiguredIsPlanned(lanes: seq<LaneConfig>, selected: seq<nat>, m: nat) returns (i: nat)
    requires NonNegative(lanes) && m < |lanes| && Reaches(lanes[m], |selected|)
    ensures i < |PlanLanes(lanes, selected)| && IsCut(PlanLanes(lanes, selected)[i], lanes[m], selected)
    decreases |lanes|
  {
    var n := |lanes| - 1;
    var before := PlanLanes(lanes[..n], selected);
    if m < n {
      i := ConfiguredIsPlanned(lanes[..n], selected, m);
    } else {
      CutExactly(lanes[n], selected);
      i := |before|;
    }
  }
}
