/**
 * Run funding. The planner works out what the owner must send to each wallet for one run; the arm gate, written
 * separately, checks observed balances. Amounts travel between them as decimal text of at most forty digits.
 */
module Funding {
  import opened Basics

  type Address = nat

  /** What an address field may hold: something that is no address, or an address in its lower-case form. */
  datatype RawAddress = Malformed | Parsed(address: Address)

  datatype Ceiling = Ceiling(walletMaxWei: int, fleetMaxWei: int, runWalletMaxWei: Option<int>, runFleetMaxWei: Option<int>)

  const ROUNDING_WEI: int := 1_000_000_000_000
  const DECIMAL_LIMIT: int := 10_000_000_000_000_000_000_000_000_000_000_000_000_000

  function WalletBound(c: Ceiling): int {
    if c.runWalletMaxWei.Some? && c.runWalletMaxWei.value > c.walletMaxWei then c.runWalletMaxWei.value else c.walletMaxWei
  }

  function FleetBound(c: Ceiling): int {
    if c.runFleetMaxWei.Some? && c.runFleetMaxWei.value > c.fleetMaxWei then c.runFleetMaxWei.value else c.fleetMaxWei
  }

  function RoundUp(wei: int): int {
    ((wei + ROUNDING_WEI - 1) / ROUNDING_WEI) * ROUNDING_WEI
  }

  /** Rounding for display never shortens an amount and adds less than one display unit. */
  lemma RoundUpBounds(wei: int)
    requires wei >= 0
    ensures wei <= RoundUp(wei) < wei + ROUNDING_WEI && RoundUp(wei) % ROUNDING_WEI == 0
  {
  }

  // ---- The planner ----

  datatype Wallet = Wallet(address: RawAddress, balanceWei: int, requiredWei: int)
  datatype Item = Item(wallet: Address, balanceWei: int, requiredWei: int, envelopeWei: int, topUpWei: int)
  datatype Blocker =
    | NoCeiling | NoWallets | MarginInvalid | AddressInvalid | Duplicate(wallet: Address) | RequirementInvalid(wallet: Address)
    | AboveChainBound(wallet: Address) | AboveEnvelope(wallet: Address) | AboveFleetBound

  datatype Plan = Plan(
    items: seq<Item>, totalTopUpWei: int, envelopes: map<Address, int>, minimums: map<Address, int>, blockers: seq<Blocker>, ready: bool)

  function Envelope(c: Ceiling, margin: int, required: int): int {
    if required + margin > WalletBound(c) && required <= WalletBound(c) then WalletBound(c) else required + margin
  }

  function Limit(c: Ceiling, margin: int, required: int): int {
    Max(Envelope(c, margin, required), c.walletMaxWei)
  }

  function TopUp(c: Ceiling, margin: int, balance: int, required: int): int {
    var shortfall := if required > balance then RoundUp(required - balance) else 0;
    var limit := Limit(c, margin, required);
    var room := if limit > balance then limit - balance else 0;
    Min(shortfall, room)
  }

  datatype Tally = Tally(
    seen: set<Address>, totalWei: int, envelopeTotalWei: int, items: seq<Item>,
    envelopes: map<Address, int>, minimums: map<Address, int>, blockers: seq<Blocker>)

  const NOTHING := Tally({}, 0, 0, [], map[], map[], [])

  function PlanWallet(c: Ceiling, margin: int, t: Tally, w: Wallet): Tally {
    if w.address.Malformed? then t.(blockers := t.blockers + [AddressInvalid])
    else
      var a := w.address.address;
      if a in t.seen then t.(blockers := t.blockers + [Duplicate(a)])
      else if w.requiredWei <= 0 || w.balanceWei < 0 then t.(seen := t.seen + {a}, blockers := t.blockers + [RequirementInvalid(a)])
      else
        var envelope := Envelope(c, margin, w.requiredWei);
        var topUp := TopUp(c, margin, w.balanceWei, w.requiredWei);
        var limit := Limit(c, margin, w.requiredWei);
        Tally(
          t.seen + {a}, t.totalWei + topUp, t.envelopeTotalWei + limit,
          t.items + [Item(a, w.balanceWei, w.requiredWei, envelope, topUp)],
          t.envelopes[a := envelope], t.minimums[a := w.requiredWei],
          t.blockers + (if w.requiredWei > WalletBound(c) then [AboveChainBound(a)] else [])
                     + (if w.balanceWei > limit then [AboveEnvelope(a)] else []))
  }

  function PlanWallets(c: Ceiling, margin: int, wallets: seq<Wallet>): Tally {
    if wallets == [] then NOTHING
    else PlanWallet(c, margin, PlanWallets(c, margin, wallets[..|wallets| - 1]), wallets[|wallets| - 1])
  }

  function Blocked(b: Blocker): Plan {
    Plan([], 0, map[], map[], [b], false)
  }

  function PlanOf(ceiling: Option<Ceiling>, wallets: seq<Wallet>, margin: int): Plan {
    if ceiling.None? || ceiling.value.walletMaxWei <= 0 || ceiling.value.fleetMaxWei <= 0 then Blocked(NoCeiling)
    else if wallets == [] then Blocked(NoWallets)
    else if margin < 0 then Blocked(MarginInvalid)
    else
      var t := PlanWallets(ceiling.value, margin, wallets);
      var blockers := t.blockers + if t.envelopeTotalWei > FleetBound(ceiling.value) then [AboveFleetBound] else [];
      Plan(t.items, t.totalWei, t.envelopes, t.minimums, blockers, blockers == [] && t.totalWei == 0)
  }

  method PlanRunFunding(ceiling: Option<Ceiling>, wallets: seq<Wallet>, margin: int) returns (plan: Plan)
    ensures plan == PlanOf(ceiling, wallets, margin)
  {
    if ceiling.None? || ceiling.value.walletMaxWei <= 0 || ceiling.value.fleetMaxWei <= 0 {
      return Blocked(NoCeiling);
    }
    if |wallets| == 0 {
      return Blocked(NoWallets);
    }
    if margin < 0 {
      return Blocked(MarginInvalid);
    }
    var t := NOTHING;
    for i := 0 to |wallets|
      invariant t == PlanWallets(ceiling.value, margin, wallets[..i])
    {
      assert wallets[..i + 1][..i] == wallets[..i];
      t := PlanWallet(ceiling.value, margin, t, wallets[i]);
    }
    assert wallets[..|wallets|] == wallets;
    var blockers := t.blockers;
    if t.envelopeTotalWei > FleetBound(ceiling.value) {
      blockers := blockers + [AboveFleetBound];
    }
    plan := Plan(t.items, t.totalWei, t.envelopes, t.minimums, blockers, |blockers| == 0 && t.totalWei == 0);
  }

  // ---- The arm gate ----

  datatype Observation = Observation(address: RawAddress, balanceWei: int)

  datatype GateError =
    | GateNoCeiling | Stale | NoWalletsObserved | InvalidWallet | DuplicateWallet | InvalidBalance | WalletAboveLimit
    | InvalidMinimum | FundingNotArrived | WalletSetMismatch | FleetAboveLimit

  /** Reading an amount back from its text: at most forty digits, no sign. */
  function ReadWei(n: int): Option<int> {
    if 0 <= n < DECIMAL_LIMIT then Some(n) else None
  }

  function Lookup(m: map<Address, int>, a: Address): Option<int> {
    if a in m then ReadWei(m[a]) else None
  }

  function WalletLimitFor(envelopes: map<Address, int>, c: Ceiling, a: Address): int {
    var envelope := Lookup(envelopes, a);
    if envelope.None? || envelope.value <= c.walletMaxWei then c.walletMaxWei else Min(envelope.value, WalletBound(c))
  }

  function WalletError(envelopes: map<Address, int>, minimums: map<Address, int>, c: Ceiling, seen: set<Address>, o: Observation): Option<GateError> {
    if o.address.Malformed? then Some(InvalidWallet)
    else
      var a := o.address.address;
      if a in seen then Some(DuplicateWallet)
      else if ReadWei(o.balanceWei).None? then Some(InvalidBalance)
      else if o.balanceWei > WalletLimitFor(envelopes, c, a) then Some(WalletAboveLimit)
      else if a in minimums && ReadWei(minimums[a]).None? then Some(InvalidMinimum)
      else if a in minimums && o.balanceWei < minimums[a] then Some(FundingNotArrived)
      else None
  }

  function Addresses(obs: seq<Observation>): set<Address> {
    set i | 0 <= i < |obs| && obs[i].address.Parsed? :: obs[i].address.address
  }

  function FirstError(envelopes: map<Address, int>, minimums: map<Address, int>, c: Ceiling, obs: seq<Observation>): Option<GateError> {
    if obs == [] then None
    else
      var n := |obs| - 1;
      var before := FirstError(envelopes, minimums, c, obs[..n]);
      if before.Some? then before else WalletError(envelopes, minimums, c, Addresses(obs[..n]), obs[n])
  }

  function FleetTotal(obs: seq<Observation>): int {
    if obs == [] then 0 else FleetTotal(obs[..|obs| - 1]) + obs[|obs| - 1].balanceWei
  }

  function LimitTotal(envelopes: map<Address, int>, c: Ceiling, obs: seq<Observation>): int {
    if obs == [] then 0
    else
      LimitTotal(envelopes, c, obs[..|obs| - 1]) +
      if obs[|obs| - 1].address.Parsed? then WalletLimitFor(envelopes, c, obs[|obs| - 1].address.address) else 0
  }

  /** Without run envelopes the idle fleet ceiling applies; with them it rises to what the wallets may hold, up to the bound. */
  function FleetLimit(run: Option<map<Address, int>>, c: Ceiling, obs: seq<Observation>): int {
    if run.None? then c.fleetMaxWei else Max(c.fleetMaxWei, Min(LimitTotal(run.value, c, obs), FleetBound(c)))
  }

  function EnvelopesOf(run: Option<map<Address, int>>): map<Address, int> {
    if run.Some? then run.value else map[]
  }

  function GateOf(
    ceiling: Option<Ceiling>, recent: bool, obs: seq<Observation>, run: Option<map<Address, int>>, minimums: map<Address, int>, expected: set<Address>)
    : Option<GateError>
  {
    if ceiling.None? || ceiling.value.walletMaxWei <= 0 || ceiling.value.fleetMaxWei <= 0 then Some(GateNoCeiling)
    else if !recent then Some(Stale)
    else if obs == [] then Some(NoWalletsObserved)
    else
      var c := ceiling.value;
      var error := FirstError(EnvelopesOf(run), minimums, c, obs);
      if error.Some? then error
      else if Addresses(obs) != expected then Some(WalletSetMismatch)
      else if FleetTotal(obs) > FleetLimit(run, c, obs) then Some(FleetAboveLimit)
      else None
  }

  method CheckBalances(
    ceiling: Option<Ceiling>, recent: bool, obs: seq<Observation>, run: Option<map<Address, int>>, minimums: map<Address, int>, expected: set<Address>)
    returns (error: Option<GateError>)
    ensures error == GateOf(ceiling, recent, obs, run, minimums, expected)
  {
    if ceiling.None? || ceiling.value.walletMaxWei <= 0 || ceiling.value.fleetMaxWei <= 0 {
      return Some(GateNoCeiling);
    }
    if !recent {
      return Some(Stale);
    }
    if |obs| == 0 {
      return Some(NoWalletsObserved);
    }
    var c := ceiling.value;
    var envelopes := EnvelopesOf(run);
    var seen: set<Address> := {};
    var fleet, limits := 0, 0;
    for i := 0 to |obs|
      invariant FirstError(envelopes, minimums, c, obs[..i]).None?
      invariant seen == Addresses(obs[..i])
      invariant fleet == FleetTotal(obs[..i]) && limits == LimitTotal(envelopes, c, obs[..i])
    {
      assert obs[..i + 1][..i] == obs[..i];
      error := WalletError(envelopes, minimums, c, seen, obs[i]);
      if error.Some? {
        ErrorStays(envelopes, minimums, c, obs, i + 1);
        return;
      }
      var a := obs[i].address.address;
      assert Addresses(obs[..i + 1]) == seen + {a} by {
        assert forall k :: 0 <= k < i ==> obs[..i + 1][k] == obs[..i][k];
      }
      seen := seen + {a};
      fleet := fleet + obs[i].balanceWei;
      limits := limits + WalletLimitFor(envelopes, c, a);
    }
    assert obs[..|obs|] == obs;
    if seen != expected {
      return Some(WalletSetMismatch);
    }
    if fleet > (if run.None? then c.fleetMaxWei else Max(c.fleetMaxWei, Min(limits, FleetBound(c)))) {
      return Some(FleetAboveLimit);
    }
    return None;
  }

  lemma {:induction false} ErrorStays(envelopes: map<Address, int>, minimums: map<Address, int>, c: Ceiling, obs: seq<Observation>, i: nat)
    requires i <= |obs| && FirstError(envelopes, minimums, c, obs[..i]).Some?
    ensures FirstError(envelopes, minimums, c, obs) == FirstError(envelopes, minimums, c, obs[..i])
    decreases |obs|
  {
    if i == |obs| {
      assert obs[..i] == obs;
    } else {
      assert obs[..|obs| - 1][..i] == obs[..i];
      ErrorStays(envelopes, minimums, c, obs[..|obs| - 1], i);
    }
  }

  // ---- The two agree ----

  /**
   * The planner's limit for a wallet is the gate's, exactly when the envelope survives its trip through decimal text or
   * does not raise the wallet above its idle ceiling anyway.
   */
  lemma LimitsAgreeExactly(c: Ceiling, margin: int, required: int, envelopes: map<Address, int>, a: Address)
    requires c.walletMaxWei > 0 && margin >= 0 && 0 < required <= WalletBound(c)
    requires a in envelopes && envelopes[a] == Envelope(c, margin, required)
    ensures WalletLimitFor(envelopes, c, a) == Limit(c, margin, required) <==>
            (envelopes[a] < DECIMAL_LIMIT || envelopes[a] <= c.walletMaxWei)
  {
  }

  /** A planned wallet without blockers needs money exactly when it is short, and the top-up never overshoots its limit. */
  lemma TopUpExact(c: Ceiling, margin: int, balance: int, required: int)
    requires margin >= 0 && 0 <= balance <= Limit(c, margin, required) && 0 < required <= WalletBound(c)
    ensures TopUp(c, margin, balance, required) >= 0
    ensures TopUp(c, margin, balance, required) == 0 <==> balance >= required
    ensures required <= balance + TopUp(c, margin, balance, required) || balance >= required
    ensures balance + TopUp(c, margin, balance, required) <= Limit(c, margin, required)
  {
    if required > balance {
      RoundUpBounds(required - balance);
    }
  }

  ghost predicate ItemOk(c: Ceiling, margin: int, it: Item) {
    && 0 < it.requiredWei <= WalletBound(c) && 0 <= it.balanceWei <= Limit(c, margin, it.requiredWei)
    && it.envelopeWei == Envelope(c, margin, it.requiredWei)
    && it.topUpWei == TopUp(c, margin, it.balanceWei, it.requiredWei)
  }

  ghost function ItemLimits(c: Ceiling, margin: int, items: seq<Item>): int {
    if items == [] then 0 else ItemLimits(c, margin, items[..|items| - 1]) + Limit(c, margin, items[|items| - 1].requiredWei)
  }

  ghost function ItemTopUps(items: seq<Item>): int {
    if items == [] then 0 else ItemTopUps(items[..|items| - 1]) + items[|items| - 1].topUpWei
  }

  /** The tally carries wallet `w` as item `it`, with its envelope and its minimum. */
  ghost predicate Entered(c: Ceiling, margin: int, t: Tally, w: Wallet, it: Item) {
    && ItemOk(c, margin, it)
    && w.address == Parsed(it.wallet) && w.balanceWei == it.balanceWei && w.requiredWei == it.requiredWei
    && it.wallet in t.seen
    && it.wallet in t.envelopes && t.envelopes[it.wallet] == it.envelopeWei
    && it.wallet in t.minimums && t.minimums[it.wallet] == it.requiredWei
  }

  ghost predicate OncePerWallet(items: seq<Item>) {
    forall i, j :: 0 <= i < j < |items| ==> items[i].wallet != items[j].wallet
  }

  ghost predicate TallyOk(c: Ceiling, margin: int, t: Tally, wallets: seq<Wallet>) {
    && |t.items| == |wallets|
    && (forall i :: 0 <= i < |t.items| ==> Entered(c, margin, t, wallets[i], t.items[i]))
    && OncePerWallet(t.items)
    && t.totalWei == ItemTopUps(t.items) && t.envelopeTotalWei == ItemLimits(c, margin, t.items)
  }

  /** A wallet without a blocker adds one sound item and disturbs no other. */
  lemma PlanWalletAdds(c: Ceiling, margin: int, t: Tally, w: Wallet)
    requires t.blockers == [] && PlanWallet(c, margin, t, w).blockers == []
    ensures w.address.Parsed? && w.address.address !in t.seen
    ensures var t' := PlanWallet(c, margin, t, w);
            && |t'.items| == |t.items| + 1 && t'.items[..|t.items|] == t.items
            && Entered(c, margin, t', w, t'.items[|t.items|])
            && t'.totalWei == t.totalWei + t'.items[|t.items|].topUpWei
            && t'.envelopeTotalWei == t.envelopeTotalWei + Limit(c, margin, w.requiredWei)
    ensures forall v, it :: Entered(c, margin, t, v, it) ==> Entered(c, margin, PlanWallet(c, margin, t, w), v, it)
  {
  }

  /** One more wallet without a blocker keeps the tally sound. */
  lemma PlanWalletShape(c: Ceiling, margin: int, t: Tally, wallets: seq<Wallet>, w: Wallet)
    requires TallyOk(c, margin, t, wallets) && t.blockers == [] && PlanWallet(c, margin, t, w).blockers == []
    ensures TallyOk(c, margin, PlanWallet(c, margin, t, w), wallets + [w])
  {
    var t' := PlanWallet(c, margin, t, w);
    var n := |t.items|;
    PlanWalletAdds(c, margin, t, w);
    forall i | 0 <= i < |t'.items| ensures Entered(c, margin, t', (wallets + [w])[i], t'.items[i]) {
      if i < n {
        assert t'.items[i] == t'.items[..n][i];
        assert Entered(c, margin, t, wallets[i], t.items[i]);
      }
    }
    forall i, j | 0 <= i < j < |t'.items| ensures t'.items[i].wallet != t'.items[j].wallet {
      assert t'.items[i] == t'.items[..n][i] && Entered(c, margin, t, wallets[i], t.items[i]);
      if j < n { assert t'.items[j] == t'.items[..n][j]; }
    }
  }

  lemma BlockersStay(c: Ceiling, margin: int, t: Tally, w: Wallet)
    requires PlanWallet(c, margin, t, w).blockers == []
    ensures t.blockers == []
  {
  }

  /** An unblocked plan lists every wallet once, with sound amounts. */
  lemma {:induction false} PlanShape(c: Ceiling, margin: int, wallets: seq<Wallet>)
    requires PlanWallets(c, margin, wallets).blockers == []
    ensures TallyOk(c, margin, PlanWallets(c, margin, wallets), wallets)
  {
    if wallets != [] {
      var n := |wallets| - 1;
      var t := PlanWallets(c, margin, wallets[..n]);
      BlockersStay(c, margin, t, wallets[n]);
      PlanShape(c, margin, wallets[..n]);
      PlanWalletShape(c, margin, t, wallets[..n], wallets[n]);
      assert wallets == wallets[..n] + [wallets[n]];
    }
  }

  // ---- Sums do not depend on the order wallets are observed in ----

  ghost function SumOver(s: seq<Address>, f: Address -> int): int {
    if s == [] then 0 else SumOver(s[..|s| - 1], f) + f(s[|s| - 1])
  }

  lemma {:induction false} SumWithout(s: seq<Address>, f: Address -> int, i: nat)
    requires i < |s|
    ensures SumOver(s, f) == SumOver(s[..i] + s[i + 1..], f) + f(s[i])
    decreases |s|
  {
    var n := |s| - 1;
    if i == n {
      assert s[..i] + s[i + 1..] == s[..n];
    } else {
      SumWithout(s[..n], f, i);
      var rest := s[..i] + s[i + 1..];
      assert rest[..|rest| - 1] == s[..n][..i] + s[..n][i + 1..] && rest[|rest| - 1] == s[n];
    }
  }

  /** Taking one place out of a sequence of distinct addresses takes out that address alone. */
  lemma WithoutPlace(y: seq<Address>, i: nat, a: Address)
    requires Distinct(y) && i < |y|
    ensures a in y[..i] + y[i + 1..] <==> a in y && a != y[i]
  {
    var rest := y[..i] + y[i + 1..];
    if a in y && a != y[i] {
      var k :| 0 <= k < |y| && y[k] == a;
      assert rest[if k < i then k else k - 1] == a;
    }
    if a in rest {
      var k :| 0 <= k < |rest| && rest[k] == a;
      assert y[if k < i then k else k + 1] == a;
    }
  }

  lemma {:induction false} SumPermutes(x: seq<Address>, y: seq<Address>, f: Address -> int)
    requires Distinct(x) && Distinct(y) && forall a :: a in x <==> a in y
    ensures SumOver(x, f) == SumOver(y, f)
    decreases |x|
  {
    if x == [] {
      assert forall k :: 0 <= k < |y| ==> y[k] in x;
    } else {
      var n := |x| - 1;
      assert x[n] in y;
      var i :| 0 <= i < |y| && y[i] == x[n];
      var rest := y[..i] + y[i + 1..];
      assert x[..n] + x[n + 1..] == x[..n];
      forall a ensures a in x[..n] <==> a in rest {
        WithoutPlace(x, n, a);
        WithoutPlace(y, i, a);
      }
      SumPermutes(x[..n], rest, f);
      SumWithout(y, f, i);
    }
  }

  // ---- The gate on a planned fleet ----

  function Credit(it: Item, funded: bool): int {
    it.balanceWei + if funded then it.topUpWei else 0
  }

  /** An order to observe `n` planned wallets in: each of them once. */
  ghost predicate IsOrder(order: seq<nat>, n: nat) {
    |order| == n && Distinct(order) && forall k :: 0 <= k < |order| ==> order[k] < n
  }

  function Picked(items: seq<Item>, order: seq<nat>): seq<Item>
    requires forall k :: 0 <= k < |order| ==> order[k] < |items|
  {
    seq(|order|, k requires 0 <= k < |order| => items[order[k]])
  }

  /** Every item observed at its current balance, or at its balance once topped up. */
  function Observed(items: seq<Item>, funded: bool): seq<Observation> {
    seq(|items|, i requires 0 <= i < |items| => Observation(Parsed(items[i].wallet), Credit(items[i], funded)))
  }

  function Planned(items: seq<Item>): seq<Address> {
    seq(|items|, i requires 0 <= i < |items| => items[i].wallet)
  }

  lemma OrderCovers(order: seq<nat>, n: nat, i: nat)
    requires IsOrder(order, n) && i < n
    ensures i in order
  {
    var used := set k | k in order;
    DistinctSize(order);
    BelowExact(n);
    if i !in used {
      SubsetSize(used + {i}, Below(n));
    }
  }

  /** Sound items, each with its envelope and its minimum. */
  ghost predicate PlanOk(c: Ceiling, margin: int, plan: Plan, items: seq<Item>) {
    && c.walletMaxWei > 0 && margin >= 0 && OncePerWallet(items)
    && forall i :: 0 <= i < |items| ==> InPlan(c, margin, plan, items[i])
  }

  ghost predicate InPlan(c: Ceiling, margin: int, plan: Plan, it: Item) {
    && ItemOk(c, margin, it)
    && it.wallet in plan.envelopes && plan.envelopes[it.wallet] == it.envelopeWei
    && it.wallet in plan.minimums && plan.minimums[it.wallet] == it.requiredWei
  }

  lemma PickedOk(c: Ceiling, margin: int, plan: Plan, items: seq<Item>, order: seq<nat>)
    requires PlanOk(c, margin, plan, items) && IsOrder(order, |items|)
    ensures PlanOk(c, margin, plan, Picked(items, order))
  {
    var picked := Picked(items, order);
    forall i, j | 0 <= i < j < |picked| ensures picked[i].wallet != picked[j].wallet {
      assert order[i] != order[j];
    }
    forall i | 0 <= i < |picked| ensures InPlan(c, margin, plan, picked[i]) {
      assert InPlan(c, margin, plan, items[order[i]]);
    }
  }

  /** The amounts the gate reads for a planned wallet fit their text, or the wallet stays under its idle ceiling anyway. */
  predicate Fits(c: Ceiling, it: Item, funded: bool) {
    Credit(it, funded) < DECIMAL_LIMIT && (it.envelopeWei < DECIMAL_LIMIT || Credit(it, funded) <= c.walletMaxWei)
  }

  /** The wallet holds what its run needs, in amounts the gate can read. */
  predicate Passes(c: Ceiling, it: Item, funded: bool) {
    Credit(it, funded) >= it.requiredWei && Fits(c, it, funded)
  }

  ghost predicate AllPass(c: Ceiling, items: seq<Item>, funded: bool) {
    forall i :: 0 <= i < |items| ==> Passes(c, items[i], funded)
  }

  /** What the gate decides about one planned wallet: whether its money has arrived, in amounts it can read. */
  lemma WalletVerdict(c: Ceiling, margin: int, plan: Plan, it: Item, seen: set<Address>, funded: bool)
    requires c.walletMaxWei > 0 && margin >= 0 && InPlan(c, margin, plan, it) && it.wallet !in seen
    ensures var error := WalletError(plan.envelopes, plan.minimums, c, seen, Observation(Parsed(it.wallet), Credit(it, funded)));
            && (error.None? <==> Passes(c, it, funded))
            && (error.None? ==> Credit(it, funded) <= WalletLimitFor(plan.envelopes, c, it.wallet))
    ensures WalletLimitFor(plan.envelopes, c, it.wallet) <= Limit(c, margin, it.requiredWei)
  {
    LimitsAgreeExactly(c, margin, it.requiredWei, plan.envelopes, it.wallet);
    TopUpExact(c, margin, it.balanceWei, it.requiredWei);
  }

  lemma AllPassSplit(c: Ceiling, items: seq<Item>, funded: bool)
    requires items != []
    ensures AllPass(c, items, funded) <==> AllPass(c, items[..|items| - 1], funded) && Passes(c, items[|items| - 1], funded)
  {
    assert forall i :: 0 <= i < |items| - 1 ==> items[..|items| - 1][i] == items[i];
  }

  lemma ObservedAddresses(items: seq<Item>, funded: bool)
    ensures Addresses(Observed(items, funded)) == set a | a in Planned(items)
  {
    var obs := Observed(items, funded);
    forall a | a in Addresses(obs) ensures a in Planned(items) {
      var i :| 0 <= i < |obs| && obs[i].address.Parsed? && obs[i].address.address == a;
      assert Planned(items)[i] == a;
    }
    forall a | a in Planned(items) ensures a in Addresses(obs) {
      var i :| 0 <= i < |items| && Planned(items)[i] == a;
      assert obs[i].address.address == a;
    }
  }

  /** The front of a planned fleet is one, and does not hold the last wallet. */
  lemma FrontOk(c: Ceiling, margin: int, plan: Plan, items: seq<Item>)
    requires PlanOk(c, margin, plan, items) && items != []
    ensures var n := |items| - 1;
            && PlanOk(c, margin, plan, items[..n]) && InPlan(c, margin, plan, items[n])
            && items[n].wallet !in Planned(items[..n])
  {
    var n := |items| - 1;
    var front := items[..n];
    forall i | 0 <= i < n ensures InPlan(c, margin, plan, front[i]) { assert InPlan(c, margin, plan, items[i]); }
    assert forall i :: 0 <= i < n ==> Planned(front)[i] == items[i].wallet && items[i].wallet != items[n].wallet;
  }

  /** One more observation, seen by the scan and by both totals. */
  lemma ScanLast(envelopes: map<Address, int>, minimums: map<Address, int>, c: Ceiling, front: seq<Observation>, a: Address, balance: int)
    ensures var last := Observation(Parsed(a), balance);
            var obs := front + [last];
            && (FirstError(envelopes, minimums, c, obs).None? <==>
                FirstError(envelopes, minimums, c, front).None? && WalletError(envelopes, minimums, c, Addresses(front), last).None?)
            && FleetTotal(obs) == FleetTotal(front) + balance
            && LimitTotal(envelopes, c, obs) == LimitTotal(envelopes, c, front) + WalletLimitFor(envelopes, c, a)
  {
    var obs := front + [Observation(Parsed(a), balance)];
    assert obs[..|obs| - 1] == front;
  }

  /** The scan passes exactly when every wallet does, and then no balance exceeds the gate's limits, which never exceed the planner's. */
  lemma {:induction false} ScanVerdict(c: Ceiling, margin: int, plan: Plan, items: seq<Item>, funded: bool)
    requires PlanOk(c, margin, plan, items)
    ensures var obs := Observed(items, funded);
            var error := FirstError(plan.envelopes, plan.minimums, c, obs);
            && (error.None? <==> AllPass(c, items, funded))
            && (error.None? ==> FleetTotal(obs) <= LimitTotal(plan.envelopes, c, obs))
            && LimitTotal(plan.envelopes, c, obs) <= ItemLimits(c, margin, items)
  {
    if items != [] {
      var n := |items| - 1;
      var front := items[..n];
      var seen := Observed(front, funded);
      assert Observed(items, funded) == seen + [Observation(Parsed(items[n].wallet), Credit(items[n], funded))];
      FrontOk(c, margin, plan, items);
      ScanVerdict(c, margin, plan, front, funded);
      ObservedAddresses(front, funded);
      WalletVerdict(c, margin, plan, items[n], Addresses(seen), funded);
      ScanLast(plan.envelopes, plan.minimums, c, seen, items[n].wallet, Credit(items[n], funded));
      AllPassSplit(c, items, funded);
    }
  }

  lemma {:induction false} ItemLimitsIsSum(c: Ceiling, margin: int, items: seq<Item>, f: Address -> int)
    requires forall i :: 0 <= i < |items| ==> f(items[i].wallet) == Limit(c, margin, items[i].requiredWei)
    ensures ItemLimits(c, margin, items) == SumOver(Planned(items), f)
  {
    if items != [] {
      ItemLimitsIsSum(c, margin, items[..|items| - 1], f);
      assert Planned(items)[..|items| - 1] == Planned(items[..|items| - 1]);
    }
  }

  lemma SamePlanned(items: seq<Item>, order: seq<nat>, a: Address)
    requires IsOrder(order, |items|)
    ensures a in Planned(Picked(items, order)) <==> a in Planned(items)
  {
    var picked := Picked(items, order);
    if a in Planned(picked) {
      var k :| 0 <= k < |picked| && Planned(picked)[k] == a;
      assert Planned(items)[order[k]] == a;
    }
    if a in Planned(items) {
      var i :| 0 <= i < |items| && Planned(items)[i] == a;
      OrderCovers(order, |items|, i);
      var k :| 0 <= k < |order| && order[k] == i;
      assert Planned(picked)[k] == a;
    }
  }

  /** Observing in another order does not change the sum of the limits. */
  lemma LimitsOrderFree(c: Ceiling, margin: int, plan: Plan, items: seq<Item>, order: seq<nat>)
    requires PlanOk(c, margin, plan, items) && IsOrder(order, |items|)
    ensures ItemLimits(c, margin, Picked(items, order)) == ItemLimits(c, margin, items)
    ensures (set a | a in Planned(Picked(items, order))) == set a | a in Planned(items)
  {
    var picked := Picked(items, order);
    PickedOk(c, margin, plan, items, order);
    var f := (a: Address) => if a in plan.minimums then Limit(c, margin, plan.minimums[a]) else 0;
    assert forall i :: 0 <= i < |items| ==> InPlan(c, margin, plan, items[i]);
    assert forall i :: 0 <= i < |picked| ==> InPlan(c, margin, plan, picked[i]);
    ItemLimitsIsSum(c, margin, items, f);
    ItemLimitsIsSum(c, margin, picked, f);
    forall a ensures a in Planned(picked) <==> a in Planned(items) { SamePlanned(items, order, a); }
    SumPermutes(Planned(picked), Planned(items), f);
  }

  /** Nor does it change whether every wallet passes. */
  lemma AllPassOrderFree(c: Ceiling, items: seq<Item>, order: seq<nat>, funded: bool)
    requires IsOrder(order, |items|)
    ensures AllPass(c, Picked(items, order), funded) <==> AllPass(c, items, funded)
  {
    var picked := Picked(items, order);
    if AllPass(c, picked, funded) {
      forall i | 0 <= i < |items| ensures Passes(c, items[i], funded) {
        OrderCovers(order, |items|, i);
        var k :| 0 <= k < |order| && order[k] == i;
        assert picked[k] == items[i];
      }
    }
  }

  ghost predicate Arrived(items: seq<Item>, funded: bool) {
    forall i :: 0 <= i < |items| ==> Credit(items[i], funded) >= items[i].requiredWei
  }

  lemma ArrivedSplit(items: seq<Item>, funded: bool)
    requires items != []
    ensures Arrived(items, funded) <==>
            Arrived(items[..|items| - 1], funded) && Credit(items[|items| - 1], funded) >= items[|items| - 1].requiredWei
  {
    assert forall i :: 0 <= i < |items| - 1 ==> items[..|items| - 1][i] == items[i];
  }

  lemma {:induction false} TopUpsZero(c: Ceiling, margin: int, items: seq<Item>)
    requires margin >= 0 && forall i :: 0 <= i < |items| ==> ItemOk(c, margin, items[i])
    ensures ItemTopUps(items) >= 0
    ensures ItemTopUps(items) == 0 <==> Arrived(items, false)
  {
    if items != [] {
      var n := |items| - 1;
      var last := items[n];
      TopUpsZero(c, margin, items[..n]);
      assert ItemOk(c, margin, last);
      TopUpExact(c, margin, last.balanceWei, last.requiredWei);
      ArrivedSplit(items, false);
    }
  }

  lemma AllFunded(c: Ceiling, margin: int, items: seq<Item>)
    requires margin >= 0 && forall i :: 0 <= i < |items| ==> ItemOk(c, margin, items[i])
    ensures Arrived(items, true)
  {
    forall i | 0 <= i < |items| ensures Credit(items[i], true) >= items[i].requiredWei {
      assert ItemOk(c, margin, items[i]);
      TopUpExact(c, margin, items[i].balanceWei, items[i].requiredWei);
    }
  }

  /** A plan without blockers. */
  ghost predicate CleanPlan(c: Ceiling, margin: int, wallets: seq<Wallet>) {
    && c.walletMaxWei > 0 && c.fleetMaxWei > 0 && margin >= 0 && wallets != []
    && PlanOf(Some(c), wallets, margin).blockers == []
  }

  lemma CleanPlanOk(c: Ceiling, margin: int, wallets: seq<Wallet>)
    requires CleanPlan(c, margin, wallets)
    ensures var plan := PlanOf(Some(c), wallets, margin);
            && PlanOk(c, margin, plan, plan.items) && |plan.items| == |wallets|
            && ItemLimits(c, margin, plan.items) <= FleetBound(c)
            && (plan.ready <==> Arrived(plan.items, false)) && Arrived(plan.items, true)
  {
    var plan := PlanOf(Some(c), wallets, margin);
    var t := PlanWallets(c, margin, wallets);
    PlanShape(c, margin, wallets);
    forall i | 0 <= i < |plan.items| ensures InPlan(c, margin, plan, plan.items[i]) { assert Entered(c, margin, t, wallets[i], t.items[i]); }
    assert forall i :: 0 <= i < |plan.items| ==> InPlan(c, margin, plan, plan.items[i]);
    TopUpsZero(c, margin, plan.items);
    AllFunded(c, margin, plan.items);
  }

  /** The gate on exactly the planned wallets, in any order, passes exactly when every wallet does: the fleet check adds nothing. */
  lemma GateVerdict(c: Ceiling, margin: int, plan: Plan, order: seq<nat>, funded: bool)
    requires PlanOk(c, margin, plan, plan.items) && plan.items != [] && IsOrder(order, |plan.items|)
    requires c.fleetMaxWei > 0 && ItemLimits(c, margin, plan.items) <= FleetBound(c)
    ensures GateOf(Some(c), true, Observed(Picked(plan.items, order), funded), Some(plan.envelopes), plan.minimums, set a | a in Planned(plan.items)).None?
            <==> AllPass(c, plan.items, funded)
  {
    var picked := Picked(plan.items, order);
    PickedOk(c, margin, plan, plan.items, order);
    ScanVerdict(c, margin, plan, picked, funded);
    ObservedAddresses(picked, funded);
    LimitsOrderFree(c, margin, plan, plan.items, order);
    AllPassOrderFree(c, plan.items, order, funded);
  }

  /** Ceilings of at most forty digits leave nothing that does not fit. */
  lemma SmallCeilingsFit(c: Ceiling, margin: int, it: Item, funded: bool)
    requires margin >= 0 && ItemOk(c, margin, it) && WalletBound(c) < DECIMAL_LIMIT
    ensures Fits(c, it, funded)
  {
    TopUpExact(c, margin, it.balanceWei, it.requiredWei);
  }

  /**
   * Planner and gate agree. For a plan without blockers and fresh observations of exactly its wallets, in any order: on
   * current balances the gate passes if and only if the plan says nothing is left to send and the amounts fit their
   * forty digits; once each wallet has received its planned top-up, the gate passes if and only if they fit. Under
   * ceilings of at most forty digits the amounts always fit.
   */
  lemma PlanMeetsGate(c: Ceiling, margin: int, wallets: seq<Wallet>, order: seq<nat>, funded: bool)
    requires CleanPlan(c, margin, wallets) && IsOrder(order, |wallets|)
    ensures var plan := PlanOf(Some(c), wallets, margin);
            var all := forall i :: 0 <= i < |plan.items| ==> Fits(c, plan.items[i], funded);
            && |plan.items| == |wallets|
            && (GateOf(Some(c), true, Observed(Picked(plan.items, order), funded), Some(plan.envelopes), plan.minimums, set a | a in Planned(plan.items)).None?
                <==> (funded || plan.ready) && all)
            && (WalletBound(c) < DECIMAL_LIMIT ==> all)
  {
    var plan := PlanOf(Some(c), wallets, margin);
    CleanPlanOk(c, margin, wallets);
    GateVerdict(c, margin, plan, order, funded);
    PassingSplit(c, plan.items, funded);
    forall i | 0 <= i < |plan.items| && WalletBound(c) < DECIMAL_LIMIT ensures Fits(c, plan.items[i], funded) {
      assert InPlan(c, margin, plan, plan.items[i]);
      SmallCeilingsFit(c, margin, plan.items[i], funded);
    }
  }

  lemma PassingSplit(c: Ceiling, items: seq<Item>, funded: bool)
    ensures AllPass(c, items, funded) <==> Arrived(items, funded) && forall i :: 0 <= i < |items| ==> Fits(c, items[i], funded)
  {
    assert forall i :: 0 <= i < |items| ==> (Passes(c, items[i], funded) <==> Credit(items[i], funded) >= items[i].requiredWei && Fits(c, items[i], funded));
  }

  // ---- The amounts, one by one ----

  /** Both bounds are the larger of the idle ceiling and the run ceiling, when there is one. */
  lemma BoundsExactly(c: Ceiling)
    ensures WalletBound(c) == if c.runWalletMaxWei.Some? then Max(c.walletMaxWei, c.runWalletMaxWei.value) else c.walletMaxWei
    ensures FleetBound(c) == if c.runFleetMaxWei.Some? then Max(c.fleetMaxWei, c.runFleetMaxWei.value) else c.fleetMaxWei
  {
  }

  /**
   * The envelope is the requirement with its margin, cut at the bound as long as the requirement itself fits; the limit is
   * never below the idle ceiling; and the top-up is the shortfall rounded up to the next display unit, cut at the limit.
   */
  lemma AmountsExactly(c: Ceiling, margin: int, balance: int, required: int)
    requires margin >= 0 && balance >= 0 && required > 0
    ensures required <= WalletBound(c) ==> Envelope(c, margin, required) == Min(required + margin, WalletBound(c))
    ensures required > WalletBound(c) ==> Envelope(c, margin, required) == required + margin
    ensures Limit(c, margin, required) == Max(c.walletMaxWei, Envelope(c, margin, required))
    ensures required <= balance || Limit(c, margin, required) <= balance ==> TopUp(c, margin, balance, required) == 0
    ensures var t, room := TopUp(c, margin, balance, required), Limit(c, margin, required) - balance;
            balance < required && room > 0 ==>
              && 0 < t <= room
              && (t == room || (t % 1_000_000_000_000 == 0 && required - balance <= t < required - balance + 1_000_000_000_000))
              && (t == room ==> required - balance + 1_000_000_000_000 > room)
  {
    if required > balance { RoundUpBounds(required - balance); }
  }

  /** What the gate allows a wallet: the idle ceiling, or its readable envelope up to the bound if that is more. */
  lemma LimitForExactly(envelopes: map<Address, int>, c: Ceiling, a: Address)
    ensures WalletLimitFor(envelopes, c, a) ==
            if a in envelopes && 0 <= envelopes[a] < DECIMAL_LIMIT then Max(c.walletMaxWei, Min(envelopes[a], WalletBound(c))) else c.walletMaxWei
  {
  }

  // ---- Exactly when a plan has no blockers ----

  ghost predicate SeenBefore(wallets: seq<Wallet>, i: nat)
    requires i < |wallets|
  {
    exists j :: 0 <= j < i && wallets[j].address == wallets[i].address
  }

  /** Nothing is wrong with the wallet: a valid address not listed before, a real requirement within the bound, a balance within the limit. */
  ghost predicate CleanWallet(c: Ceiling, margin: int, wallets: seq<Wallet>, i: nat)
    requires i < |wallets|
  {
    && wallets[i].address.Parsed? && !SeenBefore(wallets, i)
    && 0 < wallets[i].requiredWei <= WalletBound(c) && 0 <= wallets[i].balanceWei <= Limit(c, margin, wallets[i].requiredWei)
  }

  ghost predicate AllClean(c: Ceiling, margin: int, wallets: seq<Wallet>) {
    forall i: nat :: i < |wallets| ==> CleanWallet(c, margin, wallets, i)
  }

  ghost function LimitSum(c: Ceiling, margin: int, wallets: seq<Wallet>): int {
    if wallets == [] then 0 else LimitSum(c, margin, wallets[..|wallets| - 1]) + Limit(c, margin, wallets[|wallets| - 1].requiredWei)
  }

  /** The planner has seen exactly the valid addresses of the wallets it has been through. */
  lemma {:induction false} SeenExactly(c: Ceiling, margin: int, wallets: seq<Wallet>, a: Address)
    ensures a in PlanWallets(c, margin, wallets).seen <==> exists j :: 0 <= j < |wallets| && wallets[j].address == Parsed(a)
  {
    if wallets != [] {
      var n := |wallets| - 1;
      SeenExactly(c, margin, wallets[..n], a);
      assert forall j :: 0 <= j < n ==> wallets[..n][j] == wallets[j];
      assert wallets[n].address == Parsed(a) ==> wallets[n].address.Parsed?;
    }
  }

  lemma CleanFront(c: Ceiling, margin: int, wallets: seq<Wallet>)
    requires wallets != []
    ensures var n := |wallets| - 1; AllClean(c, margin, wallets) <==> AllClean(c, margin, wallets[..n]) && CleanWallet(c, margin, wallets, n)
  {
    var n := |wallets| - 1;
    var front := wallets[..n];
    forall i: nat | i < n ensures CleanWallet(c, margin, front, i) <==> CleanWallet(c, margin, wallets, i) {
      assert forall j :: 0 <= j < n ==> front[j] == wallets[j];
    }
    if AllClean(c, margin, wallets) {
      forall i: nat | i < |front| ensures CleanWallet(c, margin, front, i) { assert CleanWallet(c, margin, wallets, i); }
    }
    if AllClean(c, margin, front) && CleanWallet(c, margin, wallets, n) {
      forall i: nat | i < |wallets| ensures CleanWallet(c, margin, wallets, i) { if i < n { assert CleanWallet(c, margin, front, i); } }
    }
  }

  lemma {:induction false} BlockersExactly(c: Ceiling, margin: int, wallets: seq<Wallet>)
    ensures var t := PlanWallets(c, margin, wallets);
            && (t.blockers == [] <==> AllClean(c, margin, wallets))
            && (t.blockers == [] ==> t.envelopeTotalWei == LimitSum(c, margin, wallets))
  {
    if wallets != [] {
      var n := |wallets| - 1;
      var t := PlanWallets(c, margin, wallets[..n]);
      BlockersExactly(c, margin, wallets[..n]);
      CleanFront(c, margin, wallets);
      if wallets[n].address.Parsed? { SeenExactly(c, margin, wallets[..n], wallets[n].address.address); }
      assert forall j :: 0 <= j < n ==> wallets[..n][j] == wallets[j];
      if PlanWallet(c, margin, t, wallets[n]).blockers == [] { BlockersStay(c, margin, t, wallets[n]); }
    }
  }

  /** Exactly when a plan has no blockers: real ceilings, some wallets, no negative margin, clean wallets, and limits that fit the fleet bound. */
  lemma CleanExactly(ceiling: Option<Ceiling>, wallets: seq<Wallet>, margin: int)
    ensures PlanOf(ceiling, wallets, margin).blockers == [] <==>
            && ceiling.Some? && ceiling.value.walletMaxWei > 0 && ceiling.value.fleetMaxWei > 0 && wallets != [] && margin >= 0
            && AllClean(ceiling.value, margin, wallets) && LimitSum(ceiling.value, margin, wallets) <= FleetBound(ceiling.value)
  {
    if ceiling.Some? { BlockersExactly(ceiling.value, margin, wallets); }
  }

  // ---- Exactly when the gate passes ----

  ghost predicate ObservedBefore(obs: seq<Observation>, i: nat)
    requires i < |obs|
  {
    exists j :: 0 <= j < i && obs[j].address == obs[i].address
  }

  /** The observation passes: a valid address not observed before, a readable balance within its limit, and its minimum, readable and reached. */
  ghost predicate PassingAt(envelopes: map<Address, int>, minimums: map<Address, int>, c: Ceiling, obs: seq<Observation>, i: nat)
    requires i < |obs|
  {
    && obs[i].address.Parsed? && !ObservedBefore(obs, i) && 0 <= obs[i].balanceWei < DECIMAL_LIMIT
    && obs[i].balanceWei <= WalletLimitFor(envelopes, c, obs[i].address.address)
    && (obs[i].address.address in minimums ==>
          0 <= minimums[obs[i].address.address] < DECIMAL_LIMIT && minimums[obs[i].address.address] <= obs[i].balanceWei)
  }

  ghost predicate AllPassing(envelopes: map<Address, int>, minimums: map<Address, int>, c: Ceiling, obs: seq<Observation>) {
    forall i: nat :: i < |obs| ==> PassingAt(envelopes, minimums, c, obs, i)
  }

  lemma PassingFront(envelopes: map<Address, int>, minimums: map<Address, int>, c: Ceiling, obs: seq<Observation>)
    requires obs != []
    ensures var n := |obs| - 1;
            AllPassing(envelopes, minimums, c, obs) <==> AllPassing(envelopes, minimums, c, obs[..n]) && PassingAt(envelopes, minimums, c, obs, n)
  {
    var n := |obs| - 1;
    var front := obs[..n];
    forall i: nat | i < n ensures PassingAt(envelopes, minimums, c, front, i) <==> PassingAt(envelopes, minimums, c, obs, i) {
      assert forall j :: 0 <= j < n ==> front[j] == obs[j];
    }
    if AllPassing(envelopes, minimums, c, obs) {
      forall i: nat | i < |front| ensures PassingAt(envelopes, minimums, c, front, i) { assert PassingAt(envelopes, minimums, c, obs, i); }
    }
    if AllPassing(envelopes, minimums, c, front) && PassingAt(envelopes, minimums, c, obs, n) {
      forall i: nat | i < |obs| ensures PassingAt(envelopes, minimums, c, obs, i) { if i < n { assert PassingAt(envelopes, minimums, c, front, i); } }
    }
  }

  lemma {:induction false} FirstErrorExactly(envelopes: map<Address, int>, minimums: map<Address, int>, c: Ceiling, obs: seq<Observation>)
    ensures FirstError(envelopes, minimums, c, obs).None? <==> AllPassing(envelopes, minimums, c, obs)
  {
    if obs != [] {
      var n := |obs| - 1;
      FirstErrorExactly(envelopes, minimums, c, obs[..n]);
      PassingFront(envelopes, minimums, c, obs);
      assert forall j :: 0 <= j < n ==> obs[..n][j] == obs[j];
      if obs[n].address.Parsed? {
        assert obs[n].address.address in Addresses(obs[..n]) <==> ObservedBefore(obs, n);
      }
    }
  }

  /** What one more observation adds to the fleet's total and to its limit. */
  lemma TotalsLaw(envelopes: map<Address, int>, c: Ceiling, obs: seq<Observation>, o: Observation)
    requires o.address.Parsed?
    ensures FleetTotal([]) == 0 == LimitTotal(envelopes, c, [])
    ensures FleetTotal(obs + [o]) == FleetTotal(obs) + o.balanceWei
    ensures LimitTotal(envelopes, c, obs + [o]) == LimitTotal(envelopes, c, obs) + WalletLimitFor(envelopes, c, o.address.address)
  {
    assert (obs + [o])[..|obs|] == obs;
  }

  /** Exactly when the gate passes, on any observations: recent ones that each pass, of exactly the expected wallets, within the fleet limit. */
  lemma GateExactly(
    ceiling: Option<Ceiling>, recent: bool, obs: seq<Observation>, run: Option<map<Address, int>>, minimums: map<Address, int>, expected: set<Address>)
    ensures GateOf(ceiling, recent, obs, run, minimums, expected).None? <==>
            && ceiling.Some? && ceiling.value.walletMaxWei > 0 && ceiling.value.fleetMaxWei > 0 && recent && obs != []
            && AllPassing(if run.Some? then run.value else map[], minimums, ceiling.value, obs)
            && (forall a :: a in expected <==> exists i :: 0 <= i < |obs| && obs[i].address == Parsed(a))
            && (FleetTotal(obs) <= ceiling.value.fleetMaxWei ||
                (run.Some? && FleetTotal(obs) <= LimitTotal(run.value, ceiling.value, obs) && FleetTotal(obs) <= FleetBound(ceiling.value)))
  {
    if ceiling.Some? { FirstErrorExactly(EnvelopesOf(run), minimums, ceiling.value, obs); }
    ExpectedExactly(obs, expected);
  }

  lemma ExpectedExactly(obs: seq<Observation>, expected: set<Address>)
    ensures Addresses(obs) == expected <==> forall a :: a in expected <==> exists i :: 0 <= i < |obs| && obs[i].address == Parsed(a)
  {
    forall a ensures a in Addresses(obs) <==> exists i :: 0 <= i < |obs| && obs[i].address == Parsed(a) {
      if i :| 0 <= i < |obs| && obs[i].address == Parsed(a) { assert obs[i].address.Parsed?; }
    }
  }
}
