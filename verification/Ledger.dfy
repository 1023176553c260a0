/**
 * The spend ledger: the reservation table of the canonical store, the rolling sums it is queried with, and the single
 * transaction that admits a whole wallet fleet. Addresses stand for their lower-case form, times are milliseconds, and
 * the digests that name executions and reservations are the pairs (run, wallet) they are computed from.
 */
module Ledger {
  import opened Basics

  type Address = nat
  type RunId = nat
  type CampaignId = nat

  const DAY_MS: nat := 24 * 60 * 60 * 1000
  const CLOCK_SKEW_MS: nat := 5000
  const ROBINHOOD_FREE_CAP_WEI: int := 2_000_000_000_000_000

  datatype Chain = Ethereum | Base | Robinhood
  datatype MintClass = Free | Paid
  datatype FeePolicy = FeePolicy(priorityWei: int, l2GasWei: Option<int>, l1DataWei: Option<int>, totalWei: Option<int>)
  datatype Campaign = Campaign(
    id: CampaignId, chain: Chain, quantity: int, priceWei: int, fee: FeePolicy, maxRunWei: int, dailyCapWei: int)

  datatype FleetPolicy = FleetPolicy(
    freeDailyCapWei: int, paidDailyCapWei: int, paidMaxPriceWei: int, paidMaxWallets: int,
    freeFeeAllowanceWei: int, paidFeeAllowanceWei: int)

  /** What never changes for a campaign: its chain, price and quantity. Fee budgets are read again at every arm. */
  datatype Terms = Terms(chain: Chain, priceWei: int, quantity: int)
  datatype Config = Config(fleet: Option<FleetPolicy>, terms: CampaignId -> Terms)

  const BASE_POLICY := FleetPolicy(
    1_200_000_000_000_000, 8_200_000_000_000_000, 3_700_000_000_000_000, 2, 200_000_000_000_000, 200_000_000_000_000)

  datatype Mode = Live | DryRun
  datatype RunState = Armed | Active | Completed | RunFailed | RunAborted
  datatype Run = Run(campaign: Campaign, mode: Mode, wallets: seq<Address>, state: RunState)

  datatype FactState = Prepared | Signed | Submitted | Pending | Confirmed | Reorged | Replaced | Failed | Aborted
  datatype ExecId = ExecId(run: RunId, wallet: Address)
  datatype Execution = Execution(campaign: CampaignId, state: FactState)
  datatype Attempt = Attempt(id: nat, exec: ExecId, hash: Option<nat>, state: FactState, replacement: bool)

  datatype Stage = Unknown | Soft | Posted | EthereumFinal
  /** `stage` is the reported finality stage; `robinhood` is the chain-4663 stage, `EthereumFinal` standing for `final`. */
  datatype Receipt = Receipt(
    id: nat, exec: ExecId, attempt: nat, state: FactState, stage: Option<Stage>, robinhood: Option<Stage>, actualWei: int)

  datatype Status = Reserved | Settled | Released
  datatype Row = Row(
    run: RunId, wallet: Address, campaign: CampaignId, chain: Chain,
    reservedWei: nat, amountWei: nat, mintValueWei: Option<int>,
    status: Status, createdAt: nat, settledWei: Option<int>, settledAt: Option<nat>)

  datatype Outcome = OConfirmed | OFailed | OUnknown | OReorged | OSoft | OPosted | OFinal
  datatype LogEntry = LogEntry(run: RunId, outcome: Outcome, at: nat)

  /** The durable tables every process shares. A transaction maps one of these values to the next, or throws. */
  datatype Db = Db(
    now: nat, killed: bool, watermark: Option<nat>,
    runs: map<RunId, Run>, facts: set<RunId>, execs: map<ExecId, Execution>, rows: seq<Row>,
    attempts: seq<Attempt>, receipts: seq<Receipt>, log: seq<LogEntry>)

  // ---- Policies ----

  predicate ValidPolicy(p: FleetPolicy) {
    && p.freeDailyCapWei > 0 && p.paidDailyCapWei > 0 && p.paidMaxPriceWei > 0
    && p.freeFeeAllowanceWei > 0 && p.paidFeeAllowanceWei > 0 && p.paidMaxWallets >= 1
  }

  predicate ValidConfig(cfg: Config) {
    cfg.fleet.Some? ==> ValidPolicy(cfg.fleet.value)
  }

  function PolicyFor(cfg: Config, chain: Chain): Option<FleetPolicy> {
    if chain == Base then Some(BASE_POLICY) else cfg.fleet
  }

  /** The fleet cap of a chain and mint class; free Robinhood mints use the smaller active-period cap. */
  function FleetCap(p: FleetPolicy, chain: Chain, cls: MintClass): int {
    if cls == Paid then p.paidDailyCapWei
    else if chain == Robinhood && p.freeDailyCapWei > ROBINHOOD_FREE_CAP_WEI then ROBINHOOD_FREE_CAP_WEI
    else p.freeDailyCapWei
  }

  // ---- Exposure and rolling sums ----

  function OrZero(o: Option<int>): int {
    if o.Some? then o.value else 0
  }

  function MintValue(c: Campaign): int {
    c.priceWei * c.quantity
  }

  function Exposure(c: Campaign): int {
    MintValue(c) +
    if c.fee.totalWei.Some? then c.fee.totalWei.value
    else c.fee.priorityWei + OrZero(c.fee.l2GasWei) + OrZero(c.fee.l1DataWei)
  }

  function ClassOf(c: Campaign): MintClass {
    if c.priceWei == 0 then Free else Paid
  }

  /** The sums the admission code asks the reservation table for, and the two sums its caps are about: everything
   *  a run ever reserved, and what was settled inside a day-long window. */
  datatype Query =
    | FleetDaily(chain: Chain, cls: MintClass, cutoff: int)
    | WalletDaily(chain: Chain, wallet: Address, cutoff: int)
    | RunTotal(run: RunId)
    | RunEver(run: RunId)
    | SettledWindow(chain: Chain, cls: MintClass, from: int)

  predicate InClass(row: Row, cls: MintClass) {
    row.mintValueWei.None? || (if cls == Free then row.mintValueWei.value == 0 else row.mintValueWei.value > 0)
  }

  /** Reserved rows always count; settled rows count until they age out of the rolling window. */
  predicate Open(row: Row, cutoff: int) {
    row.status == Reserved || (row.status == Settled && (row.settledAt.None? || row.settledAt.value >= cutoff))
  }

  predicate Counts(q: Query, row: Row) {
    match q
    case FleetDaily(chain, cls, cutoff) => row.chain == chain && InClass(row, cls) && Open(row, cutoff)
    case WalletDaily(chain, wallet, cutoff) => row.chain == chain && row.wallet == wallet && Open(row, cutoff)
    case RunTotal(run) => row.run == run && row.status != Released
    case RunEver(run) => row.run == run
    case SettledWindow(chain, cls, from) =>
      row.chain == chain && InClass(row, cls) && row.status == Settled &&
      row.settledAt.Some? && from <= row.settledAt.value <= from + DAY_MS
  }

  function Sum(q: Query, rows: seq<Row>): nat {
    if rows == [] then 0
    else Sum(q, rows[..|rows| - 1]) + if Counts(q, rows[|rows| - 1]) then rows[|rows| - 1].reservedWei else 0
  }

  // ---- Admission ----

  predicate Keyed(row: Row, run: RunId, w: Address) {
    row.run == run && row.wallet == w
  }

  predicate HasRow(rows: seq<Row>, run: RunId, w: Address) {
    exists i :: 0 <= i < |rows| && Keyed(rows[i], run, w)
  }

  predicate HasReleasedRow(rows: seq<Row>, run: RunId, w: Address) {
    exists i :: 0 <= i < |rows| && Keyed(rows[i], run, w) && rows[i].status == Released
  }

  predicate CampaignWalletUsed(execs: map<ExecId, Execution>, campaign: CampaignId, w: Address) {
    exists e :: e in execs && execs[e].campaign == campaign && e.wallet == w
  }

  function NewRow(db: Db, run: RunId, c: Campaign, w: Address): Row
    requires Exposure(c) > 0
  {
    Row(run, w, c.id, c.chain, Exposure(c), Exposure(c), Some(MintValue(c)), Reserved, db.now, None, None)
  }

  datatype Progress = Progress(db: Db, total: int)

  /** The spend caps one new reservation must pass: per run, per wallet and per fleet, in the order they are checked. */
  function CapError(cfg: Config, db: Db, c: Campaign, w: Address, total: int): Option<string> {
    var amount := Exposure(c);
    var cutoff := db.now - DAY_MS;
    var policy := PolicyFor(cfg, c.chain);
    if total + amount > c.maxRunWei then Some("SPEND_CAP_EXCEEDED")
    else if Sum(WalletDaily(c.chain, w, cutoff), db.rows) + amount > c.dailyCapWei then Some("DAILY_SPEND_CAP_EXCEEDED")
    else if policy.Some? &&
            Sum(FleetDaily(c.chain, ClassOf(c), cutoff), db.rows) + amount > FleetCap(policy.value, c.chain, ClassOf(c))
    then Some("FLEET_DAILY_CAP_EXCEEDED")
    else None
  }

  function AdmitWallet(cfg: Config, p: Progress, run: RunId, c: Campaign, w: Address): Result<Progress>
    requires Exposure(c) > 0
  {
    var db := p.db;
    var e := ExecId(run, w);
    if HasReleasedRow(db.rows, run, w) then Err("RESERVATION_IDEMPOTENCY_REPLAY")
    else if e !in db.execs && CampaignWalletUsed(db.execs, c.id, w) then Err("CAMPAIGN_WALLET_ALREADY_USED")
    else
      var db1 := if e in db.execs then db else db.(execs := db.execs[e := Execution(c.id, Prepared)]);
      if HasRow(db.rows, run, w) then Ok(Progress(db1, p.total))
      else
        var refused := CapError(cfg, db, c, w, p.total);
        if refused.Some? then Err(refused.value)
        else Ok(Progress(db1.(rows := db.rows + [NewRow(db, run, c, w)]), p.total + Exposure(c)))
  }

  function AdmitWallets(cfg: Config, p: Progress, run: RunId, c: Campaign, wallets: seq<Address>): Result<Progress>
    requires Exposure(c) > 0
    decreases |wallets|
  {
    if wallets == [] then Ok(p)
    else
      match AdmitWallet(cfg, p, run, c, wallets[0])
      case Err(e) => Err(e)
      case Ok(next) => AdmitWallets(cfg, next, run, c, wallets[1..])
  }

  /** Run-level fleet checks that need no reservation rows. */
  function FleetLimitError(cfg: Config, copy: Run, wallets: seq<Address>): Option<string> {
    var c := copy.campaign;
    match PolicyFor(cfg, c.chain)
    case None => if copy.mode == Live then Some("FLEET_SPEND_POLICY_REQUIRED") else None
    case Some(p) =>
      var feeAllowance := Exposure(c) - MintValue(c);
      if c.quantity < 1 || c.priceWei < 0 then Some("CAMPAIGN_AMOUNTS_INVALID")
      else if ClassOf(c) == Paid then
        if c.priceWei > p.paidMaxPriceWei then Some("PAID_PRICE_PER_NFT_EXCEEDED")
        else if |ToSet(copy.wallets) + ToSet(wallets)| > p.paidMaxWallets then Some("PAID_WALLET_LIMIT_EXCEEDED")
        else if feeAllowance > p.paidFeeAllowanceWei then Some("FEE_ALLOWANCE_EXCEEDED")
        else None
      else if feeAllowance > p.freeFeeAllowanceWei then Some("FEE_ALLOWANCE_EXCEEDED")
      else None
  }

  /** Live admissions only: the clock may not have rolled back, and no pending reservation may be a day old. */
  function ClockError(db: Db): Option<string> {
    if db.watermark.Some? && db.now + CLOCK_SKEW_MS < db.watermark.value then Some("ADMISSION_CLOCK_ROLLBACK")
    else if exists i :: 0 <= i < |db.rows| && db.rows[i].status == Reserved && db.rows[i].createdAt <= db.now - DAY_MS
    then Some("STALE_PENDING_RESERVATION_REQUIRES_RECONCILIATION")
    else None
  }

  predicate HasFinalReceipt(receipts: seq<Receipt>, e: ExecId, states: set<FactState>) {
    exists k :: 0 <= k < |receipts| && receipts[k].exec == e && receipts[k].stage == Some(EthereumFinal) && receipts[k].state in states
  }

  predicate ProvesRehearsal(db: Db, row: Row) {
    row.chain == Base && row.status == Settled && HasFinalReceipt(db.receipts, ExecId(row.run, row.wallet), {Confirmed})
  }

  /** Some Base mint is confirmed, Ethereum-final and settled. */
  predicate RehearsalCompleted(db: Db) {
    exists i :: 0 <= i < |db.rows| && ProvesRehearsal(db, db.rows[i])
  }

  predicate OutstandingRow(db: Db, row: Row) {
    row.chain == Base &&
    (row.status == Reserved ||
     (row.status == Settled && !HasFinalReceipt(db.receipts, ExecId(row.run, row.wallet), {Confirmed, Failed})))
  }

  predicate RehearsalOutstanding(db: Db) {
    exists i :: 0 <= i < |db.rows| && OutstandingRow(db, db.rows[i])
  }

  function RehearsalError(db: Db, walletCount: nat, quantity: int): Option<string> {
    if RehearsalCompleted(db) then None
    else if RehearsalOutstanding(db) then Some("BASE_FIRST_REHEARSAL_PENDING_FINALIZATION")
    else if walletCount != 1 then Some("BASE_FIRST_REHEARSAL_REQUIRES_ONE_WALLET")
    else if quantity != 1 then Some("BASE_FIRST_REHEARSAL_REQUIRES_ONE_NFT")
    else None
  }

  /** Wallets that hold pending or settled exposure on a campaign. */
  function Holders(rows: seq<Row>, campaign: CampaignId): set<Address> {
    set i | 0 <= i < |rows| && rows[i].campaign == campaign && rows[i].status != Released :: rows[i].wallet
  }

  function PaidWalletsError(cfg: Config, db: Db, c: Campaign, wallets: seq<Address>): Option<string> {
    var policy := PolicyFor(cfg, c.chain);
    if policy.Some? && |Holders(db.rows, c.id) + ToSet(wallets)| > policy.value.paidMaxWallets
    then Some("PAID_WALLET_LIMIT_EXCEEDED") else None
  }

  /** Every refusal of an admission that does not depend on the wallet being admitted. */
  function AdmissionError(cfg: Config, db: Db, run: RunId, copy: Run, wallets: seq<Address>, enabled: bool): Option<string> {
    var c := copy.campaign;
    var limit := FleetLimitError(cfg, copy, wallets);
    var clock := ClockError(db);
    var rehearsal := RehearsalError(db, |wallets|, c.quantity);
    var paid := PaidWalletsError(cfg, db, c, wallets);
    if wallets == [] then Some("EMPTY_RESERVATION_BATCH")
    else if !Distinct(wallets) then Some("DUPLICATE_WALLET")
    else if copy.state != Armed then Some("RUN_NOT_ARMED")
    else if exists w :: w in wallets && w !in copy.wallets then Some("INTENT_WALLET_MISMATCH")
    else if run !in db.runs || !enabled then Some("CHAIN_OR_RUN_NOT_AVAILABLE")
    else if limit.Some? then limit
    else if db.killed then Some("KILLED")
    else if copy.mode == Live && clock.Some? then clock
    else if c.chain == Base && copy.mode == Live && rehearsal.Some? then rehearsal
    else if ClassOf(c) == Paid && paid.Some? then paid
    else if Exposure(c) <= 0 then Some("RESERVATION_EXPOSURE_MUST_BE_POSITIVE")
    else None
  }

  function Watermark(db: Db, mode: Mode): Option<nat> {
    if mode != Live then db.watermark
    else if db.watermark.Some? && db.watermark.value > db.now then db.watermark
    else Some(db.now)
  }

  /**
   * The admission transaction. `copy` is the run record the caller read earlier; the stored run is overwritten with
   * `active` whatever its state has become since.
   */
  function Admit(cfg: Config, db: Db, run: RunId, copy: Run, wallets: seq<Address>, enabled: bool): Result<Db> {
    var refused := AdmissionError(cfg, db, run, copy, wallets, enabled);
    if refused.Some? then Err(refused.value)
    else
      match AdmitWallets(cfg, Progress(db, Sum(RunTotal(run), db.rows)), run, copy.campaign, wallets)
      case Err(e) => Err(e)
      case Ok(p) =>
        Ok(p.db.(runs := db.runs[run := db.runs[run].(state := Active)], watermark := Watermark(db, copy.mode)))
  }

  // ---- Lemmas about sums ----

  /** If no row counts for more than it did, the sum does not grow: the one fact every cap argument rests on. */
  lemma {:induction false} SumMonotone(q: Query, rows: seq<Row>, q': Query, rows': seq<Row>)
    requires |rows| == |rows'|
    requires forall i :: 0 <= i < |rows| && Counts(q', rows'[i]) ==> Counts(q, rows[i]) && rows'[i].reservedWei <= rows[i].reservedWei
    ensures Sum(q', rows') <= Sum(q, rows)
  {
    if rows != [] {
      var n := |rows| - 1;
      SumMonotone(q, rows[..n], q', rows'[..n]);
      assert Counts(q', rows'[n]) ==> Counts(q, rows[n]) && rows'[n].reservedWei <= rows[n].reservedWei;
    }
  }

  lemma SumAppend(q: Query, rows: seq<Row>, row: Row)
    ensures Sum(q, rows + [row]) == Sum(q, rows) + if Counts(q, row) then row.reservedWei else 0
  {
    assert (rows + [row])[..|rows|] == rows;
  }

  /** What was really spent by the rows settled inside a day-long window. */
  function ActuallySpent(chain: Chain, cls: MintClass, from: int, rows: seq<Row>): int {
    if rows == [] then 0
    else
      var last := rows[|rows| - 1];
      ActuallySpent(chain, cls, from, rows[..|rows| - 1]) +
      if Counts(SettledWindow(chain, cls, from), last) then OrZero(last.settledWei) else 0
  }

  predicate SettledWithinReserved(row: Row) {
    row.status == Settled ==> row.settledWei.Some? && row.settledAt.Some? && 0 <= row.settledWei.value <= row.reservedWei
  }

  lemma {:induction false} SpentWithinSum(chain: Chain, cls: MintClass, from: int, rows: seq<Row>)
    requires forall i :: 0 <= i < |rows| ==> SettledWithinReserved(rows[i])
    ensures 0 <= ActuallySpent(chain, cls, from, rows) <= Sum(SettledWindow(chain, cls, from), rows)
  {
    if rows != [] {
      var n := |rows| - 1;
      SpentWithinSum(chain, cls, from, rows[..n]);
      assert SettledWithinReserved(rows[n]);
    }
  }

  /** A paid price stays paid after multiplication, which keeps the class of a campaign and of its rows the same. */
  lemma ClassConsistent(db: Db, run: RunId, c: Campaign, w: Address, cls: MintClass)
    requires c.quantity >= 1 && c.priceWei >= 0 && Exposure(c) > 0
    ensures InClass(NewRow(db, run, c, w), cls) <==> ClassOf(c) == cls
  {
    if c.priceWei > 0 {
      assert c.priceWei * c.quantity >= c.priceWei * 1;
    }
  }

  // ---- What the sums count, on the fields of the rows ----

  /** The policy of a chain: Base has its own, every other chain the configured one. */
  ghost predicate Governs(cfg: Config, chain: Chain, p: FleetPolicy) {
    if chain == Base then p == BASE_POLICY else cfg.fleet == Some(p)
  }

  lemma PolicyGoverns(cfg: Config, chain: Chain, p: FleetPolicy)
    ensures PolicyFor(cfg, chain) == Some(p) <==> Governs(cfg, chain, p)
  {
  }

  /** A row holds money now: it is reserved, or it was settled at or after the cutoff. */
  ghost predicate HoldsSince(row: Row, cutoff: int) {
    row.status == Reserved || (row.status == Settled && (row.settledAt == None || row.settledAt.value >= cutoff))
  }

  /** An unknown mint value counts for both classes, a known one for the class it shows. */
  ghost predicate Shows(row: Row, cls: MintClass) {
    row.mintValueWei == None || (cls == Free && row.mintValueWei == Some(0)) || (cls == Paid && row.mintValueWei.value > 0)
  }

  /** What one more row adds to the fleet's daily sum: its reserved amount, or nothing. */
  lemma FleetSumLaw(chain: Chain, cls: MintClass, cutoff: int, rows: seq<Row>, row: Row)
    ensures Sum(FleetDaily(chain, cls, cutoff), []) == 0
    ensures Sum(FleetDaily(chain, cls, cutoff), rows + [row]) ==
            Sum(FleetDaily(chain, cls, cutoff), rows) +
            if row.chain == chain && Shows(row, cls) && HoldsSince(row, cutoff) then row.reservedWei else 0
  {
    SumAppend(FleetDaily(chain, cls, cutoff), rows, row);
  }

  lemma WalletSumLaw(chain: Chain, w: Address, cutoff: int, rows: seq<Row>, row: Row)
    ensures Sum(WalletDaily(chain, w, cutoff), []) == 0
    ensures Sum(WalletDaily(chain, w, cutoff), rows + [row]) ==
            Sum(WalletDaily(chain, w, cutoff), rows) +
            if row.chain == chain && row.wallet == w && HoldsSince(row, cutoff) then row.reservedWei else 0
  {
    SumAppend(WalletDaily(chain, w, cutoff), rows, row);
  }

  lemma RunSumLaw(run: RunId, rows: seq<Row>, row: Row)
    ensures Sum(RunTotal(run), []) == 0 == Sum(RunEver(run), [])
    ensures Sum(RunTotal(run), rows + [row]) ==
            Sum(RunTotal(run), rows) + if row.run == run && row.status in {Reserved, Settled} then row.reservedWei else 0
    ensures Sum(RunEver(run), rows + [row]) == Sum(RunEver(run), rows) + if row.run == run then row.reservedWei else 0
  {
    SumAppend(RunTotal(run), rows, row);
    SumAppend(RunEver(run), rows, row);
  }

  /** What one more row adds to the actual spend of a day: the amount it was settled for inside that day. */
  lemma SpendLaw(chain: Chain, cls: MintClass, from: int, rows: seq<Row>, row: Row)
    ensures ActuallySpent(chain, cls, from, []) == 0
    ensures ActuallySpent(chain, cls, from, rows + [row]) ==
            ActuallySpent(chain, cls, from, rows) +
            if row.chain == chain && Shows(row, cls) && row.status == Settled && row.settledAt.Some? && row.settledWei.Some? &&
               from <= row.settledAt.value <= from + 24 * 60 * 60 * 1000
            then row.settledWei.value else 0
  {
    assert (rows + [row])[..|rows|] == rows;
  }

  // ---- The Base rehearsal, on the fields of the tables ----

  /** A receipt of the row's execution is Ethereum-final in one of the states. */
  ghost predicate FinalIn(db: Db, row: Row, k: nat, confirmedOnly: bool) {
    && k < |db.receipts| && db.receipts[k].exec.run == row.run && db.receipts[k].exec.wallet == row.wallet
    && db.receipts[k].stage == Some(EthereumFinal)
    && (db.receipts[k].state == Confirmed || (!confirmedOnly && db.receipts[k].state == Failed))
  }

  /** Completed means a settled Base row with a confirmed final receipt; outstanding a Base row that is reserved, or settled without any final one. */
  lemma RehearsalExactly(db: Db)
    ensures RehearsalCompleted(db) <==>
            exists i, k :: 0 <= i < |db.rows| && db.rows[i].chain == Base && db.rows[i].status == Settled && FinalIn(db, db.rows[i], k, true)
    ensures RehearsalOutstanding(db) <==>
            exists i :: 0 <= i < |db.rows| && db.rows[i].chain == Base &&
              (db.rows[i].status == Reserved || (db.rows[i].status == Settled && forall k :: !FinalIn(db, db.rows[i], k, false)))
  {
    forall i | 0 <= i < |db.rows|
      ensures ProvesRehearsal(db, db.rows[i]) <==> db.rows[i].chain == Base && db.rows[i].status == Settled && exists k :: FinalIn(db, db.rows[i], k, true)
      ensures OutstandingRow(db, db.rows[i]) <==>
              db.rows[i].chain == Base &&
              (db.rows[i].status == Reserved || (db.rows[i].status == Settled && forall k :: !FinalIn(db, db.rows[i], k, false)))
    {
      FinalExactly(db, db.rows[i]);
    }
  }

  lemma FinalExactly(db: Db, row: Row)
    ensures HasFinalReceipt(db.receipts, ExecId(row.run, row.wallet), {Confirmed}) <==> exists k :: FinalIn(db, row, k, true)
    ensures HasFinalReceipt(db.receipts, ExecId(row.run, row.wallet), {Confirmed, Failed}) <==> exists k :: FinalIn(db, row, k, false)
  {
    var e := ExecId(row.run, row.wallet);
    if HasFinalReceipt(db.receipts, e, {Confirmed}) {
      var k :| 0 <= k < |db.receipts| && db.receipts[k].exec == e && db.receipts[k].stage == Some(EthereumFinal) && db.receipts[k].state in {Confirmed};
      assert FinalIn(db, row, k, true);
    }
    if HasFinalReceipt(db.receipts, e, {Confirmed, Failed}) {
      var k :| 0 <= k < |db.receipts| && db.receipts[k].exec == e && db.receipts[k].stage == Some(EthereumFinal) && db.receipts[k].state in {Confirmed, Failed};
      assert FinalIn(db, row, k, false);
    }
  }
}
