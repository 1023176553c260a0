/** What the kernel guarantees over whole histories: caps, exposure, settlement evidence and run lifecycles. */
module Results {
  import opened Basics
  import opened Ledger
  import opened Coordinator
  import opened Kernel
  import opened Safety

  /** The world after the first `k` steps of a history. */
  function At(cfg: Config, steps: seq<Step>, k: nat): World
    requires k <= |steps|
  {
    After(cfg, steps[..k])
  }

  lemma AtStep(cfg: Config, steps: seq<Step>, k: nat)
    requires k < |steps|
    ensures At(cfg, steps, k + 1) == Apply(cfg, At(cfg, steps, k), steps[k])
  {
    assert steps[..k + 1][..k] == steps[..k];
  }

  lemma AtEnd(cfg: Config, steps: seq<Step>)
    ensures At(cfg, steps, |steps|) == After(cfg, steps)
  {
    assert steps[..|steps|] == steps;
  }

  // ---- Fleet caps ----

  /** The amount is within the fleet cap of the chain and class; free mints on Robinhood also within 0.002 ETH. */
  ghost predicate UnderCap(p: FleetPolicy, chain: Chain, cls: MintClass, amount: int) {
    && (cls == Paid ==> amount <= p.paidDailyCapWei)
    && (cls == Free ==> amount <= p.freeDailyCapWei)
    && (cls == Free && chain == Robinhood ==> amount <= 2_000_000_000_000_000)
  }

  lemma CapIsUnder(p: FleetPolicy, chain: Chain, cls: MintClass, amount: int)
    ensures amount <= FleetCap(p, chain, cls) <==> UnderCap(p, chain, cls, amount)
  {
  }

  /** Open exposure now, and actual spend in the day after `from`, are within the fleet cap of the chain and mint class. */
  ghost predicate WithinCap(p: FleetPolicy, db: Db, chain: Chain, cls: MintClass, from: int) {
    && UnderCap(p, chain, cls, Sum(FleetDaily(chain, cls, db.now - 24 * 60 * 60 * 1000), db.rows))
    && 0 <= ActuallySpent(chain, cls, from, db.rows) && UnderCap(p, chain, cls, ActuallySpent(chain, cls, from, db.rows))
  }

  lemma CapsBound(cfg: Config, p: FleetPolicy, db: Db, chain: Chain, cls: MintClass, from: int)
    requires Shape(db) && Caps(cfg, db) && Governs(cfg, chain, p)
    ensures WithinCap(p, db, chain, cls, from)
  {
    PolicyGoverns(cfg, chain, p);
    assert CapHolds(cfg, db, chain, cls) && WindowHolds(cfg, db, chain, cls, from);
    forall i | 0 <= i < |db.rows| ensures SettledWithinReserved(db.rows[i]) { assert RowOk(db, db.rows[i]); }
    SpentWithinSum(chain, cls, from, db.rows);
    CapIsUnder(p, chain, cls, Sum(FleetDaily(chain, cls, db.now - DAY_MS), db.rows));
    CapIsUnder(p, chain, cls, ActuallySpent(chain, cls, from, db.rows));
  }

  /**
   * At every moment the open exposure of a chain and mint class is within its fleet cap, and so is what was actually
   * spent by the settlements of any 24-hour window, past or present.
   */
  lemma FleetCaps(cfg: Config, steps: seq<Step>, p: FleetPolicy, chain: Chain, cls: MintClass, from: int)
    requires ValidConfig(cfg) && Governs(cfg, chain, p)
    ensures WithinCap(p, After(cfg, steps).db, chain, cls, from)
  {
    Always(cfg, steps);
    CapsBound(cfg, p, After(cfg, steps).db, chain, cls, from);
  }

  ghost predicate HoldsPaid(db: Db, id: CampaignId, w: Address) {
    exists i :: 0 <= i < |db.rows| && db.rows[i].campaign == id && db.rows[i].wallet == w && db.rows[i].status in {Reserved, Settled}
  }

  lemma HoldersExactly(db: Db, id: CampaignId, w: Address)
    ensures w in Holders(db.rows, id) <==> HoldsPaid(db, id, w)
  {
  }

  /** Distinct wallets that all hold pending or settled exposure on one paid campaign never outnumber its limit. */
  lemma PaidWalletCap(cfg: Config, steps: seq<Step>, p: FleetPolicy, id: CampaignId, ws: seq<Address>)
    requires ValidConfig(cfg) && Governs(cfg, cfg.terms(id).chain, p) && cfg.terms(id).priceWei != 0
    requires Distinct(ws) && forall w :: w in ws ==> HoldsPaid(After(cfg, steps).db, id, w)
    ensures |ws| <= p.paidMaxWallets
  {
    var db := After(cfg, steps).db;
    Always(cfg, steps);
    PolicyGoverns(cfg, cfg.terms(id).chain, p);
    assert PaidCapHolds(cfg, db, id);
    forall w | w in ws ensures w in Holders(db.rows, id) { HoldersExactly(db, id, w); }
    DistinctSize(ws);
    SubsetSize(ToSet(ws), Holders(db.rows, id));
  }

  /** A Base row is outstanding: reserved, or settled while none of its receipts is Ethereum-final. */
  ghost predicate Outstanding(db: Db, i: nat) {
    && i < |db.rows| && db.rows[i].chain == Base
    && (db.rows[i].status == Reserved || (db.rows[i].status == Settled && forall k :: !FinalIn(db, db.rows[i], k, false)))
  }

  /** The first rehearsal is behind us: a settled Base row with a confirmed, Ethereum-final receipt. */
  ghost predicate Rehearsed(db: Db, m: nat, k: nat) {
    m < |db.rows| && db.rows[m].chain == Base && db.rows[m].status == Settled && FinalIn(db, db.rows[m], k, true)
  }

  /** Until some Base mint is confirmed, Ethereum-final and settled, at most one Base reservation is outstanding. */
  lemma BaseRehearsal(cfg: Config, steps: seq<Step>, i: nat, j: nat) returns (m: nat, k: nat)
    requires ValidConfig(cfg) && i < j && Outstanding(After(cfg, steps).db, i) && Outstanding(After(cfg, steps).db, j)
    ensures Rehearsed(After(cfg, steps).db, m, k)
  {
    Always(cfg, steps);
    m, k := OneOutstanding(After(cfg, steps).db, i, j);
  }

  lemma OneOutstanding(db: Db, i: nat, j: nat) returns (m: nat, k: nat)
    requires RehearsalHolds(db) && i < j && Outstanding(db, i) && Outstanding(db, j)
    ensures Rehearsed(db, m, k)
  {
    FinalExactly(db, db.rows[i]);
    FinalExactly(db, db.rows[j]);
    RehearsalExactly(db);
    assert OutstandingRow(db, db.rows[i]) && OutstandingRow(db, db.rows[j]);
    m, k :| 0 <= m < |db.rows| && db.rows[m].chain == Base && db.rows[m].status == Settled && FinalIn(db, db.rows[m], k, true);
  }

  /** The fee budget of a campaign: its total, or the sum of its parts. */
  ghost function FeeBudget(f: FeePolicy): int {
    if f.totalWei.Some? then f.totalWei.value
    else f.priorityWei + (if f.l2GasWei.Some? then f.l2GasWei.value else 0) + (if f.l1DataWei.Some? then f.l1DataWei.value else 0)
  }

  /**
   * After every history each reservation carries the worst case of its run's campaign: price times quantity as its mint
   * value, and that plus the fee budget as the amount reserved, for the chain, campaign and wallet it was made for.
   */
  lemma RowsPriced(cfg: Config, steps: seq<Step>, i: nat)
    requires ValidConfig(cfg) && i < |After(cfg, steps).db.rows|
    ensures var db := After(cfg, steps).db;
            && db.rows[i].run in db.runs
            && var row, c := db.rows[i], db.runs[db.rows[i].run].campaign;
               && row.campaign == c.id && row.chain == c.chain
               && row.mintValueWei == Some(c.priceWei * c.quantity)
               && row.reservedWei == c.priceWei * c.quantity + FeeBudget(c.fee)
  {
    Always(cfg, steps);
    assert RowOk(After(cfg, steps).db, After(cfg, steps).db.rows[i]);
  }

  /** A wallet is never reserved twice for the same campaign, whatever happened to its first reservation. */
  lemma NoSecondMint(cfg: Config, steps: seq<Step>, i: nat, j: nat)
    requires ValidConfig(cfg)
    requires var rows := After(cfg, steps).db.rows;
             i < |rows| && j < |rows| && rows[i].campaign == rows[j].campaign && rows[i].wallet == rows[j].wallet
    ensures i == j
  {
    Always(cfg, steps);
    var db := After(cfg, steps).db;
    assert RowOk(db, db.rows[i]) && RowOk(db, db.rows[j]);
    assert ExecId(db.rows[i].run, db.rows[i].wallet) == ExecId(db.rows[j].run, db.rows[j].wallet);
  }

  // ---- Reservations over time ----

  /** A row keeps its place and its identity; once settled or released it never changes again. */
  ghost predicate Continues(row: Row, row': Row) {
    && row'.run == row.run && row'.wallet == row.wallet && row'.campaign == row.campaign && row'.chain == row.chain
    && row'.reservedWei == row.reservedWei && row'.mintValueWei == row.mintValueWei && row'.createdAt == row.createdAt
    && (row.status != Reserved ==> row' == row)
  }

  lemma RowContinues(cfg: Config, w: World, step: Step, i: nat)
    requires i < |w.db.rows|
    ensures i < |Apply(cfg, w, step).db.rows| && Continues(w.db.rows[i], Apply(cfg, w, step).db.rows[i])
  {
    if step.AdmitFleet? && AdmitStep(cfg, w, step.p, step.wallets, step.enabled).Ok? {
      AdmitShape(cfg, w.db, w.locals[step.p].run, w.locals[step.p].copy, step.wallets, step.enabled);
    } else {
      StepEvolves(cfg, w, step);
      assert RowEvolves(w.db.rows[i], Apply(cfg, w, step).db.rows[i], w.db.now);
    }
  }

  lemma {:induction false} RowsContinue(cfg: Config, steps: seq<Step>, j: nat, k: nat, i: nat)
    requires j <= k <= |steps| && i < |At(cfg, steps, j).db.rows|
    ensures i < |At(cfg, steps, k).db.rows|
    ensures Continues(At(cfg, steps, j).db.rows[i], At(cfg, steps, k).db.rows[i])
    decreases k
  {
    if j < k {
      RowsContinue(cfg, steps, j, k - 1, i);
      AtStep(cfg, steps, k - 1);
      RowContinues(cfg, At(cfg, steps, k - 1), steps[k - 1], i);
    }
  }

  /** A settled reservation's amount lies between zero and what was reserved, forever after. */
  lemma EndStatesStay(cfg: Config, steps: seq<Step>, j: nat, i: nat)
    requires ValidConfig(cfg) && j <= |steps| && i < |At(cfg, steps, j).db.rows| && At(cfg, steps, j).db.rows[i].status != Reserved
    ensures i < |After(cfg, steps).db.rows| && After(cfg, steps).db.rows[i] == At(cfg, steps, j).db.rows[i]
    ensures SettledWithinReserved(After(cfg, steps).db.rows[i])
  {
    RowsContinue(cfg, steps, j, |steps|, i);
    AtEnd(cfg, steps);
    Always(cfg, steps);
    assert RowOk(After(cfg, steps).db, After(cfg, steps).db.rows[i]);
  }

  // ---- Who can free exposure that may have been sent ----

  ghost predicate Hashed(db: Db, row: Row) {
    HasHash(db.attempts, ExecId(row.run, row.wallet))
  }

  /** The transaction of this step applied a verdict of `Release` to the row, or the engine released it itself. */
  ghost predicate Frees(w: World, step: Step, row: Row) {
    var e := ExecId(row.run, row.wallet);
    match step
    case ApplyUpdate(p, u) =>
      ApplyPass(w, p, u).Ok? && w.locals[p].run == row.run &&
      VerdictFor(w.db.runs[row.run].campaign.chain, u.attempts, u.receipts, e) == Release
    case RecordResult(p, r, killedSeen) =>
      ApplyResult(w, p, r, killedSeen).Ok? && w.locals[p].run == row.run &&
      VerdictFor(w.db.runs[row.run].campaign.chain, r.attempts, r.receipts, e) == Release
    case EngineRelease(run, wallet) => run == row.run && wallet == row.wallet
    case _ => false
  }

  /** A reconciliation pass changes the rows by its accounting and by nothing else. */
  lemma PassRows(w: World, p: Proc, u: Update, i: nat)
    requires ApplyPass(w, p, u).Ok? && i < |w.db.rows|
    ensures w.locals[p].run in w.db.runs
    ensures var run := w.locals[p].run; var chain := w.db.runs[run].campaign.chain;
            && !BadAmount(chain, u.attempts, u.receipts, run, w.db.rows[i])
            && |ApplyPass(w, p, u).value.rows| == |w.db.rows|
            && ApplyPass(w, p, u).value.rows[i] == AccountedRow(w.db.now, chain, u.attempts, u.receipts, run, w.db.rows[i])
  {
  }

  lemma ResultRows(w: World, p: Proc, r: ExecResult, killedSeen: bool, i: nat)
    requires ApplyResult(w, p, r, killedSeen).Ok? && i < |w.db.rows|
    ensures w.locals[p].run in w.db.runs
    ensures var run := w.locals[p].run; var chain := w.db.runs[run].campaign.chain;
            && !BadAmount(chain, r.attempts, r.receipts, run, w.db.rows[i])
            && |ApplyResult(w, p, r, killedSeen).value.rows| == |w.db.rows|
            && ApplyResult(w, p, r, killedSeen).value.rows[i] == AccountedRow(w.db.now, chain, r.attempts, r.receipts, run, w.db.rows[i])
  {
  }

  /** Steps outside accounting, kills, closes and engine settlements keep every row. */
  ghost predicate Quiet(step: Step) {
    !step.ApplyUpdate? && !step.RecordResult? && !step.StopAll? && !step.CloseRun? && !step.EngineSettle? && !step.EngineRelease?
  }

  lemma QuietRows(cfg: Config, w: World, step: Step, i: nat)
    requires Quiet(step) && i < |w.db.rows|
    ensures i < |Apply(cfg, w, step).db.rows| && Apply(cfg, w, step).db.rows[i] == w.db.rows[i]
  {
    match step
    case AdmitFleet(p, wallets, enabled) =>
      if AdmitStep(cfg, w, p, wallets, enabled).Ok? {
        AdmitShape(cfg, w.db, w.locals[p].run, w.locals[p].copy, wallets, enabled);
      }
    case EngineAttempt(a) =>
      if AddFacts(w.db, Ethereum, [a], []).Ok? { AddFactsEvolves(w.db, Ethereum, [a], []); }
    case EngineReceipt(r) =>
      if ChainOf(w.db, r.exec).Some? && AddFacts(w.db, ChainOf(w.db, r.exec).value, [], [r]).Ok? {
        AddFactsEvolves(w.db, ChainOf(w.db, r.exec).value, [], [r]);
      }
    case _ =>
  }

  lemma KillKeepsHashed(db: Db, i: nat)
    requires i < |db.rows| && Hashed(db, db.rows[i])
    ensures AbortRemaining(db).rows[i] == db.rows[i]
  {
  }

  lemma CloseKeepsHashed(db: Db, run: RunId, i: nat)
    requires CloseUnsent(db, run).Ok? && Shape(db) && i < |db.rows| && Hashed(db, db.rows[i])
    ensures i < |CloseUnsent(db, run).value.rows| && CloseUnsent(db, run).value.rows[i] == db.rows[i]
  {
    var e := ExecId(db.rows[i].run, db.rows[i].wallet);
    assert RowOk(db, db.rows[i]) && Touches(db.attempts, e);
  }

  /** The row is released by the step exactly when the step frees it. */
  ghost predicate FreedExactly(cfg: Config, w: World, step: Step, i: nat)
    requires i < |w.db.rows|
  {
    && i < |Apply(cfg, w, step).db.rows|
    && (Apply(cfg, w, step).db.rows[i].status == Released <==> Frees(w, step, w.db.rows[i]))
  }

  lemma FreedByUpdate(cfg: Config, w: World, p: Proc, u: Update, i: nat)
    requires i < |w.db.rows| && w.db.rows[i].status == Reserved
    ensures FreedExactly(cfg, w, ApplyUpdate(p, u), i)
  {
    if ApplyPass(w, p, u).Ok? {
      PassRows(w, p, u, i);
      assert Apply(cfg, w, ApplyUpdate(p, u)).db == ApplyPass(w, p, u).value;
    }
  }

  lemma FreedByResult(cfg: Config, w: World, p: Proc, r: ExecResult, killedSeen: bool, i: nat)
    requires i < |w.db.rows| && w.db.rows[i].status == Reserved
    ensures FreedExactly(cfg, w, RecordResult(p, r, killedSeen), i)
  {
    if ApplyResult(w, p, r, killedSeen).Ok? {
      ResultRows(w, p, r, killedSeen, i);
      assert Apply(cfg, w, RecordResult(p, r, killedSeen)).db == ApplyResult(w, p, r, killedSeen).value;
    }
  }

  lemma FreedByClose(cfg: Config, w: World, run: RunId, i: nat)
    requires Shape(w.db) && i < |w.db.rows| && w.db.rows[i].status == Reserved && Hashed(w.db, w.db.rows[i])
    ensures FreedExactly(cfg, w, CloseRun(run), i)
  {
    if CloseUnsent(w.db, run).Ok? { CloseKeepsHashed(w.db, run, i); }
  }

  /**
   * Exactly who frees a reservation whose execution has a hash-bearing attempt: an accepted fact set that reports the
   * wallet with nothing but hashless failures, or the engine itself. Kill, unsent-run close, reorgs and unresolved
   * passes never do.
   */
  lemma HashedFreedExactly(cfg: Config, w: World, step: Step, i: nat)
    requires Shape(w.db) && i < |w.db.rows| && w.db.rows[i].status == Reserved && Hashed(w.db, w.db.rows[i])
    ensures FreedExactly(cfg, w, step, i)
  {
    if Quiet(step) {
      QuietRows(cfg, w, step, i);
    } else if step.RecordResult? {
      FreedByResult(cfg, w, step.p, step.result, step.killedSeen, i);
    } else if step.ApplyUpdate? {
      FreedByUpdate(cfg, w, step.p, step.update, i);
    } else if step.StopAll? {
      KillKeepsHashed(w.db, i);
    } else if step.CloseRun? {
      FreedByClose(cfg, w, step.run, i);
    }
  }

  /** After a kill, whatever is still reserved may have been sent or had ended before, and no run is left open. */
  lemma KillLeavesOnlySent(db: Db, i: nat, run: RunId)
    requires Shape(db) && i < |db.rows|
    ensures var e := ExecId(db.rows[i].run, db.rows[i].wallet);
            AbortRemaining(db).rows[i].status == Reserved ==>
              Hashed(db, db.rows[i]) || db.execs[e].state !in {Prepared, Signed, Submitted, Pending}
    ensures run in db.runs ==> AbortRemaining(db).runs[run].state !in {Armed, Active}
  {
    assert RowOk(db, db.rows[i]);
  }

  /** Closing a run that sent nothing frees every reservation it holds and touches no other run's. */
  lemma CloseFreesRun(db: Db, run: RunId, i: nat)
    requires Shape(db) && CloseUnsent(db, run).Ok? && i < |db.rows|
    ensures var db' := CloseUnsent(db, run).value;
            && |db'.rows| == |db.rows|
            && (db.rows[i].run == run ==> db'.rows[i].status != Reserved && !Touches(db.attempts, ExecId(run, db.rows[i].wallet)))
            && (db.rows[i].run != run ==> db'.rows[i] == db.rows[i])
  {
    assert RowOk(db, db.rows[i]);
  }

  /** Only a report of nothing but hashless failures leads to a release. */
  lemma FreedMeansUnsent(w: World, step: Step, row: Row)
    requires Frees(w, step, row)
    ensures ReportsUnsent(step, ExecId(row.run, row.wallet))
  {
  }

  /** An engine report that would free the execution: nothing but hashless failures for it, or its own release call. */
  ghost predicate ReportsUnsent(step: Step, e: ExecId) {
    match step
    case ApplyUpdate(_, u) => OnlyHashlessFailures(u.attempts, e)
    case RecordResult(_, r, _) => OnlyHashlessFailures(r.attempts, e)
    case EngineRelease(run, wallet) => e == ExecId(run, wallet)
    case _ => false
  }

  lemma HashStays(cfg: Config, w: World, step: Step, e: ExecId)
    requires HasHash(w.db.attempts, e)
    ensures HasHash(Apply(cfg, w, step).db.attempts, e)
  {
    var k :| 0 <= k < |w.db.attempts| && w.db.attempts[k].exec == e && w.db.attempts[k].hash.Some?;
    if step.AdmitFleet? && AdmitStep(cfg, w, step.p, step.wallets, step.enabled).Ok? {
      AdmitShape(cfg, w.db, w.locals[step.p].run, w.locals[step.p].copy, step.wallets, step.enabled);
    } else {
      StepEvolves(cfg, w, step);
    }
    assert Apply(cfg, w, step).db.attempts[k] == w.db.attempts[k];
  }

  /** Over a whole history, exposure that may have been sent is only ever settled, unless the engine reports it unsent. */
  lemma {:induction false} HashedNeverFreed(cfg: Config, steps: seq<Step>, j: nat, k: nat, i: nat)
    requires ValidConfig(cfg) && j <= k <= |steps| && i < |At(cfg, steps, j).db.rows|
    requires At(cfg, steps, j).db.rows[i].status != Released && Hashed(At(cfg, steps, j).db, At(cfg, steps, j).db.rows[i])
    requires forall m :: j <= m < k ==>
      !ReportsUnsent(steps[m], ExecId(At(cfg, steps, j).db.rows[i].run, At(cfg, steps, j).db.rows[i].wallet))
    ensures i < |At(cfg, steps, k).db.rows| && At(cfg, steps, k).db.rows[i].status != Released
    ensures Continues(At(cfg, steps, j).db.rows[i], At(cfg, steps, k).db.rows[i])
    ensures Hashed(At(cfg, steps, k).db, At(cfg, steps, k).db.rows[i])
    decreases k
  {
    if j < k {
      HashedNeverFreed(cfg, steps, j, k - 1, i);
      RowsContinue(cfg, steps, j, k, i);
      var w := At(cfg, steps, k - 1);
      var row := w.db.rows[i];
      Always(cfg, steps[..k - 1]);
      AtStep(cfg, steps, k - 1);
      HashStays(cfg, w, steps[k - 1], ExecId(row.run, row.wallet));
      if row.status == Reserved {
        assert !ReportsUnsent(steps[k - 1], ExecId(row.run, row.wallet));
        HashedFreedExactly(cfg, w, steps[k - 1], i);
        if Frees(w, steps[k - 1], row) { FreedMeansUnsent(w, steps[k - 1], row); }
      } else {
        RowContinues(cfg, w, steps[k - 1], i);
      }
    }
  }

  // ---- The kill switch ----

  /** The sum behind a rolling query, read at the current time. */
  ghost function Now(q: Query, db: Db): Query {
    match q
    case FleetDaily(chain, cls, _) => FleetDaily(chain, cls, db.now - DAY_MS)
    case WalletDaily(chain, wallet, _) => WalletDaily(chain, wallet, db.now - DAY_MS)
    case _ => q
  }

  lemma KilledNeverGrows(cfg: Config, w: World, step: Step, q: Query)
    requires w.db.killed && !q.SettledWindow?
    ensures var w' := Apply(cfg, w, step); Sum(Now(q, w'.db), w'.db.rows) <= Sum(Now(q, w.db), w.db.rows)
  {
    var w' := Apply(cfg, w, step);
    if step.AdmitFleet? && AdmitStep(cfg, w, step.p, step.wallets, step.enabled).Ok? {
      AdmitPassed(cfg, w.db, w.locals[step.p].run, w.locals[step.p].copy, step.wallets, step.enabled);
      assert false;
    }
    StepEvolves(cfg, w, step);
    forall i | 0 <= i < |w.db.rows| && Counts(Now(q, w'.db), w'.db.rows[i])
      ensures Counts(Now(q, w.db), w.db.rows[i]) && w'.db.rows[i].reservedWei <= w.db.rows[i].reservedWei
    {
      assert RowEvolves(w.db.rows[i], w'.db.rows[i], w.db.now);
    }
    SumMonotone(Now(q, w.db), w.db.rows, Now(q, w'.db), w'.db.rows);
  }

  /** An exposure sum after each number of steps of a history, read at that moment. */
  ghost function ExposureOver(cfg: Config, steps: seq<Step>, q: Query): nat -> nat {
    (k: nat) => if k <= |steps| then Sum(Now(q, At(cfg, steps, k).db), At(cfg, steps, k).db.rows) else 0
  }

  ghost predicate Falls(f: nat -> nat, m: nat) {
    f(m + 1) <= f(m)
  }

  lemma KilledStepAt(cfg: Config, steps: seq<Step>, k: nat, q: Query)
    requires k < |steps| && !q.SettledWindow? && At(cfg, steps, k).db.killed
    ensures Falls(ExposureOver(cfg, steps, q), k)
  {
    AtStep(cfg, steps, k);
    KilledNeverGrows(cfg, At(cfg, steps, k), steps[k], q);
  }

  lemma {:induction false} Descends(f: nat -> nat, j: nat, k: nat)
    requires j <= k && forall m :: j <= m < k ==> Falls(f, m)
    ensures f(k) <= f(j)
    decreases k
  {
    if j < k {
      Descends(f, j, k - 1);
      assert Falls(f, k - 1);
    }
  }

  /** While the kill switch stays engaged, no exposure sum of any chain, wallet or run grows. */
  lemma KilledHistoryNeverGrows(cfg: Config, steps: seq<Step>, j: nat, k: nat, q: Query)
    requires j <= k <= |steps| && !q.SettledWindow?
    requires forall m :: j <= m < k ==> At(cfg, steps, m).db.killed
    ensures ExposureOver(cfg, steps, q)(k) <= ExposureOver(cfg, steps, q)(j)
  {
    forall m | j <= m < k ensures Falls(ExposureOver(cfg, steps, q), m) {
      KilledStepAt(cfg, steps, m, q);
    }
    Descends(ExposureOver(cfg, steps, q), j, k);
  }

  // ---- Run lifecycle ----

  ghost function Rank(s: RunState): nat {
    match s
    case Armed => 3
    case Active => 2
    case Completed => 1
    case _ => 0
  }

  /** No move, one move of the declared transition relation, or two of them by way of `Active`. */
  ghost predicate Path(from: RunState, to: RunState) {
    from == to || Allowed(from, to) || (Allowed(from, Active) && Allowed(Active, to))
  }

  /** A legal move that never climbs back. */
  ghost predicate Down(from: RunState, to: RunState) {
    Path(from, to) && (to == from || Rank(to) < Rank(from))
  }

  /** A successful admission of `run` on a copy read before the run left `Armed` and `Active`. */
  ghost predicate StaleAdmission(cfg: Config, w: World, step: Step, run: RunId) {
    && step.AdmitFleet? && AdmitStep(cfg, w, step.p, step.wallets, step.enabled).Ok? && w.locals[step.p].run == run
    && run in w.db.runs && w.db.runs[run].state in {Completed, RunFailed, RunAborted}
  }

  /** The run states after a step, by step: the only transactions that write one. */
  ghost function StateAfter(cfg: Config, w: World, step: Step, run: RunId): RunState
    requires run in w.db.runs
  {
    var s := w.db.runs[run].state;
    var chain := w.db.runs[run].campaign.chain;
    match step
    case AdmitFleet(p, wallets, enabled) =>
      if AdmitStep(cfg, w, p, wallets, enabled).Ok? && w.locals[p].run == run then Active else s
    case RecordResult(p, r, killedSeen) =>
      if ApplyResult(w, p, r, killedSeen).Ok? && w.locals[p].run == run then
        var next := ExecutedState(s, chain, r.state, killedSeen);
        if next.Some? then next.value else s
      else s
    case ApplyUpdate(p, u) =>
      if ApplyPass(w, p, u).Ok? && w.locals[p].run == run then ReconciledState(s, chain, u.outcome) else s
    case StopAll => if s in {Armed, Active} then RunAborted else s
    case CloseRun(r) => if r == run && CloseUnsent(w.db, run).Ok? then RunAborted else s
    case FinishDryRun(r) => if r == run && w.db.runs[run].mode == DryRun && s in {Armed, Active} then Completed else s
    case FailArmedRun(r) => if r == run && s == Armed then RunFailed else s
    case _ => s
  }

  /** The run record after a step is the one before it, in the state the step moves it to. */
  ghost predicate MovesTo(cfg: Config, w: World, step: Step, run: RunId)
    requires run in w.db.runs
  {
    run in Apply(cfg, w, step).db.runs && Apply(cfg, w, step).db.runs[run] == w.db.runs[run].(state := StateAfter(cfg, w, step, run))
  }

  lemma AdmissionMoves(cfg: Config, w: World, p: Proc, wallets: seq<Address>, enabled: bool, run: RunId)
    requires run in w.db.runs
    ensures MovesTo(cfg, w, AdmitFleet(p, wallets, enabled), run)
  {
    if AdmitStep(cfg, w, p, wallets, enabled).Ok? {
      AdmitShape(cfg, w.db, w.locals[p].run, w.locals[p].copy, wallets, enabled);
    }
  }

  lemma UpdateMoves(cfg: Config, w: World, p: Proc, u: Update, run: RunId)
    requires run in w.db.runs
    ensures MovesTo(cfg, w, ApplyUpdate(p, u), run)
  {
  }

  lemma ResultMoves(cfg: Config, w: World, p: Proc, r: ExecResult, killedSeen: bool, run: RunId)
    requires run in w.db.runs
    ensures MovesTo(cfg, w, RecordResult(p, r, killedSeen), run)
  {
  }

  lemma EngineFactMoves(cfg: Config, w: World, step: Step, run: RunId)
    requires run in w.db.runs && (step.EngineAttempt? || step.EngineReceipt?)
    ensures MovesTo(cfg, w, step, run)
  {
    if step.EngineAttempt? {
      if AddFacts(w.db, Ethereum, [step.attempt], []).Ok? { AddFactsEvolves(w.db, Ethereum, [step.attempt], []); }
    } else {
      var chain := ChainOf(w.db, step.receipt.exec);
      if chain.Some? && AddFacts(w.db, chain.value, [], [step.receipt]).Ok? {
        AddFactsEvolves(w.db, chain.value, [], [step.receipt]);
      }
    }
  }

  lemma StateStep(cfg: Config, w: World, step: Step, run: RunId)
    requires run in w.db.runs
    ensures MovesTo(cfg, w, step, run)
  {
    match step
    case AdmitFleet(p, wallets, enabled) => AdmissionMoves(cfg, w, p, wallets, enabled, run);
    case ApplyUpdate(p, u) => UpdateMoves(cfg, w, p, u, run);
    case RecordResult(p, r, killedSeen) => ResultMoves(cfg, w, p, r, killedSeen, run);
    case EngineAttempt(a) => EngineFactMoves(cfg, w, step, run);
    case EngineReceipt(r) => EngineFactMoves(cfg, w, step, run);
    case _ =>
  }

  lemma ReconciledDown(s: RunState, chain: Chain, outcome: Outcome)
    ensures Down(s, ReconciledState(s, chain, outcome))
  {
  }

  lemma ExecutedDown(s: RunState, chain: Chain, result: FactState, killedSeen: bool)
    ensures var next := ExecutedState(s, chain, result, killedSeen); next.Some? ==> Down(s, next.value)
  {
  }

  /** Every step but an admission moves a run down. */
  lemma OtherStepsDown(cfg: Config, w: World, step: Step, run: RunId)
    requires run in w.db.runs && !step.AdmitFleet?
    ensures Down(w.db.runs[run].state, StateAfter(cfg, w, step, run))
  {
    var s, chain := w.db.runs[run].state, w.db.runs[run].campaign.chain;
    match step
    case RecordResult(p, r, killedSeen) => ExecutedDown(s, chain, r.state, killedSeen);
    case ApplyUpdate(p, u) => ReconciledDown(s, chain, u.outcome);
    case _ =>
  }

  /** What a step may make of a run: down, or up by a stale admission and by nothing else. */
  ghost predicate Lifecycle(stale: bool, s: RunState, s': RunState) {
    && (Rank(s') > Rank(s) <==> stale)
    && (!stale ==> Down(s, s'))
    && (s in {RunFailed, RunAborted} ==> (s' != s <==> stale))
  }

  lemma AdmissionLifecycle(admits: bool, s: RunState)
    ensures Lifecycle(admits && s in {Completed, RunFailed, RunAborted}, s, if admits then Active else s)
  {
  }

  lemma DownLifecycle(s: RunState, s': RunState)
    requires Down(s, s')
    ensures Lifecycle(false, s, s')
  {
  }

  lemma NextState(cfg: Config, w: World, step: Step, run: RunId)
    requires run in w.db.runs
    ensures Lifecycle(StaleAdmission(cfg, w, step, run), w.db.runs[run].state, StateAfter(cfg, w, step, run))
  {
    if step.AdmitFleet? {
      AdmissionLifecycle(AdmitStep(cfg, w, step.p, step.wallets, step.enabled).Ok? && w.locals[step.p].run == run, w.db.runs[run].state);
    } else {
      OtherStepsDown(cfg, w, step, run);
      DownLifecycle(w.db.runs[run].state, StateAfter(cfg, w, step, run));
    }
  }

  /**
   * A run follows the transition relation downwards, and climbs back exactly when an admission overwrites a completed,
   * failed or aborted run from a stale copy. In particular `Failed` and `Aborted` are left in no other way.
   */
  lemma RunLifecycle(cfg: Config, w: World, step: Step, run: RunId)
    requires run in w.db.runs
    ensures run in Apply(cfg, w, step).db.runs
    ensures Lifecycle(StaleAdmission(cfg, w, step, run), w.db.runs[run].state, Apply(cfg, w, step).db.runs[run].state)
  {
    StateStep(cfg, w, step, run);
    NextState(cfg, w, step, run);
  }

  /** The state of a run after each number of steps of a history. */
  ghost function History(cfg: Config, steps: seq<Step>, run: RunId): nat -> RunState {
    (m: nat) =>
      if m <= |steps| && run in At(cfg, steps, m).db.runs then At(cfg, steps, m).db.runs[run].state else Armed
  }

  ghost predicate DownAt(f: nat -> RunState, m: nat) {
    Down(f(m), f(m + 1))
  }

  /** How often a history changes between `j` and `k`. */
  ghost function Changes(f: nat -> RunState, j: nat, k: nat): nat
    requires j <= k
    decreases k
  {
    if j == k then 0 else Changes(f, j, k - 1) + if f(k) != f(k - 1) then 1 else 0
  }

  lemma {:induction false} ChangesBounded(f: nat -> RunState, j: nat, k: nat)
    requires j <= k && forall m :: j <= m < k ==> DownAt(f, m)
    ensures Changes(f, j, k) + Rank(f(k)) <= Rank(f(j))
    decreases k
  {
    if j < k {
      ChangesBounded(f, j, k - 1);
      assert DownAt(f, k - 1);
    }
  }

  lemma RunKept(cfg: Config, steps: seq<Step>, k: nat, run: RunId)
    requires k < |steps| && run in At(cfg, steps, k).db.runs
    ensures run in At(cfg, steps, k + 1).db.runs
    ensures At(cfg, steps, k + 1).db.runs[run].(state := Armed) == At(cfg, steps, k).db.runs[run].(state := Armed)
  {
    AtStep(cfg, steps, k);
    StateStep(cfg, At(cfg, steps, k), steps[k], run);
  }

  lemma {:induction false} RunStays(cfg: Config, steps: seq<Step>, j: nat, k: nat, run: RunId)
    requires j <= k <= |steps| && run in At(cfg, steps, j).db.runs
    ensures run in At(cfg, steps, k).db.runs
    ensures At(cfg, steps, k).db.runs[run].(state := Armed) == At(cfg, steps, j).db.runs[run].(state := Armed)
    decreases k
  {
    if j < k {
      RunStays(cfg, steps, j, k - 1, run);
      RunKept(cfg, steps, k - 1, run);
    }
  }

  lemma HistoryDown(cfg: Config, steps: seq<Step>, k: nat, run: RunId)
    requires k < |steps| && run in At(cfg, steps, k).db.runs
    requires !StaleAdmission(cfg, At(cfg, steps, k), steps[k], run)
    ensures DownAt(History(cfg, steps, run), k)
  {
    AtStep(cfg, steps, k);
    RunLifecycle(cfg, At(cfg, steps, k), steps[k], run);
  }

  /** Without stale admissions a run changes state at most three times, along legal moves, however long the history is. */
  lemma BoundedLifecycle(cfg: Config, steps: seq<Step>, j: nat, k: nat, run: RunId)
    requires j <= k <= |steps| && run in At(cfg, steps, j).db.runs
    requires forall m :: j <= m < k ==> !StaleAdmission(cfg, At(cfg, steps, m), steps[m], run)
    ensures Changes(History(cfg, steps, run), j, k) <= 3
    ensures forall m :: j <= m < k ==> DownAt(History(cfg, steps, run), m)
  {
    var f := History(cfg, steps, run);
    forall m | j <= m < k ensures DownAt(f, m) {
      RunStays(cfg, steps, j, m, run);
      HistoryDown(cfg, steps, m, run);
    }
    ChangesBounded(f, j, k);
  }

  // ---- Completion on the staged chains ----

  /** A pass over `run` whose facts are all confirmed and Ethereum-final, with a receipt for every execution it had seen. */
  ghost predicate FinalPass(w: World, step: Step, run: RunId) {
    && step.ApplyUpdate? && step.p in w.locals && w.locals[step.p].Pass? && w.locals[step.p].run == run && run in w.db.runs
    && step.update.outcome == OFinal
    && w.locals[step.p].seen != []
    && (forall i :: 0 <= i < |w.locals[step.p].seen| ==> HasReceiptFor(step.update.receipts, w.locals[step.p].seen[i].exec))
    && (forall k :: 0 <= k < |step.update.receipts| ==> FinalReceipt(w.db.runs[run].campaign.chain, step.update.receipts[k]))
  }

  lemma CompletionIsFinal(cfg: Config, w: World, step: Step, run: RunId)
    requires run in w.db.runs && w.db.runs[run].mode == Live && w.db.runs[run].campaign.chain != Ethereum
    requires w.db.runs[run].state != Completed
    ensures run in Apply(cfg, w, step).db.runs && Apply(cfg, w, step).db.runs[run].state == Completed ==> FinalPass(w, step, run)
  {
    StateStep(cfg, w, step, run);
  }

  /** The attempts a pass carries are the ones recorded when it read the state, at some earlier step of the history. */
  lemma {:induction false} PassReadEarlier(cfg: Config, steps: seq<Step>, p: Proc) returns (j: nat)
    requires p in After(cfg, steps).locals && After(cfg, steps).locals[p].Pass?
    ensures j <= |steps|
    ensures After(cfg, steps).locals[p].seen == AttemptsOf(At(cfg, steps, j).db.attempts, After(cfg, steps).locals[p].run)
  {
    var n := |steps| - 1;
    assert steps != [];
    var before := After(cfg, steps[..n]);
    if steps[n].ReadRun? && steps[n].p == p {
      j := n;
    } else {
      assert p in before.locals && before.locals[p] == After(cfg, steps).locals[p];
      j := PassReadEarlier(cfg, steps[..n], p);
      assert steps[..n][..j] == steps[..j];
    }
  }

  ghost predicate StagedAndCompleted(db: Db, run: RunId) {
    run in db.runs && db.runs[run].mode == Live && db.runs[run].campaign.chain != Ethereum && db.runs[run].state == Completed
  }

  /** The step that completes a staged live run finds it recorded, and is a final pass. */
  lemma CompletingStep(cfg: Config, w: World, step: Step, run: RunId)
    requires !StagedAndCompleted(w.db, run)
    ensures StagedAndCompleted(Apply(cfg, w, step).db, run) ==> FinalPass(w, step, run)
  {
    if run in w.db.runs {
      StateStep(cfg, w, step, run);
      if StagedAndCompleted(Apply(cfg, w, step).db, run) { CompletionIsFinal(cfg, w, step, run); }
    } else if !step.Arm? {
      RunsOnlyArmed(cfg, w, step);
    }
  }

  lemma CompletedNow(cfg: Config, steps: seq<Step>, step: Step, run: RunId) returns (j: nat)
    requires var w := After(cfg, steps); StagedAndCompleted(Apply(cfg, w, step).db, run) && !StagedAndCompleted(w.db, run)
    ensures j <= |steps| && FinalPass(After(cfg, steps), step, run)
    ensures After(cfg, steps).locals[step.p].seen == AttemptsOf(At(cfg, steps, j).db.attempts, run)
  {
    CompletingStep(cfg, After(cfg, steps), step, run);
    j := PassReadEarlier(cfg, steps, step.p);
  }

  /**
   * A completed live run on Base or Robinhood owes its completion to a `final` pass: some earlier snapshot `j` was read,
   * and at step `k` every execution with an attempt in that snapshot had a receipt, all receipts being final.
   */
  lemma {:induction false} CompletedByFinalPass(cfg: Config, steps: seq<Step>, run: RunId) returns (j: nat, k: nat)
    requires StagedAndCompleted(After(cfg, steps).db, run)
    ensures j <= k < |steps| && FinalPass(At(cfg, steps, k), steps[k], run)
    ensures At(cfg, steps, k).locals[steps[k].p].seen == AttemptsOf(At(cfg, steps, j).db.attempts, run)
  {
    var n := |steps| - 1;
    assert steps != [];
    var before := After(cfg, steps[..n]);
    if StagedAndCompleted(before.db, run) {
      j, k := CompletedByFinalPass(cfg, steps[..n], run);
      assert steps[..n][..k] == steps[..k] && steps[..n][..j] == steps[..j];
    } else {
      k := n;
      j := CompletedNow(cfg, steps[..n], steps[n], run);
      assert steps[..n][..j] == steps[..j];
    }
  }
}
