/**
 * The money-and-lifecycle kernel as one step machine. Every process reads a snapshot, keeps it while it works, and later
 * runs one atomic transaction, so a step may act on a copy that other processes have made stale. A transaction that
 * throws leaves the tables unchanged.
 */
module Kernel {
  import opened Basics
  import opened Ledger
  import opened Coordinator

  type Proc = nat

  /** What a process holds between its snapshot and its transaction. */
  datatype Local =
    | Reading(run: RunId, copy: Run)
    | Admitted(run: RunId)
    | Pass(run: RunId, seen: seq<Attempt>)

  datatype World = World(db: Db, locals: map<Proc, Local>)

  datatype Step =
    | Tick(ms: nat)
    | Arm(run: RunId, campaign: Campaign, mode: Mode, wallets: seq<Address>)
    | StartExecute(p: Proc, run: RunId)
    | AdmitFleet(p: Proc, wallets: seq<Address>, enabled: bool)
    | RecordResult(p: Proc, result: ExecResult, killedSeen: bool)
    | ReadRun(p: Proc, run: RunId)
    | ApplyUpdate(p: Proc, update: Update)
    | EngageKill
    | ReleaseKill
    | StopAll
    | CloseRun(run: RunId)
    | FinishDryRun(run: RunId)
    | FailArmedRun(run: RunId)
    | EngineAttempt(attempt: Attempt)
    | EngineReceipt(receipt: Receipt)
    | EngineSettle(run: RunId, wallet: Address, actualWei: int)
    | EngineRelease(run: RunId, wallet: Address)

  function Initial(): World {
    World(Db(0, false, None, map[], {}, map[], [], [], [], []), map[])
  }

  predicate TermsAgree(cfg: Config, c: Campaign) {
    cfg.terms(c.id) == Terms(c.chain, c.priceWei, c.quantity)
  }

  function AttemptsOf(attempts: seq<Attempt>, run: RunId): seq<Attempt> {
    if attempts == [] then []
    else AttemptsOf(attempts[..|attempts| - 1], run) +
         if attempts[|attempts| - 1].exec.run == run then [attempts[|attempts| - 1]] else []
  }

  function Commit(w: World, r: Result<Db>): World {
    if r.Ok? then w.(db := r.value) else w
  }

  /** The admission step as a coordinator runs it: on the record it read, and only for a live run of exactly the armed fleet. */
  function AdmitStep(cfg: Config, w: World, p: Proc, wallets: seq<Address>, enabled: bool): Result<Db> {
    if p !in w.locals || !w.locals[p].Reading? then Err("NOTHING_READ")
    else
      var copy := w.locals[p].copy;
      if copy.mode != Live || |wallets| != |copy.wallets| then Err("EXECUTION_FLEET_MISMATCH")
      else Admit(cfg, w.db, w.locals[p].run, copy, wallets, enabled)
  }

  /** A process whose admission committed goes on to run the engine. */
  function Admitting(w: World, p: Proc, db: Db): World
    requires p in w.locals
  {
    World(db, w.locals[p := Admitted(w.locals[p].run)])
  }

  predicate MayStart(db: Db, run: RunId) {
    && !db.killed && run in db.runs && db.runs[run].state == Armed && run !in db.facts
    && AttemptsOf(db.attempts, run) == []
  }

  function SettleRows(db: Db, run: RunId, wallet: Address, actualWei: int): seq<Row> {
    seq(|db.rows|, i requires 0 <= i < |db.rows| =>
          if Keyed(db.rows[i], run, wallet) && MaySettle(db.rows[i], actualWei) then SettledRow(db.rows[i], actualWei, db.now) else db.rows[i])
  }

  function ReleaseRows(db: Db, run: RunId, wallet: Address): seq<Row> {
    seq(|db.rows|, i requires 0 <= i < |db.rows| => ReleaseIf(db.rows[i], Keyed(db.rows[i], run, wallet)))
  }

  function ApplyPass(w: World, p: Proc, u: Update): Result<Db> {
    if p in w.locals && w.locals[p].Pass? then Reconcile(w.db, w.locals[p].run, w.locals[p].seen, u) else Err("NOTHING_READ")
  }

  function ApplyResult(w: World, p: Proc, result: ExecResult, killedSeen: bool): Result<Db> {
    if p in w.locals && w.locals[p].Admitted? then RecordFacts(w.db, w.locals[p].run, result, killedSeen) else Err("NOTHING_READ")
  }

  function ChainOf(db: Db, e: ExecId): Option<Chain> {
    if e.run in db.runs then Some(db.runs[e.run].campaign.chain) else None
  }

  function Apply(cfg: Config, w: World, step: Step): World {
    var db := w.db;
    match step
    case Tick(ms) => w.(db := db.(now := db.now + ms))
    case Arm(run, c, mode, wallets) =>
      if run in db.runs || !TermsAgree(cfg, c) || (mode == Live && db.killed) then w
      else w.(db := db.(runs := db.runs[run := Run(c, mode, wallets, Armed)]))
    case StartExecute(p, run) =>
      if MayStart(db, run) then w.(locals := w.locals[p := Reading(run, db.runs[run])]) else w
    case AdmitFleet(p, wallets, enabled) =>
      var r := AdmitStep(cfg, w, p, wallets, enabled);
      if r.Ok? then Admitting(w, p, r.value) else w
    case RecordResult(p, result, killedSeen) => Commit(w, ApplyResult(w, p, result, killedSeen))
    case ReadRun(p, run) => w.(locals := w.locals[p := Pass(run, AttemptsOf(db.attempts, run))])
    case ApplyUpdate(p, u) => Commit(w, ApplyPass(w, p, u))
    case EngageKill => w.(db := db.(killed := true))
    case ReleaseKill => w.(db := db.(killed := false))
    case StopAll => w.(db := AbortRemaining(db))
    case CloseRun(run) => Commit(w, CloseUnsent(db, run))
    case FinishDryRun(run) =>
      if run in db.runs && db.runs[run].mode == DryRun && db.runs[run].state in {Armed, Active}
      then w.(db := db.(runs := WithState(db.runs, run, Completed))) else w
    case FailArmedRun(run) =>
      if run in db.runs && db.runs[run].state == Armed then w.(db := db.(runs := WithState(db.runs, run, RunFailed))) else w
    case EngineAttempt(a) => Commit(w, AddFacts(db, Ethereum, [a], []))
    case EngineReceipt(r) =>
      if ChainOf(db, r.exec).Some? && !r.state.Aborted? && !r.state.Prepared?
      then Commit(w, AddFacts(db, ChainOf(db, r.exec).value, [], [r])) else w
    case EngineSettle(run, wallet, actualWei) => w.(db := db.(rows := SettleRows(db, run, wallet, actualWei)))
    case EngineRelease(run, wallet) => w.(db := db.(rows := ReleaseRows(db, run, wallet)))
  }

  /** The world after a history of steps. */
  function After(cfg: Config, steps: seq<Step>): World {
    if steps == [] then Initial() else Apply(cfg, After(cfg, steps[..|steps| - 1]), steps[|steps| - 1])
  }

  // ---- What every step other than an admission does to the tables ----

  predicate RowEvolves(row: Row, row': Row, now: nat) {
    || row' == row
    || (row.status == Reserved && row' == row.(status := Released))
    || (row.status == Reserved && row'.settledWei.Some? && 0 <= row'.settledWei.value <= row.reservedWei &&
        row' == SettledRow(row, row'.settledWei.value, now))
  }

  predicate RowsEvolve(rows: seq<Row>, rows': seq<Row>, now: nat) {
    |rows'| == |rows| && forall i :: 0 <= i < |rows| ==> RowEvolves(rows[i], rows'[i], now)
  }

  predicate SameExecs(execs: map<ExecId, Execution>, execs': map<ExecId, Execution>) {
    execs'.Keys == execs.Keys && forall e :: e in execs ==> execs'[e].campaign == execs[e].campaign
  }

  predicate RunsKept(runs: map<RunId, Run>, runs': map<RunId, Run>) {
    runs.Keys <= runs'.Keys && forall r :: r in runs ==> runs'[r].(state := runs[r].state) == runs[r]
  }

  predicate Evolves(db: Db, db': Db) {
    && db.now <= db'.now
    && RowsEvolve(db.rows, db'.rows, db.now)
    && SameExecs(db.execs, db'.execs)
    && RunsKept(db.runs, db'.runs)
    && db.attempts <= db'.attempts && db.receipts <= db'.receipts
  }

  lemma {:induction false} MovesKeepExecs(execs: map<ExecId, Execution>, attempts: seq<Attempt>)
    ensures SameExecs(execs, MoveByAttempts(execs, attempts))
    decreases |attempts|
  {
    if attempts != [] {
      var a := attempts[0];
      MovesKeepExecs(if a.replacement then execs else MoveExec(execs, a.exec, if a.state == Pending then Submitted else a.state), attempts[1..]);
    }
  }

  lemma {:induction false} ReceiptMovesKeepExecs(execs: map<ExecId, Execution>, receipts: seq<Receipt>)
    ensures SameExecs(execs, MoveByReceipts(execs, receipts))
    decreases |receipts|
  {
    if receipts != [] {
      var r := receipts[0];
      ReceiptMovesKeepExecs(MoveExec(execs, r.exec, if r.state == Pending then Submitted else r.state), receipts[1..]);
    }
  }

  lemma AddFactsEvolves(db: Db, chain: Chain, attempts: seq<Attempt>, receipts: seq<Receipt>)
    requires AddFacts(db, chain, attempts, receipts).Ok?
    ensures Evolves(db, AddFacts(db, chain, attempts, receipts).value)
    ensures var next := AddFacts(db, chain, attempts, receipts).value;
            next.rows == db.rows && next.runs == db.runs && next.now == db.now && next.killed == db.killed && next.log == db.log
  {
    MovesKeepExecs(db.execs, FreshAttempts(db.attempts, attempts));
    ReceiptMovesKeepExecs(MoveByAttempts(db.execs, FreshAttempts(db.attempts, attempts)), FreshReceipts(chain, db.receipts, receipts));
  }

  lemma ReconcileEvolves(db: Db, run: RunId, seen: seq<Attempt>, u: Update)
    requires Reconcile(db, run, seen, u).Ok?
    ensures Evolves(db, Reconcile(db, run, seen, u).value)
  {
    AddFactsEvolves(db, db.runs[run].campaign.chain, u.attempts, u.receipts);
  }

  lemma RecordEvolves(db: Db, run: RunId, result: ExecResult, killedSeen: bool)
    requires RecordFacts(db, run, result, killedSeen).Ok?
    ensures Evolves(db, RecordFacts(db, run, result, killedSeen).value)
  {
    AddFactsEvolves(db, db.runs[run].campaign.chain, result.attempts, result.receipts);
  }

  lemma StopAllEvolves(db: Db)
    ensures Evolves(db, AbortRemaining(db))
  {
  }

  lemma CloseEvolves(db: Db, run: RunId)
    requires CloseUnsent(db, run).Ok?
    ensures Evolves(db, CloseUnsent(db, run).value)
  {
  }

  lemma EngineMoneyEvolves(db: Db, run: RunId, wallet: Address, actualWei: int)
    ensures Evolves(db, db.(rows := SettleRows(db, run, wallet, actualWei)))
    ensures Evolves(db, db.(rows := ReleaseRows(db, run, wallet)))
  {
  }

  predicate ReportsFacts(step: Step) {
    step.RecordResult? || step.ApplyUpdate? || step.EngineAttempt? || step.EngineReceipt?
  }

  lemma FactStepEvolves(cfg: Config, w: World, step: Step)
    requires ReportsFacts(step)
    ensures Evolves(w.db, Apply(cfg, w, step).db)
  {
    match step
    case RecordResult(p, result, killedSeen) =>
      if ApplyResult(w, p, result, killedSeen).Ok? { RecordEvolves(w.db, w.locals[p].run, result, killedSeen); }
    case ApplyUpdate(p, u) =>
      if ApplyPass(w, p, u).Ok? { ReconcileEvolves(w.db, w.locals[p].run, w.locals[p].seen, u); }
    case EngineAttempt(a) => if AddFacts(w.db, Ethereum, [a], []).Ok? { AddFactsEvolves(w.db, Ethereum, [a], []); }
    case EngineReceipt(r) =>
      var chain := ChainOf(w.db, r.exec);
      if chain.Some? && AddFacts(w.db, chain.value, [], [r]).Ok? { AddFactsEvolves(w.db, chain.value, [], [r]); }
  }

  /** Every step that is not a successful admission only appends facts and moves reserved rows to an end state. */
  lemma StepEvolves(cfg: Config, w: World, step: Step)
    requires step.AdmitFleet? ==> AdmitStep(cfg, w, step.p, step.wallets, step.enabled).Err?
    ensures Evolves(w.db, Apply(cfg, w, step).db)
  {
    if ReportsFacts(step) {
      FactStepEvolves(cfg, w, step);
    } else {
      match step
      case StopAll => StopAllEvolves(w.db);
      case CloseRun(run) => if CloseUnsent(w.db, run).Ok? { CloseEvolves(w.db, run); }
      case EngineSettle(run, wallet, actualWei) => EngineMoneyEvolves(w.db, run, wallet, actualWei);
      case EngineRelease(run, wallet) => EngineMoneyEvolves(w.db, run, wallet, 0);
      case _ =>
    }
  }

  // ---- What an admission does to the tables ----

  /** The rows one admission appends: reserved now for this run and campaign, one per newly admitted wallet, nothing settled. */
  predicate FreshRow(row: Row, db: Db, run: RunId, c: Campaign, wallets: seq<Address>)
    requires Exposure(c) > 0
  {
    && row.run == run && row.wallet in wallets && row.campaign == c.id && row.chain == c.chain
    && row.status == Reserved && row.createdAt == db.now && row.settledWei == None && row.settledAt == None
    && row.reservedWei == row.amountWei == Exposure(c) && row.mintValueWei == Some(MintValue(c))
  }

  predicate Appends(db: Db, db': Db, run: RunId, c: Campaign, wallets: seq<Address>)
    requires Exposure(c) > 0
  {
    && db'.(rows := db.rows, execs := db.execs, runs := db.runs, watermark := db.watermark) == db
    && db.rows <= db'.rows && |db'.rows| <= |db.rows| + |wallets|
    && (forall i :: |db.rows| <= i < |db'.rows| ==> FreshRow(db'.rows[i], db, run, c, wallets))
    && (forall w :: w in wallets ==> HasRow(db'.rows, run, w))
    && (forall e :: e in db.execs ==> e in db'.execs && db'.execs[e] == db.execs[e])
  }

  lemma {:induction false} AdmitWalletsAppends(cfg: Config, p: Progress, run: RunId, c: Campaign, wallets: seq<Address>)
    requires Exposure(c) > 0
    requires AdmitWallets(cfg, p, run, c, wallets).Ok?
    ensures Appends(p.db, AdmitWallets(cfg, p, run, c, wallets).value.db, run, c, wallets)
    ensures AdmitWallets(cfg, p, run, c, wallets).value.db.runs == p.db.runs
    decreases |wallets|
  {
    if wallets != [] {
      var one := AdmitWallet(cfg, p, run, c, wallets[0]).value;
      var last := AdmitWallets(cfg, p, run, c, wallets).value;
      AdmitWalletsAppends(cfg, one, run, c, wallets[1..]);
      assert HasRow(one.db.rows, run, wallets[0]) by {
        if !HasRow(p.db.rows, run, wallets[0]) {
          assert Keyed(one.db.rows[|p.db.rows|], run, wallets[0]);
        }
      }
      var k :| 0 <= k < |one.db.rows| && Keyed(one.db.rows[k], run, wallets[0]);
      assert last.db.rows[k] == one.db.rows[k];
      forall i | |p.db.rows| <= i < |last.db.rows| ensures FreshRow(last.db.rows[i], p.db, run, c, wallets) {
        if i < |one.db.rows| {
          assert last.db.rows[i] == one.db.rows[i];
        } else {
          assert FreshRow(last.db.rows[i], one.db, run, c, wallets[1..]);
        }
      }
    }
  }
}
