/** Reconciling the same facts again after anything else may have happened in between. */
module Repeats {
  import opened Basics
  import opened Ledger
  import opened Coordinator
  import opened Kernel
  import opened Safety
  import opened Results
  import opened Settlement
  import opened Reruns

  /** Step `k` of the history is a pass over `run` that reports `u`, and it commits. */
  ghost predicate Reports(cfg: Config, steps: seq<Step>, k: nat, run: RunId, u: Update) {
    && k < |steps| && steps[k].ApplyUpdate? && steps[k].update == u
    && steps[k].p in At(cfg, steps, k).locals && At(cfg, steps, k).locals[steps[k].p].Pass?
    && At(cfg, steps, k).locals[steps[k].p].run == run && ApplyPass(At(cfg, steps, k), steps[k].p, u).Ok?
  }

  lemma ReportEffect(cfg: Config, steps: seq<Step>, k: nat, run: RunId, u: Update)
    requires Reports(cfg, steps, k, run, u)
    ensures var db := At(cfg, steps, k).db;
            && run in db.runs && k + 1 <= |steps|
            && Reconcile(db, run, At(cfg, steps, k).locals[steps[k].p].seen, u) == Ok(At(cfg, steps, k + 1).db)
  {
    AtStep(cfg, steps, k);
  }

  // ---- Facts stay known ----

  lemma FactsGrow(cfg: Config, w: World, step: Step)
    ensures w.db.attempts <= Apply(cfg, w, step).db.attempts && w.db.receipts <= Apply(cfg, w, step).db.receipts
  {
    if step.AdmitFleet? && AdmitStep(cfg, w, step.p, step.wallets, step.enabled).Ok? {
      AdmitShape(cfg, w.db, w.locals[step.p].run, w.locals[step.p].copy, step.wallets, step.enabled);
    } else {
      StepEvolves(cfg, w, step);
    }
  }

  ghost predicate AllKnown(db: Db, u: Update) {
    && (forall i :: 0 <= i < |u.attempts| ==> KnownAttempt(db.attempts, u.attempts[i].id))
    && (forall i :: 0 <= i < |u.receipts| ==> KnownReceipt(db.receipts, u.receipts[i].id))
  }

  lemma KnownStays(db: Db, db': Db, u: Update)
    requires AllKnown(db, u) && db.attempts <= db'.attempts && db.receipts <= db'.receipts
    ensures AllKnown(db', u)
  {
    forall i | 0 <= i < |u.attempts| ensures KnownAttempt(db'.attempts, u.attempts[i].id) {
      var k :| 0 <= k < |db.attempts| && db.attempts[k].id == u.attempts[i].id;
      assert db'.attempts[k] == db.attempts[k];
    }
    forall i | 0 <= i < |u.receipts| ensures KnownReceipt(db'.receipts, u.receipts[i].id) {
      var k :| 0 <= k < |db.receipts| && db.receipts[k].id == u.receipts[i].id;
      assert db'.receipts[k] == db.receipts[k];
    }
  }

  lemma KnownStep(cfg: Config, steps: seq<Step>, k: nat, u: Update)
    requires k < |steps| && AllKnown(At(cfg, steps, k).db, u)
    ensures AllKnown(At(cfg, steps, k + 1).db, u)
  {
    AtStep(cfg, steps, k);
    FactsGrow(cfg, At(cfg, steps, k), steps[k]);
    KnownStays(At(cfg, steps, k).db, At(cfg, steps, k + 1).db, u);
  }

  lemma {:induction false} KnownEverAfter(cfg: Config, steps: seq<Step>, j: nat, k: nat, u: Update)
    requires j <= k <= |steps| && AllKnown(At(cfg, steps, j).db, u)
    ensures AllKnown(At(cfg, steps, k).db, u)
    decreases k
  {
    if j < k {
      KnownEverAfter(cfg, steps, j, k - 1, u);
      KnownStep(cfg, steps, k - 1, u);
    }
  }

  /** A committed report leaves all its facts known. */
  lemma ReportIsKnown(db: Db, run: RunId, seen: seq<Attempt>, u: Update)
    requires Reconcile(db, run, seen, u).Ok?
    ensures AllKnown(Reconcile(db, run, seen, u).value, u)
  {
    var chain := db.runs[run].campaign.chain;
    var db' := Reconcile(db, run, seen, u).value;
    forall i | 0 <= i < |u.attempts| ensures KnownAttempt(db'.attempts, u.attempts[i].id) {
      AttemptsBecomeKnown(db.attempts, db'.attempts, u.attempts, i);
    }
    forall i | 0 <= i < |u.receipts| ensures KnownReceipt(db'.receipts, u.receipts[i].id) {
      ReceiptsBecomeKnown(chain, db.receipts, db'.receipts, u.receipts, i);
    }
  }

  // ---- Reservations stay accounted ----

  /** A row accounted once and continued since is not moved by the same facts again. */
  lemma RowOnce(now: nat, later: nat, chain: Chain, u: Update, run: RunId, row: Row, row': Row)
    requires !BadAmount(chain, u.attempts, u.receipts, run, row)
    requires Continues(AccountedRow(now, chain, u.attempts, u.receipts, run, row), row')
    requires !BadAmount(chain, u.attempts, u.receipts, run, row')
    ensures AccountedRow(later, chain, u.attempts, u.receipts, run, row') == row'
  {
  }

  lemma ReconcileRow(db: Db, run: RunId, seen: seq<Attempt>, u: Update, i: nat)
    requires Reconcile(db, run, seen, u).Ok? && i < |db.rows|
    ensures var chain := db.runs[run].campaign.chain;
            var rows := Reconcile(db, run, seen, u).value.rows;
            && !BadAmount(chain, u.attempts, u.receipts, run, db.rows[i]) && |rows| == |db.rows|
            && rows[i] == AccountedRow(db.now, chain, u.attempts, u.receipts, run, db.rows[i])
  {
  }

  lemma SameChain(cfg: Config, steps: seq<Step>, j: nat, k: nat, run: RunId)
    requires j <= k <= |steps| && run in At(cfg, steps, j).db.runs
    ensures run in At(cfg, steps, k).db.runs
    ensures At(cfg, steps, k).db.runs[run].campaign == At(cfg, steps, j).db.runs[run].campaign
  {
    RunStays(cfg, steps, j, k, run);
  }

  lemma RowReportedTwice(cfg: Config, steps: seq<Step>, j: nat, k: nat, run: RunId, u: Update, i: nat)
    requires j < k && Reports(cfg, steps, j, run, u) && Reports(cfg, steps, k, run, u) && i < |At(cfg, steps, j).db.rows|
    ensures i < |At(cfg, steps, k).db.rows| == |At(cfg, steps, k + 1).db.rows|
    ensures At(cfg, steps, k + 1).db.rows[i] == At(cfg, steps, k).db.rows[i]
  {
    var first, last := At(cfg, steps, j).db, At(cfg, steps, k).db;
    ReportEffect(cfg, steps, j, run, u);
    ReportEffect(cfg, steps, k, run, u);
    ReconcileRow(first, run, At(cfg, steps, j).locals[steps[j].p].seen, u, i);
    RowsContinue(cfg, steps, j + 1, k, i);
    ReconcileRow(last, run, At(cfg, steps, k).locals[steps[k].p].seen, u, i);
    SameChain(cfg, steps, j, k, run);
    RowOnce(first.now, last.now, first.runs[run].campaign.chain, u, run, first.rows[i], last.rows[i]);
  }

  // ---- The run stays where the first pass put it, or below ----

  ghost predicate Settles(s: RunState, chain: Chain, outcome: Outcome) {
    ReconciledState(s, chain, outcome) == s
  }

  lemma SettlesDown(s: RunState, s': RunState, chain: Chain, outcome: Outcome)
    requires Settles(s, chain, outcome) && Down(s, s')
    ensures Settles(s', chain, outcome)
  {
  }

  lemma {:induction false} SettlesAlong(f: nat -> RunState, j: nat, k: nat, chain: Chain, outcome: Outcome)
    requires j <= k && Settles(f(j), chain, outcome) && forall m :: j <= m < k ==> DownAt(f, m)
    ensures Settles(f(k), chain, outcome)
    decreases k
  {
    if j < k {
      SettlesAlong(f, j, k - 1, chain, outcome);
      assert DownAt(f, k - 1);
      SettlesDown(f(k - 1), f(k), chain, outcome);
    }
  }

  lemma ReportMoves(cfg: Config, steps: seq<Step>, k: nat, run: RunId, u: Update)
    requires Reports(cfg, steps, k, run, u)
    ensures run in At(cfg, steps, k).db.runs
    ensures var h := History(cfg, steps, run); h(k + 1) == ReconciledState(h(k), At(cfg, steps, k).db.runs[run].campaign.chain, u.outcome)
  {
    ReportEffect(cfg, steps, k, run, u);
  }

  lemma StateReportedTwice(cfg: Config, steps: seq<Step>, j: nat, k: nat, run: RunId, u: Update)
    requires ValidConfig(cfg) && j < k && Reports(cfg, steps, j, run, u) && Reports(cfg, steps, k, run, u)
    requires forall m :: j < m < k ==> !Revives(cfg, At(cfg, steps, m), steps[m], run)
    ensures History(cfg, steps, run)(k + 1) == History(cfg, steps, run)(k)
  {
    var h := History(cfg, steps, run);
    ReportMoves(cfg, steps, j, run, u);
    ReportMoves(cfg, steps, k, run, u);
    SameChain(cfg, steps, j, k, run);
    SameChain(cfg, steps, j, j + 1, run);
    var chain := At(cfg, steps, j).db.runs[run].campaign.chain;
    BoundedRuns(cfg, steps, j + 1, k, run);
    SettlesAlong(h, j + 1, k, chain, u.outcome);
  }

  /** What a committed pass leaves alone when all it reports is known: every fact, every execution, everything but the run. */
  lemma KnownReport(db: Db, run: RunId, seen: seq<Attempt>, u: Update)
    requires Reconcile(db, run, seen, u).Ok? && AllKnown(db, u)
    ensures var db' := Reconcile(db, run, seen, u).value;
            && db'.attempts == db.attempts && db'.receipts == db.receipts && db'.execs == db.execs && db'.facts == db.facts
            && db'.log == db.log + [LogEntry(run, u.outcome, db.now)] && |db'.rows| == |db.rows|
  {
    FactsKnown(db, db.runs[run].campaign.chain, u.attempts, u.receipts);
  }

  lemma FactsReportedTwice(cfg: Config, steps: seq<Step>, j: nat, k: nat, run: RunId, u: Update)
    requires j < k && Reports(cfg, steps, j, run, u) && Reports(cfg, steps, k, run, u)
    ensures var db, db' := At(cfg, steps, k).db, At(cfg, steps, k + 1).db;
            && db'.attempts == db.attempts && db'.receipts == db.receipts && db'.execs == db.execs && db'.facts == db.facts
            && db'.log == db.log + [LogEntry(run, u.outcome, db.now)] && |db'.rows| == |db.rows|
  {
    ReportEffect(cfg, steps, j, run, u);
    ReportEffect(cfg, steps, k, run, u);
    ReportIsKnown(At(cfg, steps, j).db, run, At(cfg, steps, j).locals[steps[j].p].seen, u);
    KnownEverAfter(cfg, steps, j + 1, k, u);
    KnownReport(At(cfg, steps, k).db, run, At(cfg, steps, k).locals[steps[k].p].seen, u);
  }

  /**
   * The same update reported again, after any steps of any processes: no attempt, receipt or execution changes, no
   * reservation the first pass found changes, and the run stays where it is unless it was revived in between.
   */
  lemma ReportedTwice(cfg: Config, steps: seq<Step>, j: nat, k: nat, run: RunId, u: Update)
    requires ValidConfig(cfg) && j < k && Reports(cfg, steps, j, run, u) && Reports(cfg, steps, k, run, u)
    ensures var db, db' := At(cfg, steps, k).db, At(cfg, steps, k + 1).db;
            && db'.attempts == db.attempts && db'.receipts == db.receipts && db'.execs == db.execs && db'.facts == db.facts
            && db'.log == db.log + [LogEntry(run, u.outcome, db.now)]
            && |At(cfg, steps, j).db.rows| <= |db.rows| == |db'.rows|
            && (forall i :: 0 <= i < |At(cfg, steps, j).db.rows| ==> db'.rows[i] == db.rows[i])
    ensures (forall m :: j < m < k ==> !Revives(cfg, At(cfg, steps, m), steps[m], run)) ==>
              History(cfg, steps, run)(k + 1) == History(cfg, steps, run)(k)
  {
    FactsReportedTwice(cfg, steps, j, k, run, u);
    RowsOnlyGrow(cfg, steps, j, k);
    forall i | 0 <= i < |At(cfg, steps, j).db.rows| ensures At(cfg, steps, k + 1).db.rows[i] == At(cfg, steps, k).db.rows[i] {
      RowReportedTwice(cfg, steps, j, k, run, u, i);
    }
    if forall m :: j < m < k ==> !Revives(cfg, At(cfg, steps, m), steps[m], run) {
      StateReportedTwice(cfg, steps, j, k, run, u);
    }
  }

  lemma RowsOnlyGrow(cfg: Config, steps: seq<Step>, j: nat, k: nat)
    requires j <= k <= |steps|
    ensures |At(cfg, steps, j).db.rows| <= |At(cfg, steps, k).db.rows|
  {
    var n := |At(cfg, steps, j).db.rows|;
    if n > 0 { RowsContinue(cfg, steps, j, k, n - 1); }
  }
}
