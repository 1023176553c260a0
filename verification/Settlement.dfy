/** Settlement evidence, and what reconciling the same facts again does. */
module Settlement {
  import opened Basics
  import opened Ledger
  import opened Coordinator
  import opened Kernel
  import opened Safety
  import opened Results

  // ---- Every settlement is backed by a stored receipt ----

  /** A stored receipt of the execution authorizes a settlement of exactly this amount. */
  ghost predicate HasAuthority(receipts: seq<Receipt>, chain: Chain, e: ExecId, amount: int) {
    exists k :: 0 <= k < |receipts| && receipts[k].exec == e && Authorizes(chain, receipts[k]) && receipts[k].actualWei == amount
  }

  ghost predicate Backed(db: Db, row: Row) {
    row.status == Settled && row.chain != Ethereum ==>
      row.settledWei.Some? && HasAuthority(db.receipts, row.chain, ExecId(row.run, row.wallet), row.settledWei.value)
  }

  /** A receipt id reported again carries the content already stored under it. */
  ghost predicate SameContent(stored: seq<Receipt>, chain: Chain, reported: seq<Receipt>) {
    forall i, k :: 0 <= i < |stored| && 0 <= k < |reported| && stored[i].id == reported[k].id ==> stored[i] == Stored(chain, reported[k])
  }

  /** A coordinator step: no settlement outside a pass or an execution result, and no receipt id with two contents. */
  ghost predicate Faithful(w: World, step: Step) {
    match step
    case ApplyUpdate(p, u) =>
      ApplyPass(w, p, u).Ok? ==> SameContent(w.db.receipts, w.db.runs[w.locals[p].run].campaign.chain, u.receipts)
    case RecordResult(p, r, killedSeen) =>
      ApplyResult(w, p, r, killedSeen).Ok? ==> SameContent(w.db.receipts, w.db.runs[w.locals[p].run].campaign.chain, r.receipts)
    case EngineSettle(_, _, _) => false
    case _ => true
  }

  lemma {:induction false} ReportedIsStored(chain: Chain, known: seq<Receipt>, news: seq<Receipt>, k: nat)
    requires k < |news| && SameContent(known, chain, news)
    ensures Stored(chain, news[k]) in known + FreshReceipts(chain, known, news)
    decreases |news|
  {
    if k > 0 {
      assert forall m :: 0 <= m < |news[1..]| ==> news[1..][m] == news[m + 1];
      ReportedIsStored(chain, known, news[1..], k - 1);
    } else if KnownReceipt(known, news[0].id) {
      var i :| 0 <= i < |known| && known[i].id == news[0].id;
      assert known[i] == Stored(chain, news[0]);
    }
  }

  /** If accounting settles a row on a staged chain, the receipt that justified it is stored in the same transaction. */
  lemma SettlingStores(chain: Chain, known: seq<Receipt>, attempts: seq<Attempt>, receipts: seq<Receipt>, e: ExecId)
    requires chain != Ethereum && SameContent(known, chain, receipts)
    requires forall k :: 0 <= k < |receipts| ==> ReceiptFactOk(chain, receipts[k], true)
    requires VerdictFor(chain, attempts, receipts, e).Settle?
    ensures HasAuthority(known + FreshReceipts(chain, known, receipts), chain, e, VerdictFor(chain, attempts, receipts, e).actualWei)
  {
    var confirmed := FirstReceipt(chain, receipts, e, Confirmed);
    var failed := FirstReceipt(chain, receipts, e, Failed);
    var r := if ReportsConfirmed(attempts, e) && confirmed.Some? then confirmed.value else failed.value;
    var k :| 0 <= k < |receipts| && receipts[k] == r;
    ReportedIsStored(chain, known, receipts, k);
    StoredAuthorizes(chain, r);
    var all := known + FreshReceipts(chain, known, receipts);
    var m :| 0 <= m < |all| && all[m] == Stored(chain, r);
    assert all[m].exec == e && Authorizes(chain, all[m]);
  }

  lemma AuthorityStays(receipts: seq<Receipt>, receipts': seq<Receipt>, chain: Chain, e: ExecId, amount: int)
    requires receipts <= receipts' && HasAuthority(receipts, chain, e, amount)
    ensures HasAuthority(receipts', chain, e, amount)
  {
    var k :| 0 <= k < |receipts| && receipts[k].exec == e && Authorizes(chain, receipts[k]) && receipts[k].actualWei == amount;
    assert receipts'[k] == receipts[k];
  }

  lemma UpdateBacked(w: World, p: Proc, u: Update, i: nat)
    requires Shape(w.db) && ApplyPass(w, p, u).Ok? && i < |w.db.rows| && Backed(w.db, w.db.rows[i])
    requires w.locals[p].run in w.db.runs && SameContent(w.db.receipts, w.db.runs[w.locals[p].run].campaign.chain, u.receipts)
    ensures var db' := ApplyPass(w, p, u).value; i < |db'.rows| && Backed(db', db'.rows[i])
  {
    var row := w.db.rows[i];
    var chain := w.db.runs[w.locals[p].run].campaign.chain;
    var e := ExecId(row.run, row.wallet);
    PassRows(w, p, u, i);
    assert RowOk(w.db, row);
    var db' := ApplyPass(w, p, u).value;
    assert db'.receipts == w.db.receipts + FreshReceipts(chain, w.db.receipts, u.receipts);
    if row.status == Settled && row.chain != Ethereum {
      AuthorityStays(w.db.receipts, db'.receipts, row.chain, e, row.settledWei.value);
    } else if db'.rows[i].status == Settled && row.chain != Ethereum {
      SettlingStores(chain, w.db.receipts, u.attempts, u.receipts, e);
    }
  }

  lemma ResultBacked(w: World, p: Proc, r: ExecResult, killedSeen: bool, i: nat)
    requires Shape(w.db) && ApplyResult(w, p, r, killedSeen).Ok? && i < |w.db.rows| && Backed(w.db, w.db.rows[i])
    requires w.locals[p].run in w.db.runs && SameContent(w.db.receipts, w.db.runs[w.locals[p].run].campaign.chain, r.receipts)
    ensures var db' := ApplyResult(w, p, r, killedSeen).value; i < |db'.rows| && Backed(db', db'.rows[i])
  {
    var row := w.db.rows[i];
    var chain := w.db.runs[w.locals[p].run].campaign.chain;
    var e := ExecId(row.run, row.wallet);
    ResultRows(w, p, r, killedSeen, i);
    assert RowOk(w.db, row);
    var db' := ApplyResult(w, p, r, killedSeen).value;
    assert db'.receipts == w.db.receipts + FreshReceipts(chain, w.db.receipts, r.receipts);
    if row.status == Settled && row.chain != Ethereum {
      AuthorityStays(w.db.receipts, db'.receipts, row.chain, e, row.settledWei.value);
    } else if db'.rows[i].status == Settled && row.chain != Ethereum {
      SettlingStores(chain, w.db.receipts, r.attempts, r.receipts, e);
    }
  }

  /** Steps that settle nothing keep every settled row backed. */
  lemma OtherBacked(cfg: Config, w: World, step: Step, i: nat)
    requires i < |w.db.rows| && Backed(w.db, w.db.rows[i])
    requires !step.ApplyUpdate? && !step.RecordResult? && !step.EngineSettle?
    ensures var db' := Apply(cfg, w, step).db; i < |db'.rows| && Backed(db', db'.rows[i])
  {
    var db' := Apply(cfg, w, step).db;
    var row := w.db.rows[i];
    RowContinues(cfg, w, step, i);
    if Quiet(step) { QuietRows(cfg, w, step, i); }
    if row.status == Settled && row.chain != Ethereum {
      if step.AdmitFleet? && AdmitStep(cfg, w, step.p, step.wallets, step.enabled).Ok? {
        AdmitShape(cfg, w.db, w.locals[step.p].run, w.locals[step.p].copy, step.wallets, step.enabled);
      } else {
        StepEvolves(cfg, w, step);
      }
      AuthorityStays(w.db.receipts, db'.receipts, row.chain, ExecId(row.run, row.wallet), row.settledWei.value);
    }
  }

  lemma BackedStep(cfg: Config, w: World, step: Step, i: nat)
    requires Shape(w.db) && Faithful(w, step) && i < |w.db.rows| && Backed(w.db, w.db.rows[i])
    ensures var db' := Apply(cfg, w, step).db; i < |db'.rows| && Backed(db', db'.rows[i])
  {
    if step.ApplyUpdate? {
      if ApplyPass(w, step.p, step.update).Ok? { UpdateBacked(w, step.p, step.update, i); }
    } else if step.RecordResult? {
      if ApplyResult(w, step.p, step.result, step.killedSeen).Ok? { ResultBacked(w, step.p, step.result, step.killedSeen, i); }
    } else {
      OtherBacked(cfg, w, step, i);
    }
  }

  /** Rows appear reserved, so a row that is new in this step is backed. */
  lemma NewRowsReserved(cfg: Config, w: World, step: Step, i: nat)
    requires |w.db.rows| <= i
    ensures i < |Apply(cfg, w, step).db.rows| ==> Apply(cfg, w, step).db.rows[i].status == Reserved
  {
    if step.AdmitFleet? && AdmitStep(cfg, w, step.p, step.wallets, step.enabled).Ok? {
      var run, copy := w.locals[step.p].run, w.locals[step.p].copy;
      AdmitShape(cfg, w.db, run, copy, step.wallets, step.enabled);
      var rows := AdmitStep(cfg, w, step.p, step.wallets, step.enabled).value.rows;
      assert i < |rows| ==> FreshRow(rows[i], w.db, run, copy.campaign, step.wallets);
    } else {
      StepEvolves(cfg, w, step);
    }
  }

  /**
   * Over every coordinator history, a settled reservation on Base or Robinhood has a stored receipt of its own wallet's
   * execution that authorizes a settlement, of exactly the settled amount.
   */
  lemma {:induction false} SettlementsBacked(cfg: Config, steps: seq<Step>, k: nat, i: nat)
    requires ValidConfig(cfg) && k <= |steps| && i < |At(cfg, steps, k).db.rows|
    requires forall m :: 0 <= m < k ==> Faithful(At(cfg, steps, m), steps[m])
    ensures Backed(At(cfg, steps, k).db, At(cfg, steps, k).db.rows[i])
    decreases k
  {
    if k > 0 {
      var w := At(cfg, steps, k - 1);
      AtStep(cfg, steps, k - 1);
      if i < |w.db.rows| {
        SettlementsBacked(cfg, steps, k - 1, i);
        Always(cfg, steps[..k - 1]);
        BackedStep(cfg, w, steps[k - 1], i);
      } else {
        NewRowsReserved(cfg, w, steps[k - 1], i);
      }
    }
  }

  // ---- Reconciling the same facts again ----

  lemma {:induction false} NothingFresh(known: seq<Attempt>, news: seq<Attempt>)
    requires forall i :: 0 <= i < |news| ==> KnownAttempt(known, news[i].id)
    ensures FreshAttempts(known, news) == []
  {
    if news != [] {
      forall i | 0 <= i < |news[1..]| ensures KnownAttempt(known, news[1..][i].id) { assert KnownAttempt(known, news[i + 1].id); }
      NothingFresh(known, news[1..]);
    }
  }

  lemma {:induction false} NoFreshReceipts(chain: Chain, known: seq<Receipt>, news: seq<Receipt>)
    requires forall i :: 0 <= i < |news| ==> KnownReceipt(known, news[i].id)
    ensures FreshReceipts(chain, known, news) == []
  {
    if news != [] {
      forall i | 0 <= i < |news[1..]| ensures KnownReceipt(known, news[1..][i].id) { assert KnownReceipt(known, news[i + 1].id); }
      NoFreshReceipts(chain, known, news[1..]);
    }
  }

  lemma {:induction false} AttemptsBecomeKnown(known: seq<Attempt>, all: seq<Attempt>, news: seq<Attempt>, i: nat)
    requires i < |news| && known <= all && forall a :: a in FreshAttempts(known, news) ==> a in all
    ensures KnownAttempt(all, news[i].id)
    decreases |news|
  {
    if i > 0 {
      AttemptsBecomeKnown(known, all, news[1..], i - 1);
    } else if KnownAttempt(known, news[0].id) {
      var k :| 0 <= k < |known| && known[k].id == news[0].id;
      assert all[k].id == news[0].id;
    } else {
      assert news[0] in FreshAttempts(known, news);
    }
  }

  lemma {:induction false} ReceiptsBecomeKnown(chain: Chain, known: seq<Receipt>, all: seq<Receipt>, news: seq<Receipt>, i: nat)
    requires i < |news| && known <= all && forall r :: r in FreshReceipts(chain, known, news) ==> r in all
    ensures KnownReceipt(all, news[i].id)
    decreases |news|
  {
    if i > 0 {
      ReceiptsBecomeKnown(chain, known, all, news[1..], i - 1);
    } else if KnownReceipt(known, news[0].id) {
      var k :| 0 <= k < |known| && known[k].id == news[0].id;
      assert all[k].id == news[0].id;
    } else {
      assert Stored(chain, news[0]) in FreshReceipts(chain, known, news);
    }
  }

  /** Facts already added are not added again, and move no execution. */
  lemma FactsTwice(db: Db, db': Db, chain: Chain, attempts: seq<Attempt>, receipts: seq<Receipt>)
    requires db'.attempts == db.attempts + FreshAttempts(db.attempts, attempts)
    requires db'.receipts == db.receipts + FreshReceipts(chain, db.receipts, receipts)
    ensures AddFacts(db', chain, attempts, receipts) == Ok(db')
  {
    forall i | 0 <= i < |attempts| ensures KnownAttempt(db'.attempts, attempts[i].id) {
      AttemptsBecomeKnown(db.attempts, db'.attempts, attempts, i);
    }
    forall i | 0 <= i < |receipts| ensures KnownReceipt(db'.receipts, receipts[i].id) {
      ReceiptsBecomeKnown(chain, db.receipts, db'.receipts, receipts, i);
    }
    FactsKnown(db', chain, attempts, receipts);
  }

  /** Facts whose ids are all stored add nothing, however they came to be stored. */
  lemma FactsKnown(db: Db, chain: Chain, attempts: seq<Attempt>, receipts: seq<Receipt>)
    requires forall i :: 0 <= i < |attempts| ==> KnownAttempt(db.attempts, attempts[i].id)
    requires forall i :: 0 <= i < |receipts| ==> KnownReceipt(db.receipts, receipts[i].id)
    ensures AddFacts(db, chain, attempts, receipts) == Ok(db)
  {
    NothingFresh(db.attempts, attempts);
    NoFreshReceipts(chain, db.receipts, receipts);
    assert db.attempts + [] == db.attempts && db.receipts + [] == db.receipts;
  }

  /** Accounting the same facts again moves no reservation. */
  lemma AccountedTwice(rows: seq<Row>, now: nat, later: nat, chain: Chain, attempts: seq<Attempt>, receipts: seq<Receipt>, run: RunId)
    requires !AnyBadAmount(chain, attempts, receipts, run, rows)
    ensures var once := AccountedRows(now, chain, attempts, receipts, run, rows);
            !AnyBadAmount(chain, attempts, receipts, run, once) && AccountedRows(later, chain, attempts, receipts, run, once) == once
  {
    var once := AccountedRows(now, chain, attempts, receipts, run, rows);
    forall i | 0 <= i < |once|
      ensures !BadAmount(chain, attempts, receipts, run, once[i])
      ensures AccountedRow(later, chain, attempts, receipts, run, once[i]) == once[i]
    {
      assert !BadAmount(chain, attempts, receipts, run, rows[i]);
    }
  }

  /**
   * Reconciling the same update a second time, however much later and from whatever snapshot, is either refused or adds
   * one log entry: attempts, receipts, executions, reservations and the run stay as the first pass left them.
   */
  lemma ReconcileTwice(db: Db, run: RunId, seen: seq<Attempt>, u: Update, ms: nat, seen': seq<Attempt>)
    requires Reconcile(db, run, seen, u).Ok?
    ensures var once := Reconcile(db, run, seen, u).value.(now := db.now + ms);
            var twice := Reconcile(once, run, seen', u);
            && (twice.Ok? ==> twice.value == once.(log := once.log + [LogEntry(run, u.outcome, once.now)]))
            && (twice.Ok? <==> Coherent(db.runs[run].campaign.chain, seen', u))
  {
    var chain := db.runs[run].campaign.chain;
    var first := Reconcile(db, run, seen, u).value;
    var once := first.(now := db.now + ms);
    AddFactsEvolves(db, chain, u.attempts, u.receipts);
    FactsTwice(db, once, chain, u.attempts, u.receipts);
    AccountedTwice(db.rows, db.now, once.now, chain, u.attempts, u.receipts, run);
    var s := db.runs[run].state;
    assert ReconciledState(ReconciledState(s, chain, u.outcome), chain, u.outcome) == ReconciledState(s, chain, u.outcome);
    assert WithState(once.runs, run, ReconciledState(once.runs[run].state, chain, u.outcome)) == once.runs;
  }
}
