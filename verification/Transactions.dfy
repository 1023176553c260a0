/**
 * The coordinator's transactions, stated on the facts they are given: when a pass or a result commits, what it makes of
 * each reservation and execution, and which step moves a run where.
 */
module Transactions {
  import opened Basics
  import opened Ledger
  import opened Coordinator
  import opened Kernel
  import opened Safety
  import opened Results

  // ---- Which receipt counts ----

  /** Final enough to act on: any receipt on Ethereum, an Ethereum-final one elsewhere, on Robinhood by both of its stages. */
  ghost predicate IsFinal(chain: Chain, r: Receipt) {
    chain == Ethereum || (r.stage == Some(EthereumFinal) && (chain == Robinhood ==> r.robinhood == Some(EthereumFinal)))
  }

  ghost predicate Counted(chain: Chain, r: Receipt, e: ExecId, state: FactState) {
    r.exec == e && r.state == state && (state == Reorged || IsFinal(chain, r))
  }

  /** Receipt `k` is the first one that counts for the execution in this state. */
  ghost predicate First(chain: Chain, receipts: seq<Receipt>, e: ExecId, state: FactState, k: nat) {
    k < |receipts| && Counted(chain, receipts[k], e, state) && forall m :: 0 <= m < k ==> !Counted(chain, receipts[m], e, state)
  }

  ghost predicate Acted(state: FactState) {
    state == Confirmed || state == Failed || state == Reorged
  }

  lemma {:induction false} FirstFound(chain: Chain, receipts: seq<Receipt>, e: ExecId, state: FactState, k: nat)
    requires Acted(state) && First(chain, receipts, e, state, k)
    ensures FirstReceipt(chain, receipts, e, state) == Some(receipts[k])
    decreases |receipts|
  {
    if k > 0 {
      assert !Counted(chain, receipts[0], e, state);
      forall m | 0 <= m < k - 1 ensures !Counted(chain, receipts[1..][m], e, state) { assert !Counted(chain, receipts[m + 1], e, state); }
      FirstFound(chain, receipts[1..], e, state, k - 1);
    }
  }

  lemma {:induction false} FoundIsFirst(chain: Chain, receipts: seq<Receipt>, e: ExecId, state: FactState) returns (k: nat)
    requires Acted(state) && FirstReceipt(chain, receipts, e, state).Some?
    ensures First(chain, receipts, e, state, k)
    decreases |receipts|
  {
    if Counted(chain, receipts[0], e, state) {
      k := 0;
    } else {
      var j := FoundIsFirst(chain, receipts[1..], e, state);
      k := j + 1;
      forall m | 0 <= m < k ensures !Counted(chain, receipts[m], e, state) {
        if m > 0 { assert !Counted(chain, receipts[1..][m - 1], e, state); }
      }
    }
  }

  /** The first receipt that counts shows this amount. */
  ghost predicate FirstShows(chain: Chain, receipts: seq<Receipt>, e: ExecId, state: FactState, amount: int) {
    exists k: nat :: First(chain, receipts, e, state, k) && receipts[k].actualWei == amount
  }

  ghost predicate NoneCounts(chain: Chain, receipts: seq<Receipt>, e: ExecId, state: FactState) {
    forall k :: 0 <= k < |receipts| ==> !Counted(chain, receipts[k], e, state)
  }

  lemma FirstReceiptExactly(chain: Chain, receipts: seq<Receipt>, e: ExecId, state: FactState, amount: int)
    requires Acted(state)
    ensures var found := FirstReceipt(chain, receipts, e, state);
            && (FirstShows(chain, receipts, e, state, amount) <==> found.Some? && found.value.actualWei == amount)
            && (NoneCounts(chain, receipts, e, state) <==> found.None?)
  {
    var found := FirstReceipt(chain, receipts, e, state);
    if found.Some? {
      var k := FoundIsFirst(chain, receipts, e, state);
      FirstFound(chain, receipts, e, state, k);
    }
    if FirstShows(chain, receipts, e, state, amount) {
      var k: nat :| First(chain, receipts, e, state, k) && receipts[k].actualWei == amount;
      FirstFound(chain, receipts, e, state, k);
    }
    if found.None? {
      forall k | 0 <= k < |receipts| ensures !Counted(chain, receipts[k], e, state) { assert !Matches(chain, receipts[k], e, state); }
    }
  }

  // ---- What accounting makes of one reservation ----

  ghost predicate Attempted(attempts: seq<Attempt>, e: ExecId) {
    exists i :: 0 <= i < |attempts| && attempts[i].exec == e
  }

  ghost predicate AttemptConfirmed(attempts: seq<Attempt>, e: ExecId) {
    exists i :: 0 <= i < |attempts| && attempts[i].exec == e && attempts[i].state == Confirmed
  }

  /** A confirmed attempt stands beside the first confirmed receipt that counts. */
  ghost predicate Mined(chain: Chain, attempts: seq<Attempt>, receipts: seq<Receipt>, e: ExecId) {
    AttemptConfirmed(attempts, e) && !NoneCounts(chain, receipts, e, Confirmed)
  }

  /** The facts settle the execution for this amount: by its first confirmed receipt or, failing that, its first failed one. */
  ghost predicate SettlesFor(chain: Chain, attempts: seq<Attempt>, receipts: seq<Receipt>, e: ExecId, amount: int) {
    if Mined(chain, attempts, receipts, e) then FirstShows(chain, receipts, e, Confirmed, amount)
    else Attempted(attempts, e) && FirstShows(chain, receipts, e, Failed, amount)
  }

  ghost predicate Settling(chain: Chain, attempts: seq<Attempt>, receipts: seq<Receipt>, e: ExecId) {
    Mined(chain, attempts, receipts, e) || (Attempted(attempts, e) && !NoneCounts(chain, receipts, e, Failed))
  }

  /** The facts show that nothing was sent: no receipt settles it, none was reorged, and there are only hashless failures. */
  ghost predicate ShowsUnsent(chain: Chain, attempts: seq<Attempt>, receipts: seq<Receipt>, e: ExecId) {
    && !Settling(chain, attempts, receipts, e) && NoneCounts(chain, receipts, e, Reorged) && Attempted(attempts, e)
    && forall i :: 0 <= i < |attempts| && attempts[i].exec == e ==> attempts[i].state == Failed && attempts[i].hash == None
  }

  lemma VerdictExactly(chain: Chain, attempts: seq<Attempt>, receipts: seq<Receipt>, e: ExecId, amount: int)
    ensures var v := VerdictFor(chain, attempts, receipts, e);
            && (v == Settle(amount) <==> SettlesFor(chain, attempts, receipts, e, amount))
            && (v.Settle? <==> Settling(chain, attempts, receipts, e))
            && (v == Release <==> ShowsUnsent(chain, attempts, receipts, e))
            && (v == Reorg(amount) <==>
                  !Settling(chain, attempts, receipts, e) && Attempted(attempts, e) && FirstShows(chain, receipts, e, Reorged, amount))
  {
    FirstReceiptExactly(chain, receipts, e, Confirmed, amount);
    FirstReceiptExactly(chain, receipts, e, Failed, amount);
    FirstReceiptExactly(chain, receipts, e, Reorged, amount);
  }

  /** What a committed set of facts leaves of one reservation: settled, released or as it was, and nothing else. */
  ghost predicate Accounts(now: nat, chain: Chain, attempts: seq<Attempt>, receipts: seq<Receipt>, row: Row, row': Row) {
    var e := ExecId(row.run, row.wallet);
    && (row'.status == Settled <==> Settling(chain, attempts, receipts, e))
    && (row'.status == Released <==> ShowsUnsent(chain, attempts, receipts, e))
    && (row'.status == Settled ==>
          && row'.settledWei.Some? && SettlesFor(chain, attempts, receipts, e, row'.settledWei.value)
          && 0 <= row'.settledWei.value <= row.reservedWei && row'.settledAt == Some(now)
          && row'.amountWei == (if row'.settledWei.value == 0 then row.reservedWei else row'.settledWei.value)
          && row'.(status := Reserved, settledWei := row.settledWei, settledAt := row.settledAt, amountWei := row.amountWei) == row)
    && (row'.status == Released ==> row'.(status := Reserved) == row)
    && (row'.status == Reserved ==> row' == row)
  }

  lemma AccountedExactly(now: nat, chain: Chain, attempts: seq<Attempt>, receipts: seq<Receipt>, run: RunId, row: Row)
    requires !BadAmount(chain, attempts, receipts, run, row)
    ensures var row' := AccountedRow(now, chain, attempts, receipts, run, row);
            if row.run == run && row.status == Reserved then Accounts(now, chain, attempts, receipts, row, row') else row' == row
  {
    var e := ExecId(row.run, row.wallet);
    var v := VerdictFor(chain, attempts, receipts, e);
    VerdictExactly(chain, attempts, receipts, e, if v.Settle? || v.Reorg? then v.actualWei else 0);
  }

  /** A committed pass accounts every reserved row of its run by the facts it reports, and leaves every other row alone. */
  lemma PassAccounts(w: World, p: Proc, u: Update, i: nat)
    requires ApplyPass(w, p, u).Ok? && i < |w.db.rows|
    ensures w.locals[p].run in w.db.runs && |ApplyPass(w, p, u).value.rows| == |w.db.rows|
    ensures var run, row, row' := w.locals[p].run, w.db.rows[i], ApplyPass(w, p, u).value.rows[i];
            if row.run == run && row.status == Reserved
            then Accounts(w.db.now, w.db.runs[run].campaign.chain, u.attempts, u.receipts, row, row') else row' == row
  {
    PassRows(w, p, u, i);
    var run := w.locals[p].run;
    AccountedExactly(w.db.now, w.db.runs[run].campaign.chain, u.attempts, u.receipts, run, w.db.rows[i]);
  }

  /** So does a committed execution result. */
  lemma ResultAccounts(w: World, p: Proc, r: ExecResult, killedSeen: bool, i: nat)
    requires ApplyResult(w, p, r, killedSeen).Ok? && i < |w.db.rows|
    ensures w.locals[p].run in w.db.runs && |ApplyResult(w, p, r, killedSeen).value.rows| == |w.db.rows|
    ensures var run, row, row' := w.locals[p].run, w.db.rows[i], ApplyResult(w, p, r, killedSeen).value.rows[i];
            if row.run == run && row.status == Reserved
            then Accounts(w.db.now, w.db.runs[run].campaign.chain, r.attempts, r.receipts, row, row') else row' == row
  {
    ResultRows(w, p, r, killedSeen, i);
    var run := w.locals[p].run;
    AccountedExactly(w.db.now, w.db.runs[run].campaign.chain, r.attempts, r.receipts, run, w.db.rows[i]);
  }

  // ---- Where a step moves a run ----

  ghost predicate PassOver(w: World, step: Step, run: RunId) {
    step.ApplyUpdate? && ApplyPass(w, step.p, step.update).Ok? && w.locals[step.p].run == run
  }

  ghost predicate ResultOf(w: World, step: Step, run: RunId) {
    step.RecordResult? && ApplyResult(w, step.p, step.result, step.killedSeen).Ok? && w.locals[step.p].run == run
  }

  /** A final pass over an open run, a result confirmed on Ethereum outside a kill, or the end of a dry run. */
  ghost predicate Completes(w: World, step: Step, run: RunId)
    requires run in w.db.runs
  {
    var s, chain := w.db.runs[run].state, w.db.runs[run].campaign.chain;
    || (PassOver(w, step, run) && s in {Armed, Active} &&
        (step.update.outcome == OFinal || (step.update.outcome == OConfirmed && chain == Ethereum)))
    || (ResultOf(w, step, run) && s == Active && !step.killedSeen && step.result.state == Confirmed && chain == Ethereum)
    || (step == FinishDryRun(run) && w.db.runs[run].mode == DryRun && s in {Armed, Active})
  }

  /** A failed or reorged pass over a run that was not aborted, a failed result, or a job that gave up on an armed run. */
  ghost predicate Fails(w: World, step: Step, run: RunId)
    requires run in w.db.runs
  {
    var s := w.db.runs[run].state;
    || (PassOver(w, step, run) && s in {Armed, Active, Completed} && step.update.outcome in {OFailed, OReorged})
    || (ResultOf(w, step, run) && step.result.state == Failed && (s in {Armed, Completed} || (s == Active && !step.killedSeen)))
    || (step == FailArmedRun(run) && s == Armed)
  }

  /** A kill, a close of a run that sent nothing, or the result of an active run that was aborted or seen killed. */
  ghost predicate Aborts(w: World, step: Step, run: RunId)
    requires run in w.db.runs
  {
    var s := w.db.runs[run].state;
    || (ResultOf(w, step, run) && s == Active && (step.killedSeen || step.result.state == Aborted))
    || (step.StopAll? && s in {Armed, Active})
    || (step == CloseRun(run) && CloseUnsent(w.db, run).Ok?)
  }

  /** An admission, or a soft or posted pass over an armed run. */
  ghost predicate Activates(cfg: Config, w: World, step: Step, run: RunId)
    requires run in w.db.runs
  {
    var s := w.db.runs[run].state;
    || (step.AdmitFleet? && AdmitStep(cfg, w, step.p, step.wallets, step.enabled).Ok? && w.locals[step.p].run == run && s != Active)
    || (PassOver(w, step, run) && s == Armed && step.update.outcome in {OSoft, OPosted})
  }

  /** The four moves a step can make, each with exactly the steps that make it; every other step leaves the state. */
  ghost predicate Moved(cfg: Config, w: World, step: Step, run: RunId, s': RunState)
    requires run in w.db.runs
  {
    var s := w.db.runs[run].state;
    && (s' == Completed && s != Completed <==> Completes(w, step, run))
    && (s' == RunFailed && s != RunFailed <==> Fails(w, step, run))
    && (s' == RunAborted && s != RunAborted <==> Aborts(w, step, run))
    && (s' == Active && s != Active <==> Activates(cfg, w, step, run))
    && (s' == Armed ==> s == Armed)
  }

  lemma PassMoved(cfg: Config, w: World, p: Proc, u: Update, run: RunId)
    requires run in w.db.runs
    ensures Moved(cfg, w, ApplyUpdate(p, u), run, StateAfter(cfg, w, ApplyUpdate(p, u), run))
  {
    if ApplyPass(w, p, u).Ok? && w.locals[p].run == run {
      PassCoherent(w, p, u);
    }
  }

  lemma PassCoherent(w: World, p: Proc, u: Update)
    requires ApplyPass(w, p, u).Ok?
    ensures w.locals[p].run in w.db.runs && Coherent(w.db.runs[w.locals[p].run].campaign.chain, w.locals[p].seen, u)
  {
  }

  lemma ResultMoved(cfg: Config, w: World, p: Proc, r: ExecResult, killedSeen: bool, run: RunId)
    requires run in w.db.runs
    ensures Moved(cfg, w, RecordResult(p, r, killedSeen), run, StateAfter(cfg, w, RecordResult(p, r, killedSeen), run))
  {
    if ApplyResult(w, p, r, killedSeen).Ok? && w.locals[p].run == run {
      assert ExecutedState(w.db.runs[run].state, w.db.runs[run].campaign.chain, r.state, killedSeen).Some?;
    }
  }

  lemma CloseMoved(w: World, run: RunId)
    requires CloseUnsent(w.db, run).Ok?
    ensures run in w.db.runs && w.db.runs[run].state in {Armed, Active}
  {
  }

  lemma NextMoved(cfg: Config, w: World, step: Step, run: RunId)
    requires run in w.db.runs
    ensures Moved(cfg, w, step, run, StateAfter(cfg, w, step, run))
  {
    match step
    case ApplyUpdate(p, u) => PassMoved(cfg, w, p, u, run);
    case RecordResult(p, r, killedSeen) => ResultMoved(cfg, w, p, r, killedSeen, run);
    case CloseRun(r) => if CloseUnsent(w.db, run).Ok? { CloseMoved(w, run); }
    case _ =>
  }

  /** Exactly which steps complete, fail, abort or activate a run, for every step in every world. */
  lemma MovesExactly(cfg: Config, w: World, step: Step, run: RunId)
    requires run in w.db.runs
    ensures run in Apply(cfg, w, step).db.runs && Moved(cfg, w, step, run, Apply(cfg, w, step).db.runs[run].state)
  {
    StateStep(cfg, w, step, run);
    NextMoved(cfg, w, step, run);
  }

  // ---- When a pass or a result commits ----

  ghost predicate OneOf(state: FactState) {
    state == Pending || state == Confirmed || state == Reorged || state == Failed
  }

  /** Every fact is of this run, and no id is reported twice. */
  ghost predicate OfRun(run: RunId, attempts: seq<Attempt>, receipts: seq<Receipt>) {
    && (forall i :: 0 <= i < |attempts| ==> attempts[i].exec.run == run)
    && (forall i :: 0 <= i < |receipts| ==> receipts[i].exec.run == run)
    && (forall i, j :: 0 <= i < j < |attempts| ==> attempts[i].id != attempts[j].id)
    && (forall i, j :: 0 <= i < j < |receipts| ==> receipts[i].id != receipts[j].id)
  }

  /** A receipt a pass may report: pending only on the staged chains, no negative spend, and both stages agreeing on Robinhood. */
  ghost predicate PassReceipt(chain: Chain, r: Receipt) {
    && OneOf(r.state) && (r.state == Pending ==> chain != Ethereum) && r.actualWei >= 0
    && (chain == Robinhood && r.stage == Some(EthereumFinal) ==> r.robinhood == Some(EthereumFinal))
  }

  /** A receipt an execution result may report: never pending, and Ethereum-final on the staged chains. */
  ghost predicate ResultReceipt(chain: Chain, r: Receipt) {
    PassReceipt(chain, r) && r.state != Pending && (chain != Ethereum ==> r.stage == Some(EthereumFinal))
  }

  ghost predicate Receipted(receipts: seq<Receipt>, e: ExecId) {
    exists k :: 0 <= k < |receipts| && receipts[k].exec == e
  }

  ghost predicate SeenHaveReceipts(seen: seq<Attempt>, receipts: seq<Receipt>) {
    seen != [] && forall i :: 0 <= i < |seen| ==> Receipted(receipts, seen[i].exec)
  }

  /** The outcome fits the facts: what is final, confirmed or reorged is so in every receipt, for everything seen. */
  ghost predicate OutcomeFits(chain: Chain, seen: seq<Attempt>, u: Update) {
    match u.outcome
    case OFinal =>
      && SeenHaveReceipts(seen, u.receipts) && chain != Ethereum
      && forall k :: 0 <= k < |u.receipts| ==> u.receipts[k].state == Confirmed && IsFinal(chain, u.receipts[k])
    case OConfirmed =>
      SeenHaveReceipts(seen, u.receipts) && chain == Ethereum && forall k :: 0 <= k < |u.receipts| ==> u.receipts[k].state == Confirmed
    case OReorged => SeenHaveReceipts(seen, u.receipts) && forall k :: 0 <= k < |u.receipts| ==> u.receipts[k].state == Reorged
    case OFailed => u.attempts != [] || u.receipts != []
    case _ => true
  }

  /** No reserved row of the run would be settled, or noted as reorged, for less than nothing or more than it holds. */
  ghost predicate AmountFits(chain: Chain, attempts: seq<Attempt>, receipts: seq<Receipt>, row: Row) {
    var e := ExecId(row.run, row.wallet);
    && (forall a :: SettlesFor(chain, attempts, receipts, e, a) ==> 0 <= a <= row.reservedWei)
    && (!Settling(chain, attempts, receipts, e) && Attempted(attempts, e) ==>
          forall a :: FirstShows(chain, receipts, e, Reorged, a) ==> 0 <= a <= row.reservedWei)
  }

  ghost predicate AmountsFit(chain: Chain, attempts: seq<Attempt>, receipts: seq<Receipt>, run: RunId, rows: seq<Row>) {
    forall i :: 0 <= i < |rows| && rows[i].run == run && rows[i].status == Reserved ==> AmountFits(chain, attempts, receipts, rows[i])
  }

  ghost predicate IdStored(attempts: seq<Attempt>, id: nat) {
    exists i :: 0 <= i < |attempts| && attempts[i].id == id
  }

  ghost predicate SentAttempt(a: Attempt, r: Receipt) {
    a.id == r.attempt && a.exec == r.exec && a.hash.Some?
  }

  /** The receipt belongs to a hash-bearing attempt that is stored, or reported under a new id. */
  ghost predicate Belongs(db: Db, attempts: seq<Attempt>, r: Receipt) {
    || (exists i :: 0 <= i < |db.attempts| && SentAttempt(db.attempts[i], r))
    || (exists i :: 0 <= i < |attempts| && !IdStored(db.attempts, attempts[i].id) && SentAttempt(attempts[i], r))
  }

  /** Every new attempt has its execution, and every new receipt its attempt. */
  ghost predicate FactsFit(db: Db, attempts: seq<Attempt>, receipts: seq<Receipt>) {
    && (forall i :: 0 <= i < |attempts| && !IdStored(db.attempts, attempts[i].id) ==> attempts[i].exec in db.execs)
    && (forall k :: 0 <= k < |receipts| && !KnownReceipt(db.receipts, receipts[k].id) ==> Belongs(db, attempts, receipts[k]))
  }

  /** The attempts that are new are exactly those whose id is not stored, each as often as it was reported. */
  lemma {:induction false} NewAttemptsExactly(known: seq<Attempt>, news: seq<Attempt>, a: Attempt)
    ensures multiset(FreshAttempts(known, news))[a] == if IdStored(known, a.id) then 0 else multiset(news)[a]
    decreases |news|
  {
    if news != [] {
      NewAttemptsExactly(known, news[1..], a);
      assert news == [news[0]] + news[1..];
    }
  }

  lemma NewAttemptsMembers(known: seq<Attempt>, news: seq<Attempt>, a: Attempt)
    ensures a in FreshAttempts(known, news) <==> a in news && !IdStored(known, a.id)
  {
    NewAttemptsExactly(known, news, a);
    assert a in FreshAttempts(known, news) <==> a in multiset(FreshAttempts(known, news));
    assert a in news <==> a in multiset(news);
  }

  /** The receipts that are new are exactly the stored forms of those whose id is not stored yet. */
  lemma {:induction false} NewReceiptsExactly(chain: Chain, known: seq<Receipt>, news: seq<Receipt>, r: Receipt)
    ensures r in FreshReceipts(chain, known, news) <==>
            exists k :: 0 <= k < |news| && !KnownReceipt(known, news[k].id) && r == Stored(chain, news[k])
    decreases |news|
  {
    if news != [] {
      var rest := FreshReceipts(chain, known, news[1..]);
      NewReceiptsExactly(chain, known, news[1..], r);
      if r in rest {
        var k :| 0 <= k < |news[1..]| && !KnownReceipt(known, news[1..][k].id) && r == Stored(chain, news[1..][k]);
        assert news[k + 1] == news[1..][k];
      }
      if k :| 0 <= k < |news| && !KnownReceipt(known, news[k].id) && r == Stored(chain, news[k]) {
        if k > 0 { assert news[1..][k - 1] == news[k]; }
      }
    }
  }

  lemma LinkedExactly(db: Db, attempts: seq<Attempt>, r: Receipt, stored: Receipt)
    requires stored.attempt == r.attempt && stored.exec == r.exec
    ensures Linked(db.attempts + FreshAttempts(db.attempts, attempts), stored) <==> Belongs(db, attempts, r)
  {
    var news := FreshAttempts(db.attempts, attempts);
    var all := db.attempts + news;
    if Linked(all, stored) {
      var i :| 0 <= i < |all| && all[i].id == stored.attempt && all[i].exec == stored.exec && all[i].hash.Some?;
      if i < |db.attempts| {
        assert SentAttempt(db.attempts[i], r);
      } else {
        NewAttemptsMembers(db.attempts, attempts, all[i]);
        var k :| 0 <= k < |attempts| && attempts[k] == all[i];
        assert SentAttempt(attempts[k], r);
      }
    }
    if i :| 0 <= i < |db.attempts| && SentAttempt(db.attempts[i], r) { assert all[i] == db.attempts[i]; }
    if i :| 0 <= i < |attempts| && !IdStored(db.attempts, attempts[i].id) && SentAttempt(attempts[i], r) {
      NewAttemptsMembers(db.attempts, attempts, attempts[i]);
      var k :| 0 <= k < |news| && news[k] == attempts[i];
      assert all[|db.attempts| + k] == attempts[i];
    }
  }

  lemma NewAttemptsFit(db: Db, attempts: seq<Attempt>)
    ensures var news := FreshAttempts(db.attempts, attempts);
            (forall i :: 0 <= i < |news| ==> news[i].exec in db.execs) <==>
            forall i :: 0 <= i < |attempts| && !IdStored(db.attempts, attempts[i].id) ==> attempts[i].exec in db.execs
  {
    var news := FreshAttempts(db.attempts, attempts);
    if forall i :: 0 <= i < |news| ==> news[i].exec in db.execs {
      forall i | 0 <= i < |attempts| && !IdStored(db.attempts, attempts[i].id) ensures attempts[i].exec in db.execs {
        NewAttemptsMembers(db.attempts, attempts, attempts[i]);
        var k :| 0 <= k < |news| && news[k] == attempts[i];
      }
    } else {
      var i :| 0 <= i < |news| && news[i].exec !in db.execs;
      NewAttemptsMembers(db.attempts, attempts, news[i]);
      var k :| 0 <= k < |attempts| && attempts[k] == news[i];
    }
  }

  lemma NewReceiptsFit(db: Db, chain: Chain, attempts: seq<Attempt>, receipts: seq<Receipt>)
    ensures var all := db.attempts + FreshAttempts(db.attempts, attempts);
            var news := FreshReceipts(chain, db.receipts, receipts);
            (forall k :: 0 <= k < |news| ==> Linked(all, news[k])) <==>
            forall k :: 0 <= k < |receipts| && !KnownReceipt(db.receipts, receipts[k].id) ==> Belongs(db, attempts, receipts[k])
  {
    var all := db.attempts + FreshAttempts(db.attempts, attempts);
    var news := FreshReceipts(chain, db.receipts, receipts);
    if forall k :: 0 <= k < |news| ==> Linked(all, news[k]) {
      forall k | 0 <= k < |receipts| && !KnownReceipt(db.receipts, receipts[k].id) ensures Belongs(db, attempts, receipts[k]) {
        NewReceiptsExactly(chain, db.receipts, receipts, Stored(chain, receipts[k]));
        var m :| 0 <= m < |news| && news[m] == Stored(chain, receipts[k]);
        LinkedExactly(db, attempts, receipts[k], news[m]);
      }
    } else {
      var k :| 0 <= k < |news| && !Linked(all, news[k]);
      NewReceiptsExactly(chain, db.receipts, receipts, news[k]);
      var m :| 0 <= m < |receipts| && !KnownReceipt(db.receipts, receipts[m].id) && news[k] == Stored(chain, receipts[m]);
      LinkedExactly(db, attempts, receipts[m], news[k]);
    }
  }

  lemma FactsFitExactly(db: Db, chain: Chain, attempts: seq<Attempt>, receipts: seq<Receipt>)
    ensures AddFacts(db, chain, attempts, receipts).Ok? <==> FactsFit(db, attempts, receipts)
  {
    NewAttemptsFit(db, attempts);
    NewReceiptsFit(db, chain, attempts, receipts);
  }

  lemma AmountFitsExactly(chain: Chain, attempts: seq<Attempt>, receipts: seq<Receipt>, run: RunId, row: Row)
    requires row.run == run && row.status == Reserved
    ensures BadAmount(chain, attempts, receipts, run, row) <==> !AmountFits(chain, attempts, receipts, row)
  {
    var e := ExecId(row.run, row.wallet);
    var v := VerdictFor(chain, attempts, receipts, e);
    forall a ensures (v == Settle(a) || v == Reorg(a)) <==>
      SettlesFor(chain, attempts, receipts, e, a) ||
      (!Settling(chain, attempts, receipts, e) && Attempted(attempts, e) && FirstShows(chain, receipts, e, Reorged, a))
    {
      VerdictExactly(chain, attempts, receipts, e, a);
    }
    if v.Settle? || v.Reorg? {
      VerdictExactly(chain, attempts, receipts, e, v.actualWei);
    }
  }

  lemma AmountsFitExactly(chain: Chain, attempts: seq<Attempt>, receipts: seq<Receipt>, run: RunId, rows: seq<Row>)
    ensures AnyBadAmount(chain, attempts, receipts, run, rows) <==> !AmountsFit(chain, attempts, receipts, run, rows)
  {
    forall i | 0 <= i < |rows| && rows[i].run == run && rows[i].status == Reserved
      ensures BadAmount(chain, attempts, receipts, run, rows[i]) <==> !AmountFits(chain, attempts, receipts, rows[i])
    {
      AmountFitsExactly(chain, attempts, receipts, run, rows[i]);
    }
  }

  lemma UpdateFactsExactly(run: RunId, chain: Chain, u: Update)
    ensures UpdateFactsOk(run, chain, u) <==>
            OfRun(run, u.attempts, u.receipts) && forall i :: 0 <= i < |u.receipts| ==> PassReceipt(chain, u.receipts[i])
  {
    assert forall i :: 0 <= i < |u.receipts| ==> (ReceiptFactOk(chain, u.receipts[i], true) <==> PassReceipt(chain, u.receipts[i]));
  }

  lemma SeenExactly(seen: seq<Attempt>, receipts: seq<Receipt>)
    ensures SeenHaveReceipts(seen, receipts) <==> seen != [] && forall i :: 0 <= i < |seen| ==> HasReceiptFor(receipts, seen[i].exec)
  {
    assert forall i :: 0 <= i < |seen| ==> (Receipted(receipts, seen[i].exec) <==> HasReceiptFor(receipts, seen[i].exec));
  }

  lemma FinalsExactly(chain: Chain, receipts: seq<Receipt>)
    requires chain != Ethereum
    ensures (forall k :: 0 <= k < |receipts| ==> FinalReceipt(chain, receipts[k])) <==>
            forall k :: 0 <= k < |receipts| ==> receipts[k].state == Confirmed && IsFinal(chain, receipts[k])
  {
    assert forall k :: 0 <= k < |receipts| ==> (FinalReceipt(chain, receipts[k]) <==> receipts[k].state == Confirmed && IsFinal(chain, receipts[k]));
  }

  lemma CoherentExactly(chain: Chain, seen: seq<Attempt>, u: Update)
    ensures Coherent(chain, seen, u) <==> OutcomeFits(chain, seen, u)
  {
    SeenExactly(seen, u.receipts);
    if chain != Ethereum { FinalsExactly(chain, u.receipts); }
  }

  /** Exactly which reports a pass accepts, on the reported facts, the snapshot they answer and the tables they meet. */
  lemma PassCommitsExactly(db: Db, run: RunId, seen: seq<Attempt>, u: Update)
    ensures Reconcile(db, run, seen, u).Ok? <==>
            && run in db.runs
            && var chain := db.runs[run].campaign.chain;
               && OfRun(run, u.attempts, u.receipts) && (forall i :: 0 <= i < |u.receipts| ==> PassReceipt(chain, u.receipts[i]))
               && OutcomeFits(chain, seen, u) && AmountsFit(chain, u.attempts, u.receipts, run, db.rows) && FactsFit(db, u.attempts, u.receipts)
  {
    if run in db.runs {
      var chain := db.runs[run].campaign.chain;
      UpdateFactsExactly(run, chain, u);
      CoherentExactly(chain, seen, u);
      AmountsFitExactly(chain, u.attempts, u.receipts, run, db.rows);
      FactsFitExactly(db, chain, u.attempts, u.receipts);
    }
  }

  /** The executions a result lists: each once, and every fact belongs to one of them. */
  ghost predicate Lists(r: ExecResult) {
    && (forall i, j :: 0 <= i < j < |r.execs| ==> r.execs[i] != r.execs[j])
    && (forall i :: 0 <= i < |r.attempts| ==> r.attempts[i].exec in r.execs)
    && (forall i :: 0 <= i < |r.receipts| ==> r.receipts[i].exec in r.execs)
  }

  /** The run may take the result: no failure of an aborted run, and on Ethereum no confirmation of one that is not active or completed. */
  ghost predicate StateFits(s: RunState, chain: Chain, result: FactState, killedSeen: bool) {
    (killedSeen && s == Active) ||
    ((result == Failed ==> s != RunAborted) && (result == Confirmed && chain == Ethereum ==> s in {Active, Completed}))
  }

  lemma ResultFactsExactly(run: RunId, chain: Chain, r: ExecResult)
    ensures EngineFactsOk(run, chain, r.execs, r.attempts, r.receipts, false) <==>
            OfRun(run, r.attempts, r.receipts) && Lists(r) && forall i :: 0 <= i < |r.receipts| ==> ResultReceipt(chain, r.receipts[i])
  {
    assert forall i :: 0 <= i < |r.receipts| ==> (ReceiptFactOk(chain, r.receipts[i], false) <==> ResultReceipt(chain, r.receipts[i]));
  }

  /** Exactly which execution results are recorded. */
  lemma ResultCommitsExactly(db: Db, run: RunId, r: ExecResult, killedSeen: bool)
    ensures RecordFacts(db, run, r, killedSeen).Ok? <==>
            && run in db.runs
            && var chain := db.runs[run].campaign.chain;
               && OfRun(run, r.attempts, r.receipts) && Lists(r) && (forall i :: 0 <= i < |r.receipts| ==> ResultReceipt(chain, r.receipts[i]))
               && StateFits(db.runs[run].state, chain, r.state, killedSeen)
               && AmountsFit(chain, r.attempts, r.receipts, run, db.rows) && FactsFit(db, r.attempts, r.receipts)
  {
    if run in db.runs {
      var chain := db.runs[run].campaign.chain;
      ResultFactsExactly(run, chain, r);
      AmountsFitExactly(chain, r.attempts, r.receipts, run, db.rows);
      FactsFitExactly(db, chain, r.attempts, r.receipts);
    }
  }

  // ---- Where facts move an execution ----

  ghost function MoveOf(state: FactState): FactState {
    if state == Pending then Submitted else state
  }

  /** Attempt `i` is the last one that moves the execution: replacements do not, and nothing moves an aborted one. */
  ghost predicate LastMove(attempts: seq<Attempt>, e: ExecId, i: nat) {
    && i < |attempts| && attempts[i].exec == e && !attempts[i].replacement
    && (forall j :: i < j < |attempts| && attempts[j].exec == e ==> attempts[j].replacement)
    && (forall j :: 0 <= j < i && attempts[j].exec == e && !attempts[j].replacement ==> attempts[j].state != Aborted)
  }

  /** An execution ends in the state of the last attempt that moves it; without one, or aborted, it stays where it is. */
  lemma {:induction false} AttemptsMoveExactly(execs: map<ExecId, Execution>, attempts: seq<Attempt>, e: ExecId)
    requires e in execs
    ensures e in MoveByAttempts(execs, attempts)
    ensures var after := MoveByAttempts(execs, attempts)[e];
            && after.campaign == execs[e].campaign
            && (execs[e].state == Aborted ==> after == execs[e])
            && ((forall i :: 0 <= i < |attempts| && attempts[i].exec == e ==> attempts[i].replacement) ==> after == execs[e])
            && (forall i: nat :: execs[e].state != Aborted && LastMove(attempts, e, i) ==> after.state == MoveOf(attempts[i].state))
    decreases |attempts|
  {
    if attempts != [] {
      var a, rest := attempts[0], attempts[1..];
      var next := if a.replacement then execs else MoveExec(execs, a.exec, if a.state == Pending then Submitted else a.state);
      AttemptsMoveExactly(next, rest, e);
      assert forall j :: 0 <= j < |rest| ==> rest[j] == attempts[j + 1];
      forall i: nat | execs[e].state != Aborted && LastMove(attempts, e, i)
        ensures MoveByAttempts(execs, attempts)[e].state == MoveOf(attempts[i].state)
      {
        if i > 0 { assert LastMove(rest, e, i - 1); }
      }
    }
  }

  ghost predicate LastReceipt(receipts: seq<Receipt>, e: ExecId, i: nat) {
    && i < |receipts| && receipts[i].exec == e
    && (forall j :: i < j < |receipts| ==> receipts[j].exec != e)
    && (forall j :: 0 <= j < i && receipts[j].exec == e ==> receipts[j].state != Aborted)
  }

  lemma {:induction false} ReceiptsMoveExactly(execs: map<ExecId, Execution>, receipts: seq<Receipt>, e: ExecId)
    requires e in execs
    ensures e in MoveByReceipts(execs, receipts)
    ensures var after := MoveByReceipts(execs, receipts)[e];
            && after.campaign == execs[e].campaign
            && (execs[e].state == Aborted ==> after == execs[e])
            && ((forall i :: 0 <= i < |receipts| ==> receipts[i].exec != e) ==> after == execs[e])
            && (forall i: nat :: execs[e].state != Aborted && LastReceipt(receipts, e, i) ==> after.state == MoveOf(receipts[i].state))
    decreases |receipts|
  {
    if receipts != [] {
      var r, rest := receipts[0], receipts[1..];
      var next := MoveExec(execs, r.exec, if r.state == Pending then Submitted else r.state);
      ReceiptsMoveExactly(next, rest, e);
      assert forall j :: 0 <= j < |rest| ==> rest[j] == receipts[j + 1];
      forall i: nat | execs[e].state != Aborted && LastReceipt(receipts, e, i)
        ensures MoveByReceipts(execs, receipts)[e].state == MoveOf(receipts[i].state)
      {
        if i > 0 { assert LastReceipt(rest, e, i - 1); }
      }
    }
  }

  // ---- Kills and closes ----

  ghost predicate HashRecorded(db: Db, e: ExecId) {
    exists i :: 0 <= i < |db.attempts| && db.attempts[i].exec == e && db.attempts[i].hash != None
  }

  /** An execution a kill stops: recorded, not ended, and without a hash-bearing attempt. */
  ghost predicate Stopped(db: Db, e: ExecId) {
    e in db.execs && db.execs[e].state in {Prepared, Signed, Submitted, Pending} && !HashRecorded(db, e)
  }

  /** Exactly what a kill changes: it aborts the executions that may not have been sent, frees their money, and aborts the open runs. */
  lemma KillExactly(db: Db, i: nat, e: ExecId, run: RunId)
    requires i < |db.rows|
    ensures var db' := AbortRemaining(db);
            && db' == db.(rows := db'.rows, execs := db'.execs, runs := db'.runs) && |db'.rows| == |db.rows|
            && db'.rows[i] == (if db.rows[i].status == Reserved && Stopped(db, ExecId(db.rows[i].run, db.rows[i].wallet))
                               then db.rows[i].(status := Released) else db.rows[i])
            && db'.execs.Keys == db.execs.Keys && db'.runs.Keys == db.runs.Keys
            && (e in db.execs ==> db'.execs[e] == if Stopped(db, e) then db.execs[e].(state := Aborted) else db.execs[e])
            && (run in db.runs ==> db'.runs[run] == if db.runs[run].state in {Armed, Active} then db.runs[run].(state := RunAborted) else db.runs[run])
  {
    assert HasHash(db.attempts, e) <==> HashRecorded(db, e);
    var f := ExecId(db.rows[i].run, db.rows[i].wallet);
    assert HasHash(db.attempts, f) <==> HashRecorded(db, f);
  }

  /** Nothing of the run can have been sent: its executions are all prepared or aborted, and none has an attempt. */
  ghost predicate NothingSent(db: Db, run: RunId) {
    forall e :: e in db.execs && e.run == run ==>
      db.execs[e].state in {Prepared, Aborted} && forall i :: 0 <= i < |db.attempts| ==> db.attempts[i].exec != e
  }

  /** Exactly when a run can be closed, and what that changes: its open reservations are freed, and nothing else's. */
  lemma CloseExactly(db: Db, run: RunId, i: nat)
    requires Shape(db) && i < |db.rows|
    ensures CloseUnsent(db, run).Ok? <==> run in db.runs && db.runs[run].state in {Armed, Active} && NothingSent(db, run)
    ensures CloseUnsent(db, run).Ok? ==>
      var db' := CloseUnsent(db, run).value;
      && db' == db.(rows := db'.rows, execs := db'.execs, runs := db.runs[run := db.runs[run].(state := RunAborted)]) && |db'.rows| == |db.rows|
      && db'.rows[i] == (if db.rows[i].run == run && db.rows[i].status == Reserved then db.rows[i].(status := Released) else db.rows[i])
      && db'.execs.Keys == db.execs.Keys
      && forall e :: e in db.execs ==> db'.execs[e] == if e.run == run then db.execs[e].(state := Aborted) else db.execs[e]
  {
    assert RowOk(db, db.rows[i]);
    assert ProvablyUnsent(db, run) <==> NothingSent(db, run);
  }

  // ---- What a stored receipt looks like ----

  /** Storing is final: a receipt read back and stored again is the same receipt. */
  lemma StoredTwice(chain: Chain, r: Receipt)
    requires OneOf(r.state)
    ensures Stored(chain, Stored(chain, r)) == Stored(chain, r)
  {
  }

  /**
   * The state and stage a receipt is stored with. Reorged and failed ones keep their state; a soft or posted one, and a
   * pending one that is not final, waits as pending; every other is confirmed. A known stage of a confirmed or pending
   * receipt is kept, and an Ethereum-final failure keeps its stage on the staged chains.
   */
  lemma StoredExactly(chain: Chain, r: Receipt)
    requires OneOf(r.state)
    ensures var s := Stored(chain, r);
            var told := if r.stage.Some? then r.stage else r.robinhood;
            var live := r.state == Confirmed || r.state == Pending;
            && s.id == r.id && s.exec == r.exec && s.attempt == r.attempt && s.actualWei == r.actualWei
            && (s.state == Reorged <==> r.state == Reorged) && (s.state == Failed <==> r.state == Failed)
            && (s.state == Pending <==> live && (told in {Some(Soft), Some(Posted)} || (r.state == Pending && told != Some(EthereumFinal))))
            && (live && told in {Some(Soft), Some(Posted), Some(EthereumFinal)} ==> s.stage == told)
            && (s.stage == Some(EthereumFinal) <==>
                  (told == Some(EthereumFinal) && (live || (r.state == Failed && chain != Ethereum))) ||
                  (chain == Ethereum && r.state == Confirmed && told in {None, Some(Unknown)}))
            && (s.robinhood.Some? ==> s.robinhood == s.stage)
            && (s.robinhood == Some(EthereumFinal) <==> chain == Robinhood && s.stage == Some(EthereumFinal))
  {
  }

  // ---- Everything else a transaction writes ----

  ghost predicate OnlyThisRunMoves(db: Db, db': Db, run: RunId) {
    db'.runs.Keys == db.runs.Keys && forall r :: r in db.runs && r != run ==> db'.runs[r] == db.runs[r]
  }

  /** The attempt tables after a commit: the old ones, and behind them the new ones, which are those with ids not stored before. */
  ghost predicate AddsAttempts(db: Db, db': Db, attempts: seq<Attempt>) {
    && db.attempts <= db'.attempts
    && forall a :: a in db'.attempts[|db.attempts|..] <==> a in attempts && !IdStored(db.attempts, a.id)
  }

  lemma FactsAdded(db: Db, chain: Chain, attempts: seq<Attempt>, receipts: seq<Receipt>)
    requires AddFacts(db, chain, attempts, receipts).Ok?
    ensures AddsAttempts(db, AddFacts(db, chain, attempts, receipts).value, attempts)
  {
    var db' := AddFacts(db, chain, attempts, receipts).value;
    assert db'.attempts[|db.attempts|..] == FreshAttempts(db.attempts, attempts);
    forall a ensures a in db'.attempts[|db.attempts|..] <==> a in attempts && !IdStored(db.attempts, a.id) {
      NewAttemptsMembers(db.attempts, attempts, a);
    }
  }

  /** A committed pass adds its new facts and one log entry, and touches no other run, no clock and no kill switch. */
  lemma PassWrites(db: Db, run: RunId, seen: seq<Attempt>, u: Update)
    requires Reconcile(db, run, seen, u).Ok?
    ensures var db' := Reconcile(db, run, seen, u).value;
            && AddsAttempts(db, db', u.attempts) && OnlyThisRunMoves(db, db', run)
            && db'.log == db.log + [LogEntry(run, u.outcome, db.now)]
            && db'.facts == db.facts && db'.now == db.now && db'.killed == db.killed && db'.watermark == db.watermark
  {
    FactsAdded(db, db.runs[run].campaign.chain, u.attempts, u.receipts);
  }

  /** A recorded result also marks the run as executed, for good, and adds no log entry. */
  lemma ResultWrites(db: Db, run: RunId, r: ExecResult, killedSeen: bool)
    requires RecordFacts(db, run, r, killedSeen).Ok?
    ensures var db' := RecordFacts(db, run, r, killedSeen).value;
            && AddsAttempts(db, db', r.attempts) && OnlyThisRunMoves(db, db', run) && db'.facts == db.facts + {run}
            && db'.log == db.log && db'.now == db.now && db'.killed == db.killed && db'.watermark == db.watermark
  {
    FactsAdded(db, db.runs[run].campaign.chain, r.attempts, r.receipts);
  }

  /** A process may start on a run exactly when nothing is killed, the run is armed and nothing of it was ever attempted or recorded. */
  lemma StartsExactly(cfg: Config, w: World, p: Proc, run: RunId)
    ensures var w' := Apply(cfg, w, StartExecute(p, run));
            w' == if !w.db.killed && run in w.db.runs && w.db.runs[run].state == Armed && run !in w.db.facts &&
                     (forall i :: 0 <= i < |w.db.attempts| ==> w.db.attempts[i].exec.run != run)
                  then World(w.db, w.locals[p := Reading(run, w.db.runs[run])]) else w
  {
    AttemptsOfFrom(w.db.attempts, run);
    var mine := AttemptsOf(w.db.attempts, run);
    if mine != [] { assert mine[0] in mine; }
  }

  /** A run is armed once, on the terms of its campaign, and a live one never while killed. */
  lemma ArmsExactly(cfg: Config, w: World, run: RunId, c: Campaign, mode: Mode, wallets: seq<Address>)
    ensures Apply(cfg, w, Arm(run, c, mode, wallets)) ==
            if run !in w.db.runs && cfg.terms(c.id) == Terms(c.chain, c.priceWei, c.quantity) && (mode == Live ==> !w.db.killed)
            then w.(db := w.db.(runs := w.db.runs[run := Run(c, mode, wallets, Armed)])) else w
  {
  }

  /** The engine's own settlement and release touch one reserved row of one run and wallet, within what it holds. */
  lemma EngineMoneyExactly(cfg: Config, w: World, run: RunId, wallet: Address, amount: int, i: nat)
    requires i < |w.db.rows|
    ensures var row := w.db.rows[i];
            var mine := row.run == run && row.wallet == wallet && row.status == Reserved;
            var settled := Apply(cfg, w, EngineSettle(run, wallet, amount));
            var released := Apply(cfg, w, EngineRelease(run, wallet));
            && settled == w.(db := w.db.(rows := settled.db.rows)) && |settled.db.rows| == |w.db.rows|
            && released == w.(db := w.db.(rows := released.db.rows)) && |released.db.rows| == |w.db.rows|
            && (mine && 0 <= amount <= row.reservedWei ==>
                  settled.db.rows[i] == row.(status := Settled, amountWei := if amount == 0 then row.reservedWei else amount,
                                             settledWei := Some(amount), settledAt := Some(w.db.now)))
            && (!mine || amount < 0 || amount > row.reservedWei ==> settled.db.rows[i] == row)
            && released.db.rows[i] == (if mine then row.(status := Released) else row)
  {
  }
}
