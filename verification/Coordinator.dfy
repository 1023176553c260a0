/**
 * The run and reconciliation state machine: which engine facts are accepted, how they move runs, executions and
 * reservations, and what a kill or an unsent-run close may free.
 */
module Coordinator {
  import opened Basics
  import opened Ledger

  datatype Update = Update(outcome: Outcome, attempts: seq<Attempt>, receipts: seq<Receipt>)
  datatype ExecResult = ExecResult(state: FactState, execs: seq<ExecId>, attempts: seq<Attempt>, receipts: seq<Receipt>)

  // ---- Receipts ----

  predicate Authorizes(chain: Chain, r: Receipt) {
    && (r.state == Confirmed || r.state == Failed)
    && (chain == Ethereum ||
        (r.stage == Some(EthereumFinal) && (chain == Robinhood ==> r.robinhood == Some(EthereumFinal))))
  }

  function CanonicalStage(chain: Chain, state: FactState, reported: Option<Stage>): Stage {
    if chain != Ethereum && state == Failed && reported == Some(EthereumFinal) then EthereumFinal
    else if state != Confirmed && state != Pending then Unknown
    else if reported.Some? && reported.value != Unknown then reported.value
    else if chain == Ethereum && state == Confirmed then EthereumFinal
    else Unknown
  }

  function PersistedState(chain: Chain, r: Receipt): FactState {
    var stage := StageOf(chain, r);
    if r.state == Reorged then Reorged
    else if r.state == Failed then Failed
    else if stage == Soft || stage == Posted || (r.state == Pending && stage != EthereumFinal) then Pending
    else Confirmed
  }

  function StageOf(chain: Chain, r: Receipt): Stage {
    CanonicalStage(chain, r.state, Reported(r))
  }

  /** The receipt as the store keeps it and reads it back. */
  function Stored(chain: Chain, r: Receipt): Receipt {
    var stage := StageOf(chain, r);
    r.(state := PersistedState(chain, r),
       stage := Some(stage),
       robinhood := if stage == Soft || stage == Posted || (stage == EthereumFinal && chain == Robinhood) then Some(stage) else None)
  }

  function Reported(r: Receipt): Option<Stage> {
    if r.stage.Some? then r.stage else r.robinhood
  }

  /**
   * Exactly which receipts authorize a settlement once they are stored, for every chain and reported stage. On the staged
   * chains it is the Ethereum-final ones that were not reorged, so storing a receipt that authorizes keeps its power.
   */
  lemma StoredAuthorizes(chain: Chain, r: Receipt)
    requires r.state == Pending || r.state == Confirmed || r.state == Reorged || r.state == Failed
    ensures chain != Ethereum ==>
      (Authorizes(chain, Stored(chain, r)) <==> r.state != Reorged && Reported(r) == Some(EthereumFinal))
    ensures chain == Ethereum ==>
      (Authorizes(chain, Stored(chain, r)) <==>
       r.state == Failed || (r.state == Confirmed && Reported(r) !in {Some(Soft), Some(Posted)}) || (r.state == Pending && Reported(r) == Some(EthereumFinal)))
    ensures chain != Ethereum && Authorizes(chain, r) ==> Authorizes(chain, Stored(chain, r)) && Stored(chain, r).state == r.state
  {
  }

  // ---- Accepting engine facts ----

  predicate UniqueAttemptIds(attempts: seq<Attempt>) {
    forall i, j :: 0 <= i < j < |attempts| ==> attempts[i].id != attempts[j].id
  }

  predicate UniqueReceiptIds(receipts: seq<Receipt>) {
    forall i, j :: 0 <= i < j < |receipts| ==> receipts[i].id != receipts[j].id
  }

  predicate ReceiptFactOk(chain: Chain, r: Receipt, allowUnfinalized: bool) {
    && (r.state == Pending || r.state == Confirmed || r.state == Reorged || r.state == Failed)
    && (r.state == Pending ==> allowUnfinalized && chain != Ethereum)
    && r.actualWei >= 0
    && (chain != Ethereum && !allowUnfinalized ==> r.stage == Some(EthereumFinal))
    && (chain == Robinhood && r.stage == Some(EthereumFinal) ==> r.robinhood == Some(EthereumFinal))
  }

  predicate EngineFactsOk(
    run: RunId, chain: Chain, execs: seq<ExecId>, attempts: seq<Attempt>, receipts: seq<Receipt>, allowUnfinalized: bool)
  {
    && Distinct(execs)
    && (forall i :: 0 <= i < |attempts| ==> attempts[i].exec.run == run && attempts[i].exec in execs)
    && (forall i :: 0 <= i < |receipts| ==> receipts[i].exec.run == run && receipts[i].exec in execs)
    && UniqueAttemptIds(attempts) && UniqueReceiptIds(receipts)
    && (forall i :: 0 <= i < |receipts| ==> ReceiptFactOk(chain, receipts[i], allowUnfinalized))
  }

  /** Reconciliation derives the execution list from the facts themselves. */
  predicate UpdateFactsOk(run: RunId, chain: Chain, u: Update) {
    && (forall i :: 0 <= i < |u.attempts| ==> u.attempts[i].exec.run == run)
    && (forall i :: 0 <= i < |u.receipts| ==> u.receipts[i].exec.run == run)
    && UniqueAttemptIds(u.attempts) && UniqueReceiptIds(u.receipts)
    && (forall i :: 0 <= i < |u.receipts| ==> ReceiptFactOk(chain, u.receipts[i], true))
  }

  predicate HasReceiptFor(receipts: seq<Receipt>, e: ExecId) {
    exists k :: 0 <= k < |receipts| && receipts[k].exec == e
  }

  predicate FinalReceipt(chain: Chain, r: Receipt) {
    r.state == Confirmed && r.stage == Some(EthereumFinal) && (chain == Robinhood ==> r.robinhood == Some(EthereumFinal))
  }

  /** `seen` are the attempts of the run recorded when the pass read the state. */
  predicate Coherent(chain: Chain, seen: seq<Attempt>, u: Update) {
    && (u.outcome == OConfirmed || u.outcome == OFinal || u.outcome == OReorged ==>
          seen != [] && forall i :: 0 <= i < |seen| ==> HasReceiptFor(u.receipts, seen[i].exec))
    && (u.outcome == OFinal ==> chain != Ethereum && forall k :: 0 <= k < |u.receipts| ==> FinalReceipt(chain, u.receipts[k]))
    && (u.outcome == OConfirmed ==> chain == Ethereum && forall k :: 0 <= k < |u.receipts| ==> u.receipts[k].state == Confirmed)
    && (u.outcome == OReorged ==> forall k :: 0 <= k < |u.receipts| ==> u.receipts[k].state == Reorged)
    && (u.outcome == OFailed ==> u.attempts != [] || u.receipts != [])
  }

  // ---- Accounting ----

  datatype Verdict = Settle(actualWei: int) | Reorg(actualWei: int) | Release | Keep

  predicate Touches(attempts: seq<Attempt>, e: ExecId) {
    exists i :: 0 <= i < |attempts| && attempts[i].exec == e
  }

  predicate ReportsConfirmed(attempts: seq<Attempt>, e: ExecId) {
    exists i :: 0 <= i < |attempts| && attempts[i].exec == e && attempts[i].state == Confirmed
  }

  predicate OnlyHashlessFailures(attempts: seq<Attempt>, e: ExecId) {
    Touches(attempts, e) &&
    forall i :: 0 <= i < |attempts| && attempts[i].exec == e ==> attempts[i].state == Failed && attempts[i].hash.None?
  }

  predicate Matches(chain: Chain, r: Receipt, e: ExecId, state: FactState) {
    r.exec == e && r.state == state && (state == Reorged || Authorizes(chain, r))
  }

  function FirstReceipt(chain: Chain, receipts: seq<Receipt>, e: ExecId, state: FactState): (found: Option<Receipt>)
    ensures found.Some? ==> found.value in receipts && Matches(chain, found.value, e, state)
    ensures found.None? ==> forall k :: 0 <= k < |receipts| ==> !Matches(chain, receipts[k], e, state)
  {
    if receipts == [] then None
    else if Matches(chain, receipts[0], e, state) then Some(receipts[0])
    else
      var rest := FirstReceipt(chain, receipts[1..], e, state);
      assert forall k :: 1 <= k < |receipts| ==> receipts[k] == receipts[1..][k - 1];
      rest
  }

  function VerdictFor(chain: Chain, attempts: seq<Attempt>, receipts: seq<Receipt>, e: ExecId): Verdict {
    var confirmed := FirstReceipt(chain, receipts, e, Confirmed);
    var failed := FirstReceipt(chain, receipts, e, Failed);
    var reorged := FirstReceipt(chain, receipts, e, Reorged);
    if ReportsConfirmed(attempts, e) && confirmed.Some? then Settle(confirmed.value.actualWei)
    else if Touches(attempts, e) && failed.Some? then Settle(failed.value.actualWei)
    else if Touches(attempts, e) && reorged.Some? then Reorg(reorged.value.actualWei)
    else if OnlyHashlessFailures(attempts, e) then Release
    else Keep
  }

  predicate Applies(run: RunId, row: Row) {
    row.run == run && row.status == Reserved
  }

  predicate BadAmount(chain: Chain, attempts: seq<Attempt>, receipts: seq<Receipt>, run: RunId, row: Row) {
    Applies(run, row) &&
    var v := VerdictFor(chain, attempts, receipts, ExecId(row.run, row.wallet));
    (v.Settle? || v.Reorg?) && !(0 <= v.actualWei <= row.reservedWei)
  }

  function SettledRow(row: Row, actualWei: int, now: nat): Row
    requires 0 <= actualWei <= row.reservedWei
  {
    row.(status := Settled, amountWei := if actualWei == 0 then row.reservedWei else actualWei,
         settledWei := Some(actualWei), settledAt := Some(now))
  }

  /** One reservation after the accounting of a pass. A reorg keeps the stored exposure reserved. */
  function AccountedRow(now: nat, chain: Chain, attempts: seq<Attempt>, receipts: seq<Receipt>, run: RunId, row: Row): Row
    requires !BadAmount(chain, attempts, receipts, run, row)
  {
    if !Applies(run, row) then row
    else
      match VerdictFor(chain, attempts, receipts, ExecId(row.run, row.wallet))
      case Settle(a) => SettledRow(row, a, now)
      case Release => row.(status := Released)
      case Reorg(_) => row
      case Keep => row
  }

  predicate AnyBadAmount(chain: Chain, attempts: seq<Attempt>, receipts: seq<Receipt>, run: RunId, rows: seq<Row>) {
    exists i :: 0 <= i < |rows| && BadAmount(chain, attempts, receipts, run, rows[i])
  }

  function AccountedRows(now: nat, chain: Chain, attempts: seq<Attempt>, receipts: seq<Receipt>, run: RunId, rows: seq<Row>): seq<Row>
    requires !AnyBadAmount(chain, attempts, receipts, run, rows)
  {
    seq(|rows|, i requires 0 <= i < |rows| => AccountedRow(now, chain, attempts, receipts, run, rows[i]))
  }

  // ---- Persisting facts ----

  predicate KnownAttempt(attempts: seq<Attempt>, id: nat) {
    exists i :: 0 <= i < |attempts| && attempts[i].id == id
  }

  predicate KnownReceipt(receipts: seq<Receipt>, id: nat) {
    exists i :: 0 <= i < |receipts| && receipts[i].id == id
  }

  function FreshAttempts(known: seq<Attempt>, news: seq<Attempt>): seq<Attempt> {
    if news == [] then []
    else (if KnownAttempt(known, news[0].id) then [] else [news[0]]) + FreshAttempts(known, news[1..])
  }

  function FreshReceipts(chain: Chain, known: seq<Receipt>, news: seq<Receipt>): seq<Receipt> {
    if news == [] then []
    else (if KnownReceipt(known, news[0].id) then [] else [Stored(chain, news[0])]) + FreshReceipts(chain, known, news[1..])
  }

  function MoveExec(execs: map<ExecId, Execution>, e: ExecId, target: FactState): map<ExecId, Execution> {
    if e in execs && execs[e].state != Aborted then execs[e := execs[e].(state := target)] else execs
  }

  function MoveByAttempts(execs: map<ExecId, Execution>, attempts: seq<Attempt>): map<ExecId, Execution> {
    if attempts == [] then execs
    else
      var a := attempts[0];
      MoveByAttempts(
        if a.replacement then execs else MoveExec(execs, a.exec, if a.state == Pending then Submitted else a.state), attempts[1..])
  }

  function MoveByReceipts(execs: map<ExecId, Execution>, receipts: seq<Receipt>): map<ExecId, Execution> {
    if receipts == [] then execs
    else
      var r := receipts[0];
      MoveByReceipts(MoveExec(execs, r.exec, if r.state == Pending then Submitted else r.state), receipts[1..])
  }

  predicate Linked(attempts: seq<Attempt>, r: Receipt) {
    exists i :: 0 <= i < |attempts| && attempts[i].id == r.attempt && attempts[i].exec == r.exec && attempts[i].hash.Some?
  }

  /** Appends the facts not stored yet. Every new attempt needs its execution, every new receipt its submitted attempt. */
  function AddFacts(db: Db, chain: Chain, attempts: seq<Attempt>, receipts: seq<Receipt>): Result<Db> {
    var newAttempts := FreshAttempts(db.attempts, attempts);
    var newReceipts := FreshReceipts(chain, db.receipts, receipts);
    var all := db.attempts + newAttempts;
    if exists i :: 0 <= i < |newAttempts| && newAttempts[i].exec !in db.execs then Err("TRANSACTION_INTENT_REQUIRED")
    else if exists k :: 0 <= k < |newReceipts| && !Linked(all, newReceipts[k]) then Err("RECEIPT_PERSISTENCE_FACTS_REQUIRED")
    else Ok(db.(attempts := all, receipts := db.receipts + newReceipts,
                execs := MoveByReceipts(MoveByAttempts(db.execs, newAttempts), newReceipts)))
  }

  function WithState(runs: map<RunId, Run>, run: RunId, state: RunState): map<RunId, Run>
    requires run in runs
  {
    runs[run := runs[run].(state := state)]
  }

  // ---- Transactions of the coordinator ----

  predicate Allowed(from: RunState, to: RunState) {
    match from
    case Armed => to == Active || to == RunAborted || to == RunFailed
    case Active => to == Completed || to == RunFailed || to == RunAborted
    case Completed => to == RunFailed
    case _ => false
  }

  function ReconciledState(state: RunState, chain: Chain, outcome: Outcome): RunState {
    if state == RunAborted then RunAborted
    else if (outcome == OConfirmed && chain == Ethereum) || outcome == OFinal then
      (if state == Armed || state == Active then Completed else state)
    else if outcome == OSoft || outcome == OPosted then (if state == Armed then Active else state)
    else if outcome == OFailed || outcome == OReorged then RunFailed
    else state
  }

  function Reconcile(db: Db, run: RunId, seen: seq<Attempt>, u: Update): Result<Db> {
    if run !in db.runs then Err("RUN_NOT_FOUND")
    else
      var chain := db.runs[run].campaign.chain;
      if !UpdateFactsOk(run, chain, u) then Err("INVALID_ENGINE_EXECUTION_FACTS")
      else if !Coherent(chain, seen, u) then Err("INVALID_FINALITY_COHERENCE")
      else if AnyBadAmount(chain, u.attempts, u.receipts, run, db.rows) then Err("INVALID_SETTLEMENT_AMOUNT")
      else
        match AddFacts(db, chain, u.attempts, u.receipts)
        case Err(e) => Err(e)
        case Ok(next) =>
          Ok(next.(log := db.log + [LogEntry(run, u.outcome, db.now)],
                   runs := WithState(db.runs, run, ReconciledState(db.runs[run].state, chain, u.outcome)),
                   rows := AccountedRows(db.now, chain, u.attempts, u.receipts, run, db.rows)))
  }

  /** The state an execution result moves its run to; `None` is the transition error that rolls everything back. */
  function ExecutedState(state: RunState, chain: Chain, result: FactState, killedSeen: bool): Option<RunState> {
    if killedSeen && state == Active then Some(RunAborted)
    else if result == Failed then (if state == RunFailed || Allowed(state, RunFailed) then Some(RunFailed) else None)
    else if result == Aborted && state == Active then Some(RunAborted)
    else if result == Confirmed && chain == Ethereum then
      (if state == Completed || Allowed(state, Completed) then Some(Completed) else None)
    else Some(state)
  }

  function RecordFacts(db: Db, run: RunId, result: ExecResult, killedSeen: bool): Result<Db> {
    if run !in db.runs then Err("RUN_NOT_FOUND")
    else
      var chain := db.runs[run].campaign.chain;
      var state := ExecutedState(db.runs[run].state, chain, result.state, killedSeen);
      if !EngineFactsOk(run, chain, result.execs, result.attempts, result.receipts, false) then Err("INVALID_ENGINE_EXECUTION_FACTS")
      else if state.None? then Err("INVALID_RUN_TRANSITION")
      else if AnyBadAmount(chain, result.attempts, result.receipts, run, db.rows) then Err("INVALID_SETTLEMENT_AMOUNT")
      else
        match AddFacts(db, chain, result.attempts, result.receipts)
        case Err(e) => Err(e)
        case Ok(next) =>
          Ok(next.(facts := db.facts + {run},
                   runs := WithState(db.runs, run, state.value),
                   rows := AccountedRows(db.now, chain, result.attempts, result.receipts, run, db.rows)))
  }

  predicate HasHash(attempts: seq<Attempt>, e: ExecId) {
    exists i :: 0 <= i < |attempts| && attempts[i].exec == e && attempts[i].hash.Some?
  }

  /** The executions a kill stops: still open, and with no hash-bearing attempt. */
  predicate Stoppable(db: Db, e: ExecId) {
    e in db.execs && db.execs[e].state in {Prepared, Signed, Submitted, Pending} && !HasHash(db.attempts, e)
  }

  function ReleaseIf(row: Row, freed: bool): Row {
    if freed && row.status == Reserved then row.(status := Released) else row
  }

  function AbortRemaining(db: Db): Db {
    db.(execs := map e | e in db.execs :: if Stoppable(db, e) then db.execs[e].(state := Aborted) else db.execs[e],
        rows := seq(|db.rows|, i requires 0 <= i < |db.rows| =>
                      ReleaseIf(db.rows[i], Stoppable(db, ExecId(db.rows[i].run, db.rows[i].wallet)))),
        runs := map r | r in db.runs :: if db.runs[r].state in {Armed, Active} then db.runs[r].(state := RunAborted) else db.runs[r])
  }

  predicate ProvablyUnsent(db: Db, run: RunId) {
    forall e :: e in db.execs && e.run == run ==> db.execs[e].state in {Prepared, Aborted} && !Touches(db.attempts, e)
  }

  function CloseUnsent(db: Db, run: RunId): Result<Db> {
    if run !in db.runs || db.runs[run].state !in {Armed, Active} then Err("absent")
    else if !ProvablyUnsent(db, run) then Err("left")
    else
      Ok(db.(execs := map e | e in db.execs :: if e.run == run then db.execs[e].(state := Aborted) else db.execs[e],
             rows := seq(|db.rows|, i requires 0 <= i < |db.rows| =>
                           ReleaseIf(db.rows[i], ExecId(db.rows[i].run, db.rows[i].wallet) in db.execs && db.rows[i].run == run)),
             runs := WithState(db.runs, run, RunAborted)))
  }

  /** Settling outside a reconciliation pass: only a reserved row, only within its reservation. */
  predicate MaySettle(row: Row, actualWei: int) {
    row.status == Reserved && 0 <= actualWei <= row.reservedWei
  }
}
