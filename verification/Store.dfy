/**
 * The canonical store as the source runs it: tables updated in place inside a transaction, loop by loop, with a rollback
 * when anything throws. Each method is tied to the transaction function the step machine uses.
 */
module Store {
  import opened Basics
  import opened Ledger
  import opened Coordinator

  /** The set-oriented update that frees the reservation of one execution. */
  function ReleaseExec(rows: seq<Row>, e: ExecId): seq<Row> {
    seq(|rows|, i requires 0 <= i < |rows| => ReleaseIf(rows[i], ExecId(rows[i].run, rows[i].wallet) == e))
  }

  /** A kill that has worked through the executions in `done`. */
  ghost function StoppedIn(db: Db, done: set<ExecId>): Db {
    db.(execs := map e | e in db.execs :: if e in done && Stoppable(db, e) then db.execs[e].(state := Aborted) else db.execs[e],
        rows := seq(|db.rows|, i requires 0 <= i < |db.rows| =>
                      var e := ExecId(db.rows[i].run, db.rows[i].wallet);
                      ReleaseIf(db.rows[i], e in done && Stoppable(db, e))))
  }

  lemma StopNone(db: Db)
    ensures StoppedIn(db, {}) == db
  {
    assert StoppedIn(db, {}).rows == db.rows;
    assert StoppedIn(db, {}).execs == db.execs;
  }

  /** The work of a kill on one execution. */
  function StopOne(s: Db, e: ExecId): Db {
    if Stoppable(s, e) then s.(execs := s.execs[e := s.execs[e].(state := Aborted)], rows := ReleaseExec(s.rows, e)) else s
  }

  lemma StopNext(db: Db, done: set<ExecId>, e: ExecId)
    requires e in db.execs && e !in done
    ensures StoppedIn(db, done + {e}) == StopOne(StoppedIn(db, done), e)
  {
    var s, t := StoppedIn(db, done), StoppedIn(db, done + {e});
    assert Stoppable(s, e) == Stoppable(db, e);
    if Stoppable(db, e) {
      assert t.rows == ReleaseExec(s.rows, e);
      assert t.execs == s.execs[e := s.execs[e].(state := Aborted)];
    } else {
      assert t.rows == s.rows;
      assert t.execs == s.execs;
    }
  }

  lemma StopEvery(db: Db)
    ensures StoppedIn(db, db.execs.Keys).execs == AbortRemaining(db).execs
    ensures StoppedIn(db, db.execs.Keys).rows == AbortRemaining(db).rows
  {
  }

  /** Where an admission stands with wallet `i` next in line. */
  lemma AdmitAt(cfg: Config, p: Progress, run: RunId, c: Campaign, wallets: seq<Address>, i: nat)
    requires Exposure(c) > 0 && i < |wallets|
    ensures AdmitWallets(cfg, p, run, c, wallets[i..]) ==
            match AdmitWallet(cfg, p, run, c, wallets[i])
            case Err(e) => Err(e)
            case Ok(next) => AdmitWallets(cfg, next, run, c, wallets[i + 1..])
  {
    assert wallets[i..][1..] == wallets[i + 1..];
  }

  class CanonicalStore {
    var now: nat
    var killed: bool
    var watermark: Option<nat>
    var runs: map<RunId, Run>
    var facts: set<RunId>
    var execs: map<ExecId, Execution>
    var rows: seq<Row>
    var attempts: seq<Attempt>
    var receipts: seq<Receipt>
    var log: seq<LogEntry>

    function Tables(): Db
      reads this
    {
      Db(now, killed, watermark, runs, facts, execs, rows, attempts, receipts, log)
    }

    constructor ()
      ensures Tables() == Db(0, false, None, map[], {}, map[], [], [], [], [])
    {
      now, killed, watermark := 0, false, None;
      runs, facts, execs, rows, attempts, receipts, log := map[], {}, map[], [], [], [], [];
    }

    /** ROLLBACK: the tables a transaction may have touched go back to where it began. */
    method Rollback(begin: Db)
      requires begin.now == now && begin.killed == killed && begin.facts == facts && begin.log == log
      requires begin.attempts == attempts && begin.receipts == receipts
      modifies this
      ensures Tables() == begin
    {
      watermark, runs, execs, rows := begin.watermark, begin.runs, begin.execs, begin.rows;
    }

    /** Records the execution of one wallet and inserts its reservation, unless a cap or an earlier use forbids it. */
    method AdmitOne(cfg: Config, run: RunId, c: Campaign, w: Address, total: int) returns (thrown: Option<string>, next: int)
      requires Exposure(c) > 0
      modifies this`execs, this`rows
      ensures match AdmitWallet(cfg, Progress(old(Tables()), total), run, c, w)
              case Ok(p) => thrown == None && Tables() == p.db && next == p.total
              case Err(e) => thrown == Some(e)
    {
      next := total;
      if HasReleasedRow(rows, run, w) {
        return Some("RESERVATION_IDEMPOTENCY_REPLAY"), total;
      }
      var e := ExecId(run, w);
      if e !in execs {
        if CampaignWalletUsed(execs, c.id, w) {
          return Some("CAMPAIGN_WALLET_ALREADY_USED"), total;
        }
        execs := execs[e := Execution(c.id, Prepared)];
      }
      if !HasRow(rows, run, w) {
        thrown := CapError(cfg, Tables(), c, w, total);
        if thrown.Some? {
          return;
        }
        rows := rows + [NewRow(Tables(), run, c, w)];
        next := total + Exposure(c);
      }
      thrown := None;
    }

    /** Admits every wallet of the fleet, inserting row by row, or throws and leaves nothing behind. */
    method AdmitExecution(cfg: Config, run: RunId, copy: Run, wallets: seq<Address>, enabled: bool) returns (thrown: Option<string>)
      modifies this
      ensures match Admit(cfg, old(Tables()), run, copy, wallets, enabled)
              case Ok(db) => thrown == None && Tables() == db
              case Err(e) => thrown == Some(e) && Tables() == old(Tables())
    {
      var begin := Tables();
      var c := copy.campaign;
      thrown := AdmissionError(cfg, begin, run, copy, wallets, enabled);
      if thrown.Some? {
        return;
      }
      var total: int := Sum(RunTotal(run), rows);
      ghost var want := AdmitWallets(cfg, Progress(begin, total), run, c, wallets);
      var i := 0;
      assert wallets[0..] == wallets;
      while i < |wallets|
        invariant 0 <= i <= |wallets|
        invariant Tables() == begin.(execs := execs, rows := rows)
        invariant AdmitWallets(cfg, Progress(Tables(), total), run, c, wallets[i..]) == want
      {
        AdmitAt(cfg, Progress(Tables(), total), run, c, wallets, i);
        thrown, total := AdmitOne(cfg, run, c, wallets[i], total);
        if thrown.Some? {
          Rollback(begin);
          return;
        }
        i := i + 1;
      }
      assert wallets[i..] == [];
      runs := runs[run := runs[run].(state := Active)];
      watermark := Watermark(begin, copy.mode);
      return None;
    }

    /** Accounts one pass over the reservations of a run; an impossible amount throws and rolls the pass back. */
    method ApplyAccounting(run: RunId, chain: Chain, seenAttempts: seq<Attempt>, seenReceipts: seq<Receipt>) returns (ok: bool)
      modifies this`rows
      ensures ok == !AnyBadAmount(chain, seenAttempts, seenReceipts, run, old(rows))
      ensures ok ==> rows == AccountedRows(now, chain, seenAttempts, seenReceipts, run, old(rows))
      ensures !ok ==> rows == old(rows)
    {
      var begin := rows;
      var i := 0;
      while i < |rows|
        invariant 0 <= i <= |rows| == |begin|
        invariant forall k :: 0 <= k < i ==>
          !BadAmount(chain, seenAttempts, seenReceipts, run, begin[k]) &&
          rows[k] == AccountedRow(now, chain, seenAttempts, seenReceipts, run, begin[k])
        invariant forall k :: i <= k < |rows| ==> rows[k] == begin[k]
      {
        var row := rows[i];
        if row.run == run && row.status == Reserved {
          var verdict := VerdictFor(chain, seenAttempts, seenReceipts, ExecId(row.run, row.wallet));
          if (verdict.Settle? || verdict.Reorg?) && (verdict.actualWei < 0 || verdict.actualWei > row.reservedWei) {
            assert BadAmount(chain, seenAttempts, seenReceipts, run, begin[i]);
            rows := begin;
            return false;
          }
          if verdict.Settle? {
            rows := rows[i := SettledRow(row, verdict.actualWei, now)];
          } else if verdict.Release? {
            rows := rows[i := row.(status := Released)];
          }
        }
        i := i + 1;
      }
      return true;
    }

    method AbortOne(e: ExecId)
      modifies this`execs, this`rows
      ensures Tables() == StopOne(old(Tables()), e)
    {
      if e in execs && execs[e].state in {Prepared, Signed, Submitted, Pending} && !HasHash(attempts, e) {
        execs := execs[e := execs[e].(state := Aborted)];
        rows := ReleaseExec(rows, e);
      }
    }

    /** Engaging the kill switch: open executions that cannot have been sent are aborted and their money is freed. */
    method AbortAll()
      modifies this
      ensures Tables() == AbortRemaining(old(Tables()))
    {
      var begin := Tables();
      var todo := execs.Keys;
      assert begin == StoppedIn(begin, {}) by { StopNone(begin); }
      while todo != {}
        invariant todo <= begin.execs.Keys
        invariant Tables() == StoppedIn(begin, begin.execs.Keys - todo)
        decreases |todo|
      {
        var e :| e in todo;
        StopNext(begin, begin.execs.Keys - todo, e);
        AbortOne(e);
        assert begin.execs.Keys - (todo - {e}) == (begin.execs.Keys - todo) + {e};
        todo := todo - {e};
      }
      assert begin.execs.Keys - {} == begin.execs.Keys;
      StopEvery(begin);
      runs := map r | r in runs :: if runs[r].state in {Armed, Active} then runs[r].(state := RunAborted) else runs[r];
    }

    /** Appends the attempts whose id is not stored yet, in the order they were reported. */
    method PushAttempts(reported: seq<Attempt>)
      modifies this`attempts
      ensures attempts == old(attempts) + FreshAttempts(old(attempts), reported)
    {
      var stored := attempts;
      var i := 0;
      assert reported[0..] == reported;
      while i < |reported|
        invariant 0 <= i <= |reported|
        invariant stored + FreshAttempts(stored, reported) == attempts + FreshAttempts(stored, reported[i..])
      {
        assert reported[i..][0] == reported[i] && reported[i..][1..] == reported[i + 1..];
        if !KnownAttempt(stored, reported[i].id) {
          attempts := attempts + [reported[i]];
        }
        i := i + 1;
      }
      assert reported[i..] == [];
    }
  }
}
