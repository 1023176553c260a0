/** Runs that are admitted more than once: who can come back, when, and what a second admission of a sent run does. */
module Reruns {
  import opened Basics
  import opened Ledger
  import opened Coordinator
  import opened Kernel
  import opened Safety
  import opened Results
  import opened Fleet
  import opened Admissions

  predicate Ended(s: RunState) {
    s in {Completed, RunFailed, RunAborted}
  }

  // ---- Ended runs ----

  /** The guard under which a process that read the run while it was armed brings the ended run back. */
  ghost predicate Revives(cfg: Config, w: World, step: Step, run: RunId) {
    && step.AdmitFleet? && step.p in w.locals && w.locals[step.p].Reading? && w.locals[step.p].run == run
    && run in w.db.runs && Ended(w.db.runs[run].state)
    && MayAdmit(cfg, w, step.p, step.wallets, step.enabled)
  }

  lemma RevivesIsStale(cfg: Config, w: World, step: Step, run: RunId)
    requires Sound(cfg, w)
    ensures Revives(cfg, w, step, run) <==> StaleAdmission(cfg, w, step, run)
  {
    if step.AdmitFleet? {
      AdmitsExactly(cfg, w, step.p, step.wallets, step.enabled);
    }
  }

  /**
   * In every reachable world a run follows the transition relation downwards, and an ended run climbs back if and only if
   * the guard holds: a copy read while the run was armed, the batch-wide checks, and a fleet that either was never
   * reserved and fits all caps now, or is still reserved or settled as a whole.
   */
  lemma RevivedExactly(cfg: Config, steps: seq<Step>, step: Step, run: RunId)
    requires ValidConfig(cfg) && run in After(cfg, steps).db.runs
    ensures var w := After(cfg, steps);
            && run in Apply(cfg, w, step).db.runs
            && Lifecycle(Revives(cfg, w, step, run), w.db.runs[run].state, Apply(cfg, w, step).db.runs[run].state)
  {
    SoundAlways(cfg, steps);
    RevivesIsStale(cfg, After(cfg, steps), step, run);
    RunLifecycle(cfg, After(cfg, steps), step, run);
  }

  lemma AtSound(cfg: Config, steps: seq<Step>, k: nat)
    requires ValidConfig(cfg) && k <= |steps|
    ensures Sound(cfg, At(cfg, steps, k))
  {
    SoundAlways(cfg, steps[..k]);
  }

  /** Without revivals a run changes state at most three times, along legal moves, however long the history is. */
  lemma BoundedRuns(cfg: Config, steps: seq<Step>, j: nat, k: nat, run: RunId)
    requires ValidConfig(cfg) && j <= k <= |steps| && run in At(cfg, steps, j).db.runs
    requires forall m :: j <= m < k ==> !Revives(cfg, At(cfg, steps, m), steps[m], run)
    ensures Changes(History(cfg, steps, run), j, k) <= 3
    ensures forall m :: j <= m < k ==> DownAt(History(cfg, steps, run), m)
  {
    forall m | j <= m < k ensures !StaleAdmission(cfg, At(cfg, steps, m), steps[m], run) {
      AtSound(cfg, steps, m);
      RevivesIsStale(cfg, At(cfg, steps, m), steps[m], run);
    }
    BoundedLifecycle(cfg, steps, j, k, run);
  }

  // ---- A released reservation ends its run for good ----

  /** One released reservation of the run refuses every further admission of it. */
  lemma ReleasedRefuses(cfg: Config, w: World, p: Proc, wallets: seq<Address>, enabled: bool, i: nat)
    requires Sound(cfg, w) && i < |w.db.rows| && w.db.rows[i].status == Released
    requires p in w.locals && w.locals[p].Reading? && w.locals[p].run == w.db.rows[i].run
    ensures !MayAdmit(cfg, w, p, wallets, enabled)
  {
    var row := w.db.rows[i];
    if Asks(cfg, w, p, wallets, enabled) {
      AsksFacts(cfg, w, p, wallets, enabled);
      SameFleet(wallets, w.locals[p].copy.wallets);
      assert InFleet(w.db, row);
      assert row.wallet in ToSet(wallets);
      assert HasAnyRow(w.db.rows, row.run) && HasReleasedRow(w.db.rows, row.run, row.wallet);
    }
  }

  lemma ReleasedAt(cfg: Config, steps: seq<Step>, j: nat, k: nat, i: nat)
    requires j <= k <= |steps| && i < |At(cfg, steps, j).db.rows| && At(cfg, steps, j).db.rows[i].status == Released
    ensures i < |At(cfg, steps, k).db.rows| && At(cfg, steps, k).db.rows[i] == At(cfg, steps, j).db.rows[i]
  {
    RowsContinue(cfg, steps, j, k, i);
  }

  /**
   * Once one reservation of a run has been released, no admission of the run ever commits again, in any history; from
   * then on the run only moves down, and a failed or aborted one stays what it is.
   */
  lemma ReleasedNeverRevived(cfg: Config, steps: seq<Step>, j: nat, k: nat, i: nat)
    requires ValidConfig(cfg) && j <= k < |steps| && i < |At(cfg, steps, j).db.rows| && At(cfg, steps, j).db.rows[i].status == Released
    ensures var w, run := At(cfg, steps, k), At(cfg, steps, j).db.rows[i].run;
            && (steps[k].AdmitFleet? && AdmitStep(cfg, w, steps[k].p, steps[k].wallets, steps[k].enabled).Ok? ==> w.locals[steps[k].p].run != run)
            && !Revives(cfg, w, steps[k], run)
  {
    var w, run := At(cfg, steps, k), At(cfg, steps, j).db.rows[i].run;
    AtSound(cfg, steps, k);
    ReleasedAt(cfg, steps, j, k, i);
    if steps[k].AdmitFleet? {
      AdmitsExactly(cfg, w, steps[k].p, steps[k].wallets, steps[k].enabled);
      if steps[k].p in w.locals && w.locals[steps[k].p].Reading? && w.locals[steps[k].p].run == run {
        ReleasedRefuses(cfg, w, steps[k].p, steps[k].wallets, steps[k].enabled, i);
      }
    }
  }

  ghost predicate Final(s: RunState) {
    s == RunFailed || s == RunAborted
  }

  /** Along moves that only go down, a failed or aborted state is kept. */
  lemma {:induction false} FinalStays(f: nat -> RunState, j: nat, k: nat)
    requires j <= k && Final(f(j)) && forall m :: j <= m < k ==> DownAt(f, m)
    ensures f(k) == f(j)
    decreases k
  {
    if j < k {
      FinalStays(f, j, k - 1);
      assert DownAt(f, k - 1);
    }
  }

  /** A run that failed or was aborted with a released reservation, as every close after an admission leaves it, stays so. */
  lemma ReleasedRunStaysEnded(cfg: Config, steps: seq<Step>, j: nat, k: nat, i: nat)
    requires ValidConfig(cfg) && j <= k <= |steps| && i < |At(cfg, steps, j).db.rows| && At(cfg, steps, j).db.rows[i].status == Released
    requires Final(History(cfg, steps, At(cfg, steps, j).db.rows[i].run)(j))
    ensures var h := History(cfg, steps, At(cfg, steps, j).db.rows[i].run); h(k) == h(j)
  {
    var run := At(cfg, steps, j).db.rows[i].run;
    forall m | j <= m < k ensures !Revives(cfg, At(cfg, steps, m), steps[m], run) {
      ReleasedNeverRevived(cfg, steps, j, m, i);
    }
    BoundedRuns(cfg, steps, j, k, run);
    FinalStays(History(cfg, steps, run), j, k);
  }

  // ---- Runs that have sent something ----

  ghost predicate Sent(db: Db, run: RunId) {
    exists i :: 0 <= i < |db.attempts| && db.attempts[i].exec.run == run && db.attempts[i].hash.Some?
  }

  lemma SentHasRows(cfg: Config, w: World, run: RunId)
    requires Sound(cfg, w) && Sent(w.db, run)
    ensures HasAnyRow(w.db.rows, run)
  {
    var i :| 0 <= i < |w.db.attempts| && w.db.attempts[i].exec.run == run && w.db.attempts[i].hash.Some?;
    var e := w.db.attempts[i].exec;
    assert Tied(w.db, e);
    var k :| 0 <= k < |w.db.rows| && Keyed(w.db.rows[k], e.run, e.wallet);
    assert w.db.rows[k].run == run;
  }

  /** An admission of a fleet that has its reservations writes the run state and the clock, and nothing else. */
  lemma ReservesNothing(cfg: Config, w: World, p: Proc, wallets: seq<Address>, enabled: bool)
    requires Sound(cfg, w) && AdmitStep(cfg, w, p, wallets, enabled).Ok? && HasAnyRow(w.db.rows, w.locals[p].run)
    ensures AdmitStep(cfg, w, p, wallets, enabled).value ==
            w.db.(runs := WithState(w.db.runs, w.locals[p].run, Active), watermark := Watermark(w.db, Live))
  {
    var run := w.locals[p].run;
    CommitAsks(cfg, w, p, wallets, enabled);
    AsksFacts(cfg, w, p, wallets, enabled);
    forall x | x in wallets ensures Standing(w.db, run, x) { FleetStanding(cfg, w, run, x); }
    ReadmitsExactly(cfg, Progress(w.db, Sum(RunTotal(run), w.db.rows)), run, w.locals[p].copy.campaign, wallets);
  }

  /**
   * Exactly when a run that has already sent something is admitted again, so that a second process goes on to run the
   * engine for it: the process holds a copy read while the run was armed, the batch-wide checks pass, and no reservation
   * of the fleet was released. The second admission reserves nothing.
   */
  lemma SentRunAdmittedExactly(cfg: Config, steps: seq<Step>, p: Proc, wallets: seq<Address>, enabled: bool)
    requires ValidConfig(cfg)
    requires var w := After(cfg, steps); p in w.locals && w.locals[p].Reading? && Sent(w.db, w.locals[p].run)
    ensures var w := After(cfg, steps);
            && (AdmitStep(cfg, w, p, wallets, enabled).Ok? <==>
                  Asks(cfg, w, p, wallets, enabled) && NoneReleased(w.db, w.locals[p].run, wallets))
            && (AdmitStep(cfg, w, p, wallets, enabled).Ok? ==>
                  AdmitStep(cfg, w, p, wallets, enabled).value ==
                  w.db.(runs := WithState(w.db.runs, w.locals[p].run, Active), watermark := Watermark(w.db, Live)))
  {
    var w := After(cfg, steps);
    SoundAlways(cfg, steps);
    SentHasRows(cfg, w, w.locals[p].run);
    AdmitsExactly(cfg, w, p, wallets, enabled);
    if AdmitStep(cfg, w, p, wallets, enabled).Ok? { ReservesNothing(cfg, w, p, wallets, enabled); }
  }

  // ---- Where a copy comes from ----

  /** Process `p` still holds, after `m` steps, the copy it read of the run. */
  ghost predicate Holds(cfg: Config, steps: seq<Step>, p: Proc, run: RunId, m: nat) {
    && m <= |steps| && p in At(cfg, steps, m).locals && At(cfg, steps, m).locals[p].Reading?
    && At(cfg, steps, m).locals[p].run == run
  }

  /** Without reading again, a process can only have held its copy before. */
  lemma HeldBefore(cfg: Config, steps: seq<Step>, p: Proc, run: RunId, k: nat)
    requires k < |steps| && Holds(cfg, steps, p, run, k + 1)
    ensures Holds(cfg, steps, p, run, k) ||
            (steps[k] == StartExecute(p, run) && MayStart(At(cfg, steps, k).db, run))
  {
    AtStep(cfg, steps, k);
  }

  lemma NothingHeld(cfg: Config, steps: seq<Step>, p: Proc, run: RunId)
    ensures !Holds(cfg, steps, p, run, 0)
  {
    assert steps[..0] == [];
  }

  /** A held copy was read at an earlier step, while the run was armed and had no attempt, and was held ever since. */
  lemma {:induction false} ReadWhileArmed(cfg: Config, steps: seq<Step>, p: Proc, run: RunId, k: nat) returns (j: nat)
    requires k <= |steps| && Holds(cfg, steps, p, run, k)
    ensures j < k && steps[j] == StartExecute(p, run) && MayStart(At(cfg, steps, j).db, run)
    ensures forall m :: j < m <= k ==> Holds(cfg, steps, p, run, m)
    decreases k
  {
    NothingHeld(cfg, steps, p, run);
    if steps[k - 1] == StartExecute(p, run) && MayStart(At(cfg, steps, k - 1).db, run) {
      j := k - 1;
    } else {
      HeldBefore(cfg, steps, p, run, k - 1);
      j := ReadWhileArmed(cfg, steps, p, run, k - 1);
    }
  }

  /** The admission of `run` by the process of step `k` commits. */
  ghost predicate Admits(cfg: Config, steps: seq<Step>, k: nat, run: RunId) {
    && k < |steps| && steps[k].AdmitFleet?
    && AdmitStep(cfg, At(cfg, steps, k), steps[k].p, steps[k].wallets, steps[k].enabled).Ok?
    && At(cfg, steps, k).locals[steps[k].p].run == run
  }

  lemma AdmitsHolds(cfg: Config, steps: seq<Step>, k: nat, run: RunId)
    requires Admits(cfg, steps, k, run)
    ensures Holds(cfg, steps, steps[k].p, run, k) && !Holds(cfg, steps, steps[k].p, run, k + 1)
    ensures LeftArmed(cfg, steps, k + 1, run)
  {
    var w := At(cfg, steps, k);
    AtStep(cfg, steps, k);
    AdmitShape(cfg, w.db, w.locals[steps[k].p].run, w.locals[steps[k].p].copy, steps[k].wallets, steps[k].enabled);
  }

  ghost predicate LeftArmed(cfg: Config, steps: seq<Step>, m: nat, run: RunId) {
    m <= |steps| && run in At(cfg, steps, m).db.runs && At(cfg, steps, m).db.runs[run].state != Armed
  }

  lemma NotArmedStep(cfg: Config, w: World, step: Step, run: RunId)
    requires run in w.db.runs && w.db.runs[run].state != Armed
    ensures run in Apply(cfg, w, step).db.runs && Apply(cfg, w, step).db.runs[run].state != Armed
  {
    StateStep(cfg, w, step, run);
    NextState(cfg, w, step, run);
  }

  lemma StillLeft(cfg: Config, steps: seq<Step>, k: nat, run: RunId)
    requires k < |steps| && LeftArmed(cfg, steps, k, run)
    ensures LeftArmed(cfg, steps, k + 1, run)
  {
    AtStep(cfg, steps, k);
    NotArmedStep(cfg, At(cfg, steps, k), steps[k], run);
  }

  /** A run that has left `Armed` is never armed again. */
  lemma {:induction false} NeverArmedAgain(cfg: Config, steps: seq<Step>, j: nat, k: nat, run: RunId)
    requires j <= k <= |steps| && LeftArmed(cfg, steps, j, run)
    ensures LeftArmed(cfg, steps, k, run)
    decreases k
  {
    if j < k {
      NeverArmedAgain(cfg, steps, j, k - 1, run);
      StillLeft(cfg, steps, k - 1, run);
    }
  }

  /**
   * A run is admitted a second time only by another process that read it before the first admission committed: of the
   * processes that read an armed run after it was first admitted, there is none. So without overlapping readers the
   * engine is started at most once for a run, in any history.
   */
  lemma SecondAdmissionOverlaps(cfg: Config, steps: seq<Step>, k1: nat, k2: nat, run: RunId) returns (j: nat)
    requires k1 < k2 && Admits(cfg, steps, k1, run) && Admits(cfg, steps, k2, run)
    ensures j < k1 && steps[j] == StartExecute(steps[k2].p, run) && MayStart(At(cfg, steps, j).db, run)
    ensures steps[k1].p != steps[k2].p
    ensures Holds(cfg, steps, steps[k2].p, run, k1)
  {
    AdmitsHolds(cfg, steps, k1, run);
    AdmitsHolds(cfg, steps, k2, run);
    j := ReadWhileArmed(cfg, steps, steps[k2].p, run, k2);
    if j > k1 {
      NeverArmedAgain(cfg, steps, k1 + 1, j, run);
    }
    assert j != k1;
    assert Holds(cfg, steps, steps[k2].p, run, k1 + 1);
  }

  /** An admission after something was sent used a copy read when the run had no attempt at all. */
  lemma SentRunWasReadEarlier(cfg: Config, steps: seq<Step>, k: nat, run: RunId) returns (j: nat)
    requires Admits(cfg, steps, k, run) && Sent(At(cfg, steps, k).db, run)
    ensures j < k && steps[j] == StartExecute(steps[k].p, run) && AttemptsOf(At(cfg, steps, j).db.attempts, run) == []
  {
    AdmitsHolds(cfg, steps, k, run);
    j := ReadWhileArmed(cfg, steps, steps[k].p, run, k);
  }

  // ---- It does happen ----

  const SENT := Attempt(1, ExecId(7, 3), Some(99), Submitted, false)
  const SAMPLE_ROW := Row(7, 3, 1, Ethereum, 5, 5, Some(0), Reserved, 0, None, None)

  /** Two processes read the armed run, the first is admitted and sends, and then the second is admitted. */
  ghost function RaceSteps(): seq<Step> {
    [Arm(7, SAMPLE, Live, [3]), StartExecute(0, 7), StartExecute(1, 7), AdmitFleet(0, [3], true), EngineAttempt(SENT), AdmitFleet(1, [3], true)]
  }

  lemma BothRead(cfg: Config)
    requires cfg == SampleConfig()
    ensures At(cfg, RaceSteps(), 3) ==
            World(Initial().db.(runs := map[7 := SAMPLE_RUN]), map[0 := Reading(7, SAMPLE_RUN), 1 := Reading(7, SAMPLE_RUN)])
  {
    var steps := RaceSteps();
    assert steps[..0] == [];
    AtStep(cfg, steps, 0);
    assert At(cfg, steps, 1) == World(Initial().db.(runs := map[7 := SAMPLE_RUN]), map[]);
    AtStep(cfg, steps, 1);
    assert At(cfg, steps, 2) == World(Initial().db.(runs := map[7 := SAMPLE_RUN]), map[0 := Reading(7, SAMPLE_RUN)]);
    AtStep(cfg, steps, 2);
  }

  lemma FirstAdmitted(cfg: Config)
    requires cfg == SampleConfig()
    ensures var w := At(cfg, RaceSteps(), 4);
            && w.db.rows == [SAMPLE_ROW] && w.db.runs == map[7 := SAMPLE_RUN.(state := Active)]
            && ExecId(7, 3) in w.db.execs && w.db.attempts == [] && w.db.receipts == [] && w.db.now == 0 && !w.db.killed
            && w.db.watermark == Some(0)
            && w.locals == map[0 := Admitted(7), 1 := Reading(7, SAMPLE_RUN)]
  {
    BothRead(cfg);
    AtStep(cfg, RaceSteps(), 3);
    FirstAdmits(cfg, At(cfg, RaceSteps(), 3));
  }

  lemma FirstAdmits(cfg: Config, w: World)
    requires cfg == SampleConfig() && w.db == Initial().db.(runs := map[7 := SAMPLE_RUN]) && 0 in w.locals && w.locals[0] == Reading(7, SAMPLE_RUN)
    ensures AdmitStep(cfg, w, 0, [3], true).Ok?
    ensures var db := AdmitStep(cfg, w, 0, [3], true).value;
            && db.rows == [SAMPLE_ROW] && db.runs == map[7 := SAMPLE_RUN.(state := Active)] && ExecId(7, 3) in db.execs
            && db.attempts == [] && db.receipts == [] && db.now == 0 && !db.killed && db.watermark == Some(0)
  {
    SampleAdmits(cfg, w.db, SAMPLE_RUN);
    AdmitShape(cfg, w.db, 7, SAMPLE_RUN, [3], true);
    assert [3][1..] == [];
  }

  lemma FirstSends(cfg: Config)
    requires cfg == SampleConfig()
    ensures var w := At(cfg, RaceSteps(), 5);
            && w.db.rows == [SAMPLE_ROW] && w.db.runs == map[7 := SAMPLE_RUN.(state := Active)]
            && ExecId(7, 3) in w.db.execs && w.db.attempts == [SENT] && w.db.now == 0 && !w.db.killed && w.db.watermark == Some(0)
            && w.locals == map[0 := Admitted(7), 1 := Reading(7, SAMPLE_RUN)]
  {
    FirstAdmitted(cfg);
    AtStep(cfg, RaceSteps(), 4);
    SendStep(cfg, At(cfg, RaceSteps(), 4));
  }

  lemma SendStep(cfg: Config, w: World)
    requires ExecId(7, 3) in w.db.execs && w.db.attempts == []
    ensures var w' := Apply(cfg, w, EngineAttempt(SENT));
            && ExecId(7, 3) in w'.db.execs && w'.db.attempts == [SENT] && w'.db.watermark == w.db.watermark && w'.locals == w.locals
            && w'.db.rows == w.db.rows && w'.db.runs == w.db.runs && w'.db.now == w.db.now && w'.db.killed == w.db.killed
  {
    SendRecorded(w.db);
  }

  lemma SendRecorded(db: Db)
    requires ExecId(7, 3) in db.execs && db.attempts == []
    ensures AddFacts(db, Ethereum, [SENT], []).Ok?
    ensures var db' := AddFacts(db, Ethereum, [SENT], []).value;
            && ExecId(7, 3) in db'.execs && db'.attempts == [SENT] && db'.watermark == db.watermark
            && db'.rows == db.rows && db'.runs == db.runs && db'.now == db.now && db'.killed == db.killed
  {
    assert [SENT][1..] == [];
    assert FreshAttempts(db.attempts, [SENT]) == [SENT];
    assert FreshReceipts(Ethereum, db.receipts, []) == [];
    AddFactsEvolves(db, Ethereum, [SENT], []);
  }

  /** The second process passes every batch-wide check, and nothing of the fleet was released. */
  lemma SecondPasses(cfg: Config, w: World)
    requires cfg == SampleConfig() && 1 in w.locals && w.locals[1] == Reading(7, SAMPLE_RUN)
    requires w.db.rows == [SAMPLE_ROW] && 7 in w.db.runs && w.db.now == 0 && !w.db.killed && w.db.watermark == Some(0)
    ensures Asks(cfg, w, 1, [3], true) && NoneReleased(w.db, 7, [3])
  {
    assert SAMPLE_RUN.campaign.priceWei == 0;
  }

  lemma SecondAdmits(cfg: Config)
    requires cfg == SampleConfig()
    ensures Sent(At(cfg, RaceSteps(), 5).db, 7) && Admits(cfg, RaceSteps(), 5, 7)
  {
    FirstSends(cfg);
    var w := At(cfg, RaceSteps(), 5);
    SecondPasses(cfg, w);
    assert w.db.attempts[0] == SENT;
    assert Sent(w.db, 7);
    SentRunAdmittedExactly(cfg, RaceSteps()[..5], 1, [3], true);
  }

  /** A run with a hash-bearing attempt is admitted a second time, and the second process goes on to run the engine. */
  lemma SentRunAdmittedAgain()
    ensures var cfg := SampleConfig();
            var steps := RaceSteps();
            && ValidConfig(cfg)
            && Sent(At(cfg, steps, 5).db, 7) && Admits(cfg, steps, 5, 7)
            && At(cfg, steps, 6).locals == map[0 := Admitted(7), 1 := Admitted(7)]
  {
    var cfg := SampleConfig();
    SecondAdmits(cfg);
    FirstSends(cfg);
    AtStep(cfg, RaceSteps(), 5);
  }
}
