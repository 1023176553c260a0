/**
 * Exactly when an admission commits. The code decides it wallet by wallet, with running totals and a rollback; here it is
 * one condition on the tables before the transaction, and from it follows which runs can be admitted a second time.
 */
module Admissions {
  import opened Basics
  import opened Ledger
  import opened Coordinator
  import opened Kernel
  import opened Safety
  import opened Results
  import opened Fleet

  // ---- What ties rows, executions and attempts together ----

  ghost predicate InFleet(db: Db, row: Row) {
    row.run in db.runs && row.wallet in db.runs[row.run].wallets
  }

  ghost predicate Tied(db: Db, e: ExecId) {
    e in db.execs ==> HasRow(db.rows, e.run, e.wallet)
  }

  /** Every reservation is for a wallet of its fleet, every execution has a reservation, every attempt an execution. */
  ghost predicate Ties(db: Db) {
    && (forall i :: 0 <= i < |db.rows| ==> InFleet(db, db.rows[i]))
    && (forall e :: Tied(db, e))
    && (forall i :: 0 <= i < |db.attempts| ==> db.attempts[i].exec in db.execs)
  }

  lemma RowsStayInFleet(db: Db, db': Db)
    requires Evolves(db, db') && forall i :: 0 <= i < |db.rows| ==> InFleet(db, db.rows[i])
    ensures forall i :: 0 <= i < |db'.rows| ==> InFleet(db', db'.rows[i])
  {
    forall i | 0 <= i < |db'.rows| ensures InFleet(db', db'.rows[i]) {
      assert InFleet(db, db.rows[i]) && RowEvolves(db.rows[i], db'.rows[i], db.now);
      var run := db.rows[i].run;
      assert db'.runs[run].(state := db.runs[run].state) == db.runs[run];
    }
  }

  lemma TiedStays(db: Db, db': Db, e: ExecId)
    requires Evolves(db, db') && Tied(db, e)
    ensures Tied(db', e)
  {
    if e in db'.execs { RowStays(db, db', e.run, e.wallet); }
  }

  ghost predicate AttemptsTied(db: Db) {
    forall i :: 0 <= i < |db.attempts| ==> db.attempts[i].exec in db.execs
  }

  lemma FactsKeepAttempts(db: Db, chain: Chain, attempts: seq<Attempt>, receipts: seq<Receipt>)
    requires AttemptsTied(db) && AddFacts(db, chain, attempts, receipts).Ok?
    ensures AttemptsTied(AddFacts(db, chain, attempts, receipts).value)
  {
    var db' := AddFacts(db, chain, attempts, receipts).value;
    AddFactsEvolves(db, chain, attempts, receipts);
    assert db'.execs.Keys == db.execs.Keys;
    forall i | 0 <= i < |db'.attempts| ensures db'.attempts[i].exec in db'.execs {
      if i < |db.attempts| {
        assert db'.attempts[i] == db.attempts[i];
      } else {
        assert db'.attempts[i] == FreshAttempts(db.attempts, attempts)[i - |db.attempts|];
      }
    }
  }

  lemma FactStepKeepsAttempts(cfg: Config, w: World, step: Step)
    requires AttemptsTied(w.db) && ReportsFacts(step)
    ensures AttemptsTied(Apply(cfg, w, step).db)
  {
    match step
    case RecordResult(p, r, killedSeen) =>
      if ApplyResult(w, p, r, killedSeen).Ok? { FactsKeepAttempts(w.db, w.db.runs[w.locals[p].run].campaign.chain, r.attempts, r.receipts); }
    case ApplyUpdate(p, u) =>
      if ApplyPass(w, p, u).Ok? { FactsKeepAttempts(w.db, w.db.runs[w.locals[p].run].campaign.chain, u.attempts, u.receipts); }
    case EngineAttempt(a) =>
      if AddFacts(w.db, Ethereum, [a], []).Ok? { FactsKeepAttempts(w.db, Ethereum, [a], []); }
    case EngineReceipt(r) =>
      var chain := ChainOf(w.db, r.exec);
      if chain.Some? && AddFacts(w.db, chain.value, [], [r]).Ok? { FactsKeepAttempts(w.db, chain.value, [], [r]); }
  }

  lemma OtherStepKeepsAttempts(cfg: Config, w: World, step: Step)
    requires !ReportsFacts(step) && !step.AdmitFleet?
    ensures Apply(cfg, w, step).db.attempts == w.db.attempts
  {
  }

  lemma TiesEvolve(cfg: Config, w: World, step: Step)
    requires Ties(w.db)
    requires step.AdmitFleet? ==> AdmitStep(cfg, w, step.p, step.wallets, step.enabled).Err?
    ensures Ties(Apply(cfg, w, step).db)
  {
    var db, db' := w.db, Apply(cfg, w, step).db;
    StepEvolves(cfg, w, step);
    RowsStayInFleet(db, db');
    forall e ensures Tied(db', e) {
      assert Tied(db, e);
      TiedStays(db, db', e);
    }
    if ReportsFacts(step) {
      FactStepKeepsAttempts(cfg, w, step);
    } else if !step.AdmitFleet? {
      OtherStepKeepsAttempts(cfg, w, step);
    }
    assert AttemptsTied(db');
  }

  /** The executions an admission adds are those of its wallets. */
  lemma {:induction false} NewExecs(cfg: Config, p: Progress, run: RunId, c: Campaign, wallets: seq<Address>, e: ExecId)
    requires Exposure(c) > 0 && AdmitWallets(cfg, p, run, c, wallets).Ok?
    requires e in AdmitWallets(cfg, p, run, c, wallets).value.db.execs
    ensures e in p.db.execs || (e.run == run && e.wallet in wallets)
    decreases |wallets|
  {
    if wallets != [] {
      NewExecs(cfg, AdmitWallet(cfg, p, run, c, wallets[0]).value, run, c, wallets[1..], e);
    }
  }

  lemma HasRowGrows(rows: seq<Row>, rows': seq<Row>, run: RunId, w: Address)
    requires rows <= rows' && HasRow(rows, run, w)
    ensures HasRow(rows', run, w)
  {
    var i :| 0 <= i < |rows| && Keyed(rows[i], run, w);
    assert Keyed(rows'[i], run, w);
  }

  lemma TiesAppend(cfg: Config, db: Db, run: RunId, copy: Run, wallets: seq<Address>, enabled: bool)
    requires Ties(db) && run in db.runs && copy == db.runs[run].(state := Armed)
    requires Admit(cfg, db, run, copy, wallets, enabled).Ok? && forall x :: x in wallets ==> x in copy.wallets
    ensures Ties(Admit(cfg, db, run, copy, wallets, enabled).value)
  {
    var db' := Admit(cfg, db, run, copy, wallets, enabled).value;
    var start := Progress(db, Sum(RunTotal(run), db.rows));
    AdmitShape(cfg, db, run, copy, wallets, enabled);
    forall i | 0 <= i < |db'.rows| ensures InFleet(db', db'.rows[i]) {
      if i < |db.rows| {
        assert db'.rows[i] == db.rows[i] && InFleet(db, db.rows[i]);
      } else {
        assert FreshRow(db'.rows[i], db, run, copy.campaign, wallets);
      }
    }
    forall e ensures Tied(db', e) {
      assert Tied(db, e);
      if e in db.execs {
        HasRowGrows(db.rows, db'.rows, e.run, e.wallet);
      } else if e in db'.execs {
        NewExecs(cfg, start, run, copy.campaign, wallets, e);
      }
    }
  }

  /** Everything about a reachable world that the exact condition rests on. */
  ghost predicate Sound(cfg: Config, w: World) {
    Inv(cfg, w) && FleetInv(w.db) && Ties(w.db)
  }

  lemma SoundStep(cfg: Config, w: World, step: Step)
    requires Sound(cfg, w)
    ensures Sound(cfg, Apply(cfg, w, step))
  {
    StepKeeps(cfg, w, step);
    FleetStep(cfg, w, step);
    if step.AdmitFleet? && AdmitStep(cfg, w, step.p, step.wallets, step.enabled).Ok? {
      assert LocalOk(w.db, w.locals[step.p]);
      AdmitStepFleet(cfg, w, step.p, step.wallets, step.enabled);
      TiesAppend(cfg, w.db, w.locals[step.p].run, w.locals[step.p].copy, step.wallets, step.enabled);
    } else {
      TiesEvolve(cfg, w, step);
    }
  }

  lemma {:induction false} SoundAlways(cfg: Config, steps: seq<Step>)
    requires ValidConfig(cfg)
    ensures Sound(cfg, After(cfg, steps))
  {
    if steps != [] {
      SoundAlways(cfg, steps[..|steps| - 1]);
      SoundStep(cfg, After(cfg, steps[..|steps| - 1]), steps[|steps| - 1]);
    } else {
      Always(cfg, steps);
      FleetAlways(cfg, steps);
    }
  }

  // ---- A fleet without reservations: all caps at once ----

  /** The day's room of one wallet takes one more reservation, and the wallet was never used for the campaign. */
  ghost predicate WalletFits(db: Db, c: Campaign, w: Address) {
    && !CampaignWalletUsed(db.execs, c.id, w)
    && Sum(WalletDaily(c.chain, w, db.now - DAY_MS), db.rows) + Exposure(c) <= c.dailyCapWei
  }

  /** The run cap and the fleet cap take `n` reservations on top of what they carry. */
  ghost predicate FleetFits(cfg: Config, db: Db, c: Campaign, total: int, n: nat) {
    && total + n * Exposure(c) <= c.maxRunWei
    && (PolicyFor(cfg, c.chain).Some? ==>
          UnderCap(PolicyFor(cfg, c.chain).value, c.chain, if c.priceWei == 0 then Free else Paid,
                   Sum(FleetDaily(c.chain, if c.priceWei == 0 then Free else Paid, db.now - DAY_MS), db.rows) + n * Exposure(c)))
  }

  ghost predicate Affordable(cfg: Config, p: Progress, c: Campaign, wallets: seq<Address>) {
    FleetFits(cfg, p.db, c, p.total, |wallets|) && forall w :: w in wallets ==> WalletFits(p.db, c, w)
  }

  /** No wallet of the list has a row or an execution of the run. */
  ghost predicate Untouched(db: Db, run: RunId, w: Address) {
    !HasRow(db.rows, run, w) && ExecId(run, w) !in db.execs
  }

  ghost predicate RealTerms(cfg: Config, c: Campaign) {
    Exposure(c) > 0 && (PolicyFor(cfg, c.chain).Some? ==> c.quantity >= 1 && c.priceWei >= 0)
  }

  /** One wallet passes exactly when it fits and one more reservation does. */
  lemma OneFits(cfg: Config, p: Progress, run: RunId, c: Campaign, w: Address)
    requires RealTerms(cfg, c) && Untouched(p.db, run, w)
    ensures AdmitWallet(cfg, p, run, c, w).Ok? <==> FleetFits(cfg, p.db, c, p.total, 1) && WalletFits(p.db, c, w)
    ensures AdmitWallet(cfg, p, run, c, w).Ok? ==>
      AdmitWallet(cfg, p, run, c, w).value ==
      Progress(p.db.(execs := p.db.execs[ExecId(run, w) := Execution(c.id, Prepared)], rows := p.db.rows + [NewRow(p.db, run, c, w)]),
               p.total + Exposure(c))
  {
    assert 1 * Exposure(c) == Exposure(c);
    if PolicyFor(cfg, c.chain).Some? {
      CapIsUnder(PolicyFor(cfg, c.chain).value, c.chain, ClassOf(c), Sum(FleetDaily(c.chain, ClassOf(c), p.db.now - DAY_MS), p.db.rows) + Exposure(c));
    }
    assert !HasReleasedRow(p.db.rows, run, w);
  }

  /** Admitting one wallet leaves every other wallet as untouched and as fitting as it was. */
  lemma OthersFit(db: Db, db': Db, run: RunId, c: Campaign, w: Address, x: Address)
    requires Exposure(c) > 0 && x != w && db'.now == db.now
    requires db'.execs == db.execs[ExecId(run, w) := Execution(c.id, Prepared)] && db'.rows == db.rows + [NewRow(db, run, c, w)]
    requires ExecId(run, w) !in db.execs
    ensures Untouched(db', run, x) <==> Untouched(db, run, x)
    ensures WalletFits(db', c, x) <==> WalletFits(db, c, x)
  {
    SumAppend(WalletDaily(c.chain, x, db.now - DAY_MS), db.rows, NewRow(db, run, c, w));
    if HasRow(db.rows, run, x) { HasRowGrows(db.rows, db'.rows, run, x); }
    if HasRow(db'.rows, run, x) {
      var i :| 0 <= i < |db'.rows| && Keyed(db'.rows[i], run, x);
      assert Keyed(db.rows[i], run, x);
    }
    if CampaignWalletUsed(db.execs, c.id, x) {
      var e :| e in db.execs && db.execs[e].campaign == c.id && e.wallet == x;
      assert e in db'.execs && db'.execs[e] == db.execs[e];
    }
    if CampaignWalletUsed(db'.execs, c.id, x) {
      var e :| e in db'.execs && db'.execs[e].campaign == c.id && e.wallet == x;
      assert e in db.execs && db'.execs[e] == db.execs[e];
    }
  }

  /** Room for `n` more after one reservation is room for `n + 1` before it. */
  lemma RoomShifts(cfg: Config, db: Db, db': Db, run: RunId, c: Campaign, w: Address, total: int, n: nat)
    requires RealTerms(cfg, c) && db'.now == db.now && db'.rows == db.rows + [NewRow(db, run, c, w)]
    ensures FleetFits(cfg, db', c, total + Exposure(c), n) <==> FleetFits(cfg, db, c, total, n + 1)
    ensures FleetFits(cfg, db, c, total, n + 1) ==> FleetFits(cfg, db, c, total, 1)
  {
    assert (n + 1) * Exposure(c) == n * Exposure(c) + Exposure(c) && n * Exposure(c) >= 0;
    SumAppend(FleetDaily(c.chain, ClassOf(c), db.now - DAY_MS), db.rows, NewRow(db, run, c, w));
    if PolicyFor(cfg, c.chain).Some? { ClassConsistent(db, run, c, w, ClassOf(c)); }
  }

  /** The loop with its running totals passes exactly when the whole fleet fits at once. */
  lemma {:induction false} FleetFitsExactly(cfg: Config, p: Progress, run: RunId, c: Campaign, wallets: seq<Address>)
    requires RealTerms(cfg, c) && Distinct(wallets) && forall w :: w in wallets ==> Untouched(p.db, run, w)
    requires wallets != []
    ensures AdmitWallets(cfg, p, run, c, wallets).Ok? <==> Affordable(cfg, p, c, wallets)
    decreases |wallets|
  {
    var w, rest := wallets[0], wallets[1..];
    assert wallets == [w] + rest && w in wallets;
    OneFits(cfg, p, run, c, w);
    if AdmitWallet(cfg, p, run, c, w).Ok? {
      var next := AdmitWallet(cfg, p, run, c, w).value;
      if rest != [] {
        RestFits(cfg, p, next, run, c, w, rest);
        FleetFitsExactly(cfg, next, run, c, rest);
      }
      assert Affordable(cfg, p, c, wallets) <==> rest == [] || Affordable(cfg, next, c, rest);
    } else {
      RoomShifts(cfg, p.db, p.db.(rows := p.db.rows + [NewRow(p.db, run, c, w)]), run, c, w, p.total, |rest|);
    }
  }

  lemma RestFits(cfg: Config, p: Progress, next: Progress, run: RunId, c: Campaign, w: Address, rest: seq<Address>)
    requires RealTerms(cfg, c) && Distinct([w] + rest) && Untouched(p.db, run, w) && WalletFits(p.db, c, w)
    requires forall x :: x in rest ==> Untouched(p.db, run, x)
    requires next == Progress(
      p.db.(execs := p.db.execs[ExecId(run, w) := Execution(c.id, Prepared)], rows := p.db.rows + [NewRow(p.db, run, c, w)]),
      p.total + Exposure(c))
    ensures Distinct(rest) && forall x :: x in rest ==> Untouched(next.db, run, x)
    ensures Affordable(cfg, next, c, rest) <==> Affordable(cfg, p, c, [w] + rest)
  {
    var all := [w] + rest;
    assert forall i :: 0 <= i < |rest| ==> rest[i] == all[i + 1] && all[0] != all[i + 1];
    forall x | x in rest
      ensures x != w && Untouched(next.db, run, x) && (WalletFits(next.db, c, x) <==> WalletFits(p.db, c, x))
    {
      OthersFit(p.db, next.db, run, c, w, x);
    }
    RoomShifts(cfg, p.db, next.db, run, c, w, p.total, |rest|);
    assert forall x :: x in all <==> x == w || x in rest;
  }

  // ---- A fleet with reservations: nothing is reserved again ----

  ghost predicate Standing(db: Db, run: RunId, w: Address) {
    HasRow(db.rows, run, w) && ExecId(run, w) in db.execs
  }

  /** Wallets that all have their reservation pass exactly when none of them is released, and change nothing. */
  lemma {:induction false} ReadmitsExactly(cfg: Config, p: Progress, run: RunId, c: Campaign, wallets: seq<Address>)
    requires Exposure(c) > 0 && forall w :: w in wallets ==> Standing(p.db, run, w)
    ensures AdmitWallets(cfg, p, run, c, wallets).Ok? <==> forall w :: w in wallets ==> !HasReleasedRow(p.db.rows, run, w)
    ensures AdmitWallets(cfg, p, run, c, wallets).Ok? ==> AdmitWallets(cfg, p, run, c, wallets) == Ok(p)
    decreases |wallets|
  {
    if wallets != [] {
      assert wallets == [wallets[0]] + wallets[1..] && wallets[0] in wallets;
      assert Standing(p.db, run, wallets[0]);
      ReadmitsExactly(cfg, p, run, c, wallets[1..]);
    }
  }

  // ---- The exact condition ----

  /** The campaign and the fleet are within the policy: amounts, price, fee budget, and wallets per paid mint in this run and over all runs. */
  ghost predicate PolicyAllows(p: FleetPolicy, db: Db, copy: Run, wallets: seq<Address>) {
    var c := copy.campaign;
    && c.quantity >= 1 && c.priceWei >= 0
    && (c.priceWei == 0 ==> FeeBudget(c.fee) <= p.freeFeeAllowanceWei)
    && (c.priceWei > 0 ==>
          && c.priceWei <= p.paidMaxPriceWei && FeeBudget(c.fee) <= p.paidFeeAllowanceWei
          && |ToSet(copy.wallets) + ToSet(wallets)| <= p.paidMaxWallets
          && |Holders(db.rows, c.id) + ToSet(wallets)| <= p.paidMaxWallets)
  }

  /** The admission clock has not gone back by more than five seconds, and nothing has been pending for a day. */
  ghost predicate ClockAllows(db: Db) {
    && (db.watermark.Some? ==> db.watermark.value <= db.now + 5000)
    && forall i :: 0 <= i < |db.rows| && db.rows[i].status == Reserved ==> db.rows[i].createdAt > db.now - 24 * 60 * 60 * 1000
  }

  /** Before the Base rehearsal is complete, one wallet and one NFT at a time. */
  ghost predicate RehearsalAllows(db: Db, c: Campaign, wallets: seq<Address>) {
    c.chain == Base ==> RehearsalCompleted(db) || (!RehearsalOutstanding(db) && |wallets| == 1 && c.quantity == 1)
  }

  /** What the caller and the batch-wide checks ask of the tables and of the copy, before any wallet is looked at. */
  ghost predicate Asks(cfg: Config, w: World, p: Proc, wallets: seq<Address>, enabled: bool) {
    && p in w.locals && w.locals[p].Reading?
    && var run, copy := w.locals[p].run, w.locals[p].copy;
       && copy.mode == Live && copy.state == Armed && run in w.db.runs && enabled && !w.db.killed
       && wallets != [] && |wallets| == |copy.wallets| && Distinct(wallets) && (forall x :: x in wallets ==> x in copy.wallets)
       && PolicyFor(cfg, copy.campaign.chain).Some? && PolicyAllows(PolicyFor(cfg, copy.campaign.chain).value, w.db, copy, wallets)
       && ClockAllows(w.db) && RehearsalAllows(w.db, copy.campaign, wallets)
       && copy.campaign.priceWei * copy.campaign.quantity + FeeBudget(copy.campaign.fee) > 0
  }

  /** The caller's own checks pass and the code finds no batch-wide error. */
  ghost predicate Cleared(cfg: Config, w: World, p: Proc, wallets: seq<Address>, enabled: bool) {
    && p in w.locals && w.locals[p].Reading? && w.locals[p].copy.mode == Live && |wallets| == |w.locals[p].copy.wallets|
    && AdmissionError(cfg, w.db, w.locals[p].run, w.locals[p].copy, wallets, enabled).None?
  }

  lemma PolicyAllowsExactly(cfg: Config, db: Db, copy: Run, wallets: seq<Address>)
    requires copy.mode == Live
    ensures (FleetLimitError(cfg, copy, wallets).None? && (ClassOf(copy.campaign) == Paid ==> PaidWalletsError(cfg, db, copy.campaign, wallets).None?)) <==>
            (PolicyFor(cfg, copy.campaign.chain).Some? && PolicyAllows(PolicyFor(cfg, copy.campaign.chain).value, db, copy, wallets))
  {
  }

  lemma ClockAllowsExactly(db: Db)
    ensures ClockError(db).None? <==> ClockAllows(db)
  {
  }

  /** The code finds no batch-wide error exactly when what it asks of the tables holds. */
  lemma AsksExactly(cfg: Config, w: World, p: Proc, wallets: seq<Address>, enabled: bool)
    ensures Cleared(cfg, w, p, wallets, enabled) <==> Asks(cfg, w, p, wallets, enabled)
  {
    if p in w.locals && w.locals[p].Reading? && w.locals[p].copy.mode == Live {
      PolicyAllowsExactly(cfg, w.db, w.locals[p].copy, wallets);
      ClockAllowsExactly(w.db);
    }
  }

  /** No wallet of the list has given its reservation back. */
  ghost predicate NoneReleased(db: Db, run: RunId, wallets: seq<Address>) {
    forall x :: x in wallets ==> !HasReleasedRow(db.rows, run, x)
  }

  /** The guard of an admission, as a condition on the tables and the caller's copy before the transaction. */
  ghost predicate MayAdmit(cfg: Config, w: World, p: Proc, wallets: seq<Address>, enabled: bool) {
    && Asks(cfg, w, p, wallets, enabled)
    && var run := w.locals[p].run;
       if HasAnyRow(w.db.rows, run) then NoneReleased(w.db, run, wallets)
       else Affordable(cfg, Progress(w.db, 0), w.locals[p].copy.campaign, wallets)
  }

  lemma AsksFacts(cfg: Config, w: World, p: Proc, wallets: seq<Address>, enabled: bool)
    requires LocalsOk(w) && Asks(cfg, w, p, wallets, enabled)
    ensures var run, copy := w.locals[p].run, w.locals[p].copy;
            && run in w.db.runs && copy == w.db.runs[run].(state := Armed)
            && wallets != [] && Distinct(wallets) && (forall x :: x in wallets ==> x in copy.wallets)
            && RealTerms(cfg, copy.campaign)
  {
    assert LocalOk(w.db, w.locals[p]);
  }

  lemma RunRowsUntouched(db: Db, run: RunId, x: Address)
    requires Ties(db) && !HasAnyRow(db.rows, run)
    ensures Untouched(db, run, x)
  {
    assert Tied(db, ExecId(run, x));
  }

  lemma FleetStanding(cfg: Config, w: World, run: RunId, x: Address)
    requires Sound(cfg, w) && HasAnyRow(w.db.rows, run) && run in w.db.runs && x in w.db.runs[run].wallets
    ensures Standing(w.db, run, x)
  {
    assert WholeFleet(w.db, run);
    assert HasRow(w.db.rows, run, x);
    var i :| 0 <= i < |w.db.rows| && Keyed(w.db.rows[i], run, x);
    assert RowOk(w.db, w.db.rows[i]);
  }

  /** The wallet loop of an admission that passed the batch-wide checks, decided from the tables before it. */
  lemma LoopExactly(cfg: Config, w: World, p: Proc, wallets: seq<Address>, enabled: bool)
    requires Sound(cfg, w) && Asks(cfg, w, p, wallets, enabled)
    ensures Exposure(w.locals[p].copy.campaign) > 0
    ensures var run, c := w.locals[p].run, w.locals[p].copy.campaign;
            AdmitWallets(cfg, Progress(w.db, Sum(RunTotal(run), w.db.rows)), run, c, wallets).Ok? <==> MayAdmit(cfg, w, p, wallets, enabled)
  {
    var run, copy, db := w.locals[p].run, w.locals[p].copy, w.db;
    var c := copy.campaign;
    var start := Progress(db, Sum(RunTotal(run), db.rows));
    AsksFacts(cfg, w, p, wallets, enabled);
    if HasAnyRow(db.rows, run) {
      forall x | x in wallets ensures Standing(db, run, x) { FleetStanding(cfg, w, run, x); }
      ReadmitsExactly(cfg, start, run, c, wallets);
    } else {
      forall x | x in wallets ensures Untouched(db, run, x) { RunRowsUntouched(db, run, x); }
      NoRowsNoRunTotal(run, db.rows);
      FleetFitsExactly(cfg, start, run, c, wallets);
    }
  }

  lemma NoRowsNoRunTotal(run: RunId, rows: seq<Row>)
    requires !HasAnyRow(rows, run)
    ensures Sum(RunTotal(run), rows) == 0
  {
    NoRowsNoSum(run, rows);
    SumMonotone(RunEver(run), rows, RunTotal(run), rows);
  }

  lemma CommitsWhenLoopDoes(cfg: Config, w: World, p: Proc, wallets: seq<Address>, enabled: bool)
    requires Cleared(cfg, w, p, wallets, enabled) && Exposure(w.locals[p].copy.campaign) > 0
    ensures var run, c := w.locals[p].run, w.locals[p].copy.campaign;
            AdmitStep(cfg, w, p, wallets, enabled).Ok? <==>
            AdmitWallets(cfg, Progress(w.db, Sum(RunTotal(run), w.db.rows)), run, c, wallets).Ok?
  {
  }

  lemma CommitAsks(cfg: Config, w: World, p: Proc, wallets: seq<Address>, enabled: bool)
    requires AdmitStep(cfg, w, p, wallets, enabled).Ok?
    ensures Cleared(cfg, w, p, wallets, enabled) && Asks(cfg, w, p, wallets, enabled)
  {
    AsksExactly(cfg, w, p, wallets, enabled);
  }

  /**
   * In every reachable world an admission commits if and only if its guard holds: the batch-wide checks pass and either
   * the run has no reservation and its whole fleet fits the run cap, the fleet cap and every wallet's daily cap at once,
   * or the fleet is already reserved and none of it was released.
   */
  lemma AdmitsExactly(cfg: Config, w: World, p: Proc, wallets: seq<Address>, enabled: bool)
    requires Sound(cfg, w)
    ensures AdmitStep(cfg, w, p, wallets, enabled).Ok? <==> MayAdmit(cfg, w, p, wallets, enabled)
  {
    if AdmitStep(cfg, w, p, wallets, enabled).Ok? { CommitAsks(cfg, w, p, wallets, enabled); }
    if Asks(cfg, w, p, wallets, enabled) {
      AsksExactly(cfg, w, p, wallets, enabled);
      LoopExactly(cfg, w, p, wallets, enabled);
      CommitsWhenLoopDoes(cfg, w, p, wallets, enabled);
    }
  }
}
