/** The per-wallet daily cap. Campaigns carry their own caps, so what holds is relative to a run that reserved. */
module WalletCap {
  import opened Basics
  import opened Ledger
  import opened Coordinator
  import opened Kernel
  import opened Safety

  /** The row belongs to the wallet on the chain, and its run's campaign allows the wallet `sum` a day. */
  ghost predicate Grants(db: Db, row: Row, chain: Chain, w: Address, sum: int) {
    row.chain == chain && row.wallet == w && row.run in db.runs && sum <= db.runs[row.run].campaign.dailyCapWei
  }

  ghost predicate Granted(db: Db, chain: Chain, w: Address, sum: int) {
    exists i :: 0 <= i < |db.rows| && Grants(db, db.rows[i], chain, w, sum)
  }

  /** The wallet's open and recently settled exposure is nothing, or within the daily cap of a campaign it reserved for. */
  ghost predicate WalletCapHolds(db: Db, chain: Chain, w: Address) {
    var sum := Sum(WalletDaily(chain, w, db.now - DAY_MS), db.rows);
    sum == 0 || Granted(db, chain, w, sum)
  }

  ghost predicate AllWithin(db: Db) {
    forall chain, w :: WalletCapHolds(db, chain, w)
  }

  lemma GrantStays(db: Db, db': Db, chain: Chain, w: Address, sum: int, less: int)
    requires Granted(db, chain, w, sum) && less <= sum && RunsKept(db.runs, db'.runs) && |db.rows| <= |db'.rows|
    requires forall i :: 0 <= i < |db.rows| ==>
      db'.rows[i].chain == db.rows[i].chain && db'.rows[i].wallet == db.rows[i].wallet && db'.rows[i].run == db.rows[i].run
    ensures Granted(db', chain, w, less)
  {
    var i :| 0 <= i < |db.rows| && Grants(db, db.rows[i], chain, w, sum);
    var run := db.rows[i].run;
    assert db'.runs[run].(state := db.runs[run].state) == db.runs[run];
    assert Grants(db', db'.rows[i], chain, w, less);
  }

  lemma WithinEvolves(db: Db, db': Db, chain: Chain, w: Address)
    requires Evolves(db, db') && WalletCapHolds(db, chain, w)
    ensures WalletCapHolds(db', chain, w)
  {
    var q, q' := WalletDaily(chain, w, db.now - DAY_MS), WalletDaily(chain, w, db'.now - DAY_MS);
    forall i | 0 <= i < |db.rows| && Counts(q', db'.rows[i])
      ensures Counts(q, db.rows[i]) && db'.rows[i].reservedWei <= db.rows[i].reservedWei
    {
      assert RowEvolves(db.rows[i], db'.rows[i], db.now);
    }
    SumMonotone(q, db.rows, q', db'.rows);
    if Sum(q, db.rows) != 0 {
      forall i | 0 <= i < |db.rows|
        ensures db'.rows[i].chain == db.rows[i].chain && db'.rows[i].wallet == db.rows[i].wallet && db'.rows[i].run == db.rows[i].run
      {
        assert RowEvolves(db.rows[i], db'.rows[i], db.now);
      }
      GrantStays(db, db', chain, w, Sum(q, db.rows), Sum(q', db'.rows));
    }
  }

  /** The row that was just checked against the cap grants the wallet its new sum; every other wallet keeps its own. */
  lemma WithinAppend(cfg: Config, db: Db, run: RunId, c: Campaign, w: Address, total: int, db': Db, chain: Chain, x: Address)
    requires Exposure(c) > 0 && run in db.runs && db.runs[run].campaign == c && CapError(cfg, db, c, w, total).None?
    requires db'.rows == db.rows + [NewRow(db, run, c, w)] && db'.now == db.now && db'.runs == db.runs
    requires WalletCapHolds(db, chain, x)
    ensures WalletCapHolds(db', chain, x)
  {
    var q := WalletDaily(chain, x, db.now - DAY_MS);
    SumAppend(q, db.rows, NewRow(db, run, c, w));
    if chain == c.chain && x == w {
      assert Grants(db', db'.rows[|db.rows|], chain, x, Sum(q, db'.rows));
    } else if Sum(q, db.rows) != 0 {
      GrantStays(db, db', chain, x, Sum(q, db.rows), Sum(q, db'.rows));
    }
  }

  lemma WithinSame(db: Db, db': Db)
    requires AllWithin(db) && db'.rows == db.rows && db'.now == db.now && RunsKept(db.runs, db'.runs)
    ensures AllWithin(db')
  {
    forall chain, w ensures WalletCapHolds(db', chain, w) {
      assert WalletCapHolds(db, chain, w);
      var sum := Sum(WalletDaily(chain, w, db.now - DAY_MS), db.rows);
      if sum != 0 { GrantStays(db, db', chain, w, sum, sum); }
    }
  }

  lemma {:induction false} AdmittedWithin(cfg: Config, p: Progress, run: RunId, c: Campaign, wallets: seq<Address>)
    requires Exposure(c) > 0 && run in p.db.runs && p.db.runs[run].campaign == c && AllWithin(p.db)
    requires AdmitWallets(cfg, p, run, c, wallets).Ok?
    ensures AllWithin(AdmitWallets(cfg, p, run, c, wallets).value.db)
    decreases |wallets|
  {
    if wallets != [] {
      var w := wallets[0];
      var next := AdmitWallet(cfg, p, run, c, w).value;
      AdmitWalletEffect(cfg, p, run, c, w);
      if HasRow(p.db.rows, run, w) {
        WithinSame(p.db, next.db);
      } else {
        forall chain, x ensures WalletCapHolds(next.db, chain, x) {
          assert WalletCapHolds(p.db, chain, x);
          WithinAppend(cfg, p.db, run, c, w, p.total, next.db, chain, x);
        }
      }
      AdmittedWithin(cfg, next, run, c, wallets[1..]);
    }
  }

  lemma AdmissionWithin(cfg: Config, db: Db, run: RunId, copy: Run, wallets: seq<Address>, enabled: bool)
    requires AllWithin(db) && run in db.runs && copy.campaign == db.runs[run].campaign
    requires Admit(cfg, db, run, copy, wallets, enabled).Ok?
    ensures AllWithin(Admit(cfg, db, run, copy, wallets, enabled).value)
  {
    var start := Progress(db, Sum(RunTotal(run), db.rows));
    var p := AdmitWallets(cfg, start, run, copy.campaign, wallets).value;
    AdmittedWithin(cfg, start, run, copy.campaign, wallets);
    AdmitWalletsAppends(cfg, start, run, copy.campaign, wallets);
    WithinSame(p.db, Admit(cfg, db, run, copy, wallets, enabled).value);
  }

  lemma StepWithin(cfg: Config, w: World, step: Step)
    requires Inv(cfg, w) && AllWithin(w.db)
    ensures AllWithin(Apply(cfg, w, step).db)
  {
    if step.AdmitFleet? && AdmitStep(cfg, w, step.p, step.wallets, step.enabled).Ok? {
      assert LocalOk(w.db, w.locals[step.p]);
      AdmissionWithin(cfg, w.db, w.locals[step.p].run, w.locals[step.p].copy, step.wallets, step.enabled);
    } else {
      StepEvolves(cfg, w, step);
      forall chain, x ensures WalletCapHolds(Apply(cfg, w, step).db, chain, x) {
        assert WalletCapHolds(w.db, chain, x);
        WithinEvolves(w.db, Apply(cfg, w, step).db, chain, x);
      }
    }
  }

  /**
   * After every history, each wallet's reserved exposure plus what it settled in the last 24 hours on a chain is nothing,
   * or within the daily cap of one of the campaigns it reserved for there.
   */
  lemma {:induction false} WalletDailyCap(cfg: Config, steps: seq<Step>)
    requires ValidConfig(cfg)
    ensures AllWithin(After(cfg, steps).db)
  {
    if steps != [] {
      WalletDailyCap(cfg, steps[..|steps| - 1]);
      Always(cfg, steps[..|steps| - 1]);
      StepWithin(cfg, After(cfg, steps[..|steps| - 1]), steps[|steps| - 1]);
    }
  }
}
