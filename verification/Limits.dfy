/** What the run-level checks of an admission mean for every reservation ever made. */
module Limits {
  import opened Basics
  import opened Ledger
  import opened Coordinator
  import opened Kernel
  import opened Safety
  import opened Results

  /** The campaign's amounts are within the policy of its chain: a real quantity and price, and a bounded fee allowance. */
  ghost predicate WithinPolicy(cfg: Config, c: Campaign) {
    forall p :: Governs(cfg, c.chain, p) ==>
      && c.quantity >= 1 && c.priceWei >= 0
      && (c.priceWei > 0 ==> c.priceWei <= p.paidMaxPriceWei && FeeBudget(c.fee) <= p.paidFeeAllowanceWei)
      && (c.priceWei == 0 ==> FeeBudget(c.fee) <= p.freeFeeAllowanceWei)
  }

  lemma AdmittedWithinPolicy(cfg: Config, db: Db, run: RunId, copy: Run, wallets: seq<Address>, enabled: bool)
    requires Admit(cfg, db, run, copy, wallets, enabled).Ok?
    ensures WithinPolicy(cfg, copy.campaign)
  {
    assert FleetLimitError(cfg, copy, wallets).None?;
    forall p | Governs(cfg, copy.campaign.chain, p) ensures PolicyFor(cfg, copy.campaign.chain) == Some(p) {
      PolicyGoverns(cfg, copy.campaign.chain, p);
    }
  }

  ghost predicate RowWithin(cfg: Config, db: Db, row: Row) {
    row.run in db.runs && WithinPolicy(cfg, db.runs[row.run].campaign)
  }

  ghost predicate AllRowsWithin(cfg: Config, db: Db) {
    forall i :: 0 <= i < |db.rows| ==> RowWithin(cfg, db, db.rows[i])
  }

  lemma RowsWithinEvolve(cfg: Config, db: Db, db': Db)
    requires AllRowsWithin(cfg, db) && Evolves(db, db')
    ensures AllRowsWithin(cfg, db')
  {
    forall i | 0 <= i < |db'.rows| ensures RowWithin(cfg, db', db'.rows[i]) {
      assert RowWithin(cfg, db, db.rows[i]) && RowEvolves(db.rows[i], db'.rows[i], db.now);
      var run := db.rows[i].run;
      assert db'.runs[run].(state := db.runs[run].state) == db.runs[run];
    }
  }

  lemma RowsWithinAppend(cfg: Config, db: Db, db': Db, run: RunId, c: Campaign, wallets: seq<Address>)
    requires AllRowsWithin(cfg, db) && Exposure(c) > 0 && Appends(db, db', run, c, wallets) && WithinPolicy(cfg, c)
    requires run in db.runs && db.runs[run].campaign == c && db'.runs == db.runs[run := db.runs[run].(state := Active)]
    ensures AllRowsWithin(cfg, db')
  {
    forall i | 0 <= i < |db'.rows| ensures RowWithin(cfg, db', db'.rows[i]) {
      if i < |db.rows| {
        assert RowWithin(cfg, db, db.rows[i]) && db'.rows[i] == db.rows[i];
      } else {
        assert FreshRow(db'.rows[i], db, run, c, wallets);
      }
    }
  }

  lemma StepWithinPolicy(cfg: Config, w: World, step: Step)
    requires LocalsOk(w) && AllRowsWithin(cfg, w.db)
    ensures AllRowsWithin(cfg, Apply(cfg, w, step).db)
  {
    if step.AdmitFleet? && AdmitStep(cfg, w, step.p, step.wallets, step.enabled).Ok? {
      var run, copy := w.locals[step.p].run, w.locals[step.p].copy;
      assert LocalOk(w.db, w.locals[step.p]);
      AdmitShape(cfg, w.db, run, copy, step.wallets, step.enabled);
      AdmittedWithinPolicy(cfg, w.db, run, copy, step.wallets, step.enabled);
      RowsWithinAppend(cfg, w.db, AdmitStep(cfg, w, step.p, step.wallets, step.enabled).value, run, copy.campaign, step.wallets);
    } else {
      StepEvolves(cfg, w, step);
      RowsWithinEvolve(cfg, w.db, Apply(cfg, w, step).db);
    }
  }

  /**
   * After every history each reservation was made for a campaign within the policy of its chain: quantity at least one,
   * price at most the highest accepted one, and no more reserved on top of the mint value than the fee allowance.
   */
  lemma {:induction false} ReservationsWithinPolicy(cfg: Config, steps: seq<Step>)
    requires ValidConfig(cfg)
    ensures AllRowsWithin(cfg, After(cfg, steps).db)
  {
    if steps != [] {
      ReservationsWithinPolicy(cfg, steps[..|steps| - 1]);
      Always(cfg, steps[..|steps| - 1]);
      StepWithinPolicy(cfg, After(cfg, steps[..|steps| - 1]), steps[|steps| - 1]);
    }
  }

  // ---- The admission clock ----

  ghost predicate ClockOk(db: Db) {
    db.watermark.Some? ==> db.watermark.value <= db.now
  }

  /** No other step writes the watermark. */
  lemma WatermarkKept(cfg: Config, w: World, step: Step)
    requires step.AdmitFleet? ==> AdmitStep(cfg, w, step.p, step.wallets, step.enabled).Err?
    ensures Apply(cfg, w, step).db.watermark == w.db.watermark
  {
  }

  /** A reservation of the row has been pending for a day or more. */
  predicate StalePending(db: Db, row: Row) {
    row.status == Reserved && row.createdAt <= db.now - DAY_MS
  }

  /** An admission leaves the watermark at its own time and finds no reservation that has been pending for a day. */
  lemma AdmissionClock(cfg: Config, w: World, p: Proc, wallets: seq<Address>, enabled: bool)
    requires ClockOk(w.db) && AdmitStep(cfg, w, p, wallets, enabled).Ok?
    ensures AdmitStep(cfg, w, p, wallets, enabled).value.watermark == Some(w.db.now)
    ensures AdmitStep(cfg, w, p, wallets, enabled).value.now == w.db.now
    ensures forall i :: 0 <= i < |w.db.rows| ==> !StalePending(w.db, w.db.rows[i])
  {
    assert ClockError(w.db).None?;
    AdmitShape(cfg, w.db, w.locals[p].run, w.locals[p].copy, wallets, enabled);
  }

  ghost predicate Rises(before: Option<nat>, after: Option<nat>) {
    before.Some? ==> after.Some? && before.value <= after.value
  }

  lemma ClockStep(cfg: Config, w: World, step: Step)
    requires ClockOk(w.db)
    ensures ClockOk(Apply(cfg, w, step).db) && Rises(w.db.watermark, Apply(cfg, w, step).db.watermark)
  {
    if step.AdmitFleet? && AdmitStep(cfg, w, step.p, step.wallets, step.enabled).Ok? {
      AdmissionClock(cfg, w, step.p, step.wallets, step.enabled);
    } else {
      WatermarkKept(cfg, w, step);
      StepEvolves(cfg, w, step);
    }
  }

  lemma {:induction false} ClockAlways(cfg: Config, steps: seq<Step>)
    ensures ClockOk(After(cfg, steps).db)
  {
    if steps != [] {
      ClockAlways(cfg, steps[..|steps| - 1]);
      ClockStep(cfg, After(cfg, steps[..|steps| - 1]), steps[|steps| - 1]);
    }
  }

  lemma WatermarkStep(cfg: Config, steps: seq<Step>, k: nat)
    requires k < |steps|
    ensures Rises(At(cfg, steps, k).db.watermark, At(cfg, steps, k + 1).db.watermark)
  {
    AtStep(cfg, steps, k);
    ClockAlways(cfg, steps[..k]);
    ClockStep(cfg, At(cfg, steps, k), steps[k]);
  }

  /** The admission watermark never goes back, over any stretch of any history. */
  lemma {:induction false} WatermarkRises(cfg: Config, steps: seq<Step>, j: nat, k: nat)
    requires j <= k <= |steps|
    ensures Rises(At(cfg, steps, j).db.watermark, At(cfg, steps, k).db.watermark)
    decreases k
  {
    if j < k {
      WatermarkRises(cfg, steps, j, k - 1);
      WatermarkStep(cfg, steps, k - 1);
    }
  }
}
