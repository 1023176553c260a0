/** Whole-fleet admission, the pre-sign gate, and the one way a finished run comes back. */
module Fleet {
  import opened Basics
  import opened Ledger
  import opened Coordinator
  import opened Kernel
  import opened Safety
  import opened Results

  // ---- A run reserves for its whole armed fleet or for none of it ----

  ghost predicate HasAnyRow(rows: seq<Row>, run: RunId) {
    exists i :: 0 <= i < |rows| && rows[i].run == run
  }

  ghost predicate WholeFleet(db: Db, run: RunId) {
    run in db.runs && HasAnyRow(db.rows, run) ==> forall w :: w in db.runs[run].wallets ==> HasRow(db.rows, run, w)
  }

  /** Everything a run ever reserved fits its run cap, released rows included. */
  ghost predicate EverCapHolds(db: Db, run: RunId) {
    run in db.runs ==> Sum(RunEver(run), db.rows) <= Max(0, db.runs[run].campaign.maxRunWei)
  }

  ghost predicate FleetInv(db: Db) {
    forall run :: WholeFleet(db, run) && EverCapHolds(db, run)
  }

  lemma {:induction false} NoRowsNoSum(run: RunId, rows: seq<Row>)
    requires !HasAnyRow(rows, run)
    ensures Sum(RunEver(run), rows) == 0
  {
    if rows != [] {
      var n := |rows| - 1;
      forall i | 0 <= i < n ensures rows[..n][i].run != run { assert rows[i].run != run; }
      NoRowsNoSum(run, rows[..n]);
      assert rows[n].run != run;
    }
  }

  lemma RowStays(db: Db, db': Db, run: RunId, w: Address)
    requires Evolves(db, db') && HasRow(db.rows, run, w)
    ensures HasRow(db'.rows, run, w)
  {
    var i :| 0 <= i < |db.rows| && Keyed(db.rows[i], run, w);
    assert RowEvolves(db.rows[i], db'.rows[i], db.now);
  }

  lemma FleetEvolves(db: Db, db': Db, run: RunId)
    requires Evolves(db, db') && Shape(db) && WholeFleet(db, run) && EverCapHolds(db, run)
    ensures WholeFleet(db', run) && EverCapHolds(db', run)
  {
    if HasAnyRow(db'.rows, run) {
      var i :| 0 <= i < |db'.rows| && db'.rows[i].run == run;
      assert RowEvolves(db.rows[i], db'.rows[i], db.now) && RowOk(db, db.rows[i]);
      assert HasAnyRow(db.rows, run);
      forall w | w in db'.runs[run].wallets ensures HasRow(db'.rows, run, w) {
        assert db'.runs[run].(state := db.runs[run].state) == db.runs[run];
        RowStays(db, db', run, w);
      }
      forall i | 0 <= i < |db.rows| && Counts(RunEver(run), db'.rows[i])
        ensures Counts(RunEver(run), db.rows[i]) && db'.rows[i].reservedWei <= db.rows[i].reservedWei
      {
        assert RowEvolves(db.rows[i], db'.rows[i], db.now);
      }
      SumMonotone(RunEver(run), db.rows, RunEver(run), db'.rows);
    } else {
      NoRowsNoSum(run, db'.rows);
    }
  }

  /** A list of distinct wallets as long as the armed list, and drawn from it, is the armed fleet. */
  lemma SameFleet(wallets: seq<Address>, armed: seq<Address>)
    requires Distinct(wallets) && |wallets| == |armed| && forall w :: w in wallets ==> w in armed
    ensures ToSet(wallets) == ToSet(armed)
  {
    DistinctSize(wallets);
    MembersSize(armed);
    var a, b := ToSet(wallets), ToSet(armed);
    assert a <= b && |a| == |wallets| && |b| <= |a|;
    if w :| w in b && w !in a {
      SubsetSize(a + {w}, b);
    }
  }

  lemma {:induction false} MembersSize(s: seq<Address>)
    ensures |ToSet(s)| <= |s|
  {
    if s != [] {
      var n := |s| - 1;
      assert s == s[..n] + [s[n]];
      assert ToSet(s) == ToSet(s[..n]) + {s[n]};
      MembersSize(s[..n]);
    }
  }

  lemma {:induction false} NothingToAdmit(cfg: Config, p: Progress, run: RunId, c: Campaign, wallets: seq<Address>)
    requires Exposure(c) > 0 && AdmitWallets(cfg, p, run, c, wallets).Ok?
    requires forall w :: w in wallets ==> HasRow(p.db.rows, run, w)
    ensures AdmitWallets(cfg, p, run, c, wallets).value.db.rows == p.db.rows
    decreases |wallets|
  {
    if wallets != [] {
      assert HasRow(p.db.rows, run, wallets[0]);
      NothingToAdmit(cfg, AdmitWallet(cfg, p, run, c, wallets[0]).value, run, c, wallets[1..]);
    }
  }

  /** The fleet checks of an admission step. */
  lemma AdmitStepFleet(cfg: Config, w: World, p: Proc, wallets: seq<Address>, enabled: bool)
    requires AdmitStep(cfg, w, p, wallets, enabled).Ok?
    ensures var copy := w.locals[p].copy;
            Distinct(wallets) && |wallets| == |copy.wallets| && (forall x :: x in wallets ==> x in copy.wallets) && wallets != []
  {
  }

  /** The run being admitted ends up with a row for every wallet of its armed fleet. */
  lemma AdmittedWhole(cfg: Config, w: World, p: Proc, wallets: seq<Address>, enabled: bool)
    requires LocalsOk(w) && AdmitStep(cfg, w, p, wallets, enabled).Ok?
    ensures WholeFleet(AdmitStep(cfg, w, p, wallets, enabled).value, w.locals[p].run)
  {
    var run, copy := w.locals[p].run, w.locals[p].copy;
    var db' := AdmitStep(cfg, w, p, wallets, enabled).value;
    assert LocalOk(w.db, w.locals[p]);
    AdmitShape(cfg, w.db, run, copy, wallets, enabled);
    AdmitStepFleet(cfg, w, p, wallets, enabled);
    SameFleet(wallets, copy.wallets);
    forall x | x in db'.runs[run].wallets ensures HasRow(db'.rows, run, x) {
      assert x in ToSet(copy.wallets);
    }
  }

  /** The run being admitted had no rows and is within its cap now, or had all of them and got none. */
  lemma AdmittedWithinCap(cfg: Config, db: Db, run: RunId, copy: Run, wallets: seq<Address>, enabled: bool)
    requires Shape(db) && Caps(cfg, db) && run in db.runs && copy == db.runs[run].(state := Armed)
    requires WholeFleet(db, run) && EverCapHolds(db, run)
    requires Admit(cfg, db, run, copy, wallets, enabled).Ok? && forall x :: x in wallets ==> x in copy.wallets
    ensures EverCapHolds(Admit(cfg, db, run, copy, wallets, enabled).value, run)
  {
    var c := copy.campaign;
    var db' := Admit(cfg, db, run, copy, wallets, enabled).value;
    AdmitShape(cfg, db, run, copy, wallets, enabled);
    if HasAnyRow(db.rows, run) {
      forall x | x in wallets ensures HasRow(db.rows, run, x) { assert x in copy.wallets; }
      NothingToAdmit(cfg, Progress(db, Sum(RunTotal(run), db.rows)), run, c, wallets);
    } else {
      AdmitCaps(cfg, db, run, copy, wallets, enabled);
      assert RunCapHolds(db', run);
      forall i | 0 <= i < |db'.rows| && Counts(RunEver(run), db'.rows[i]) ensures Counts(RunTotal(run), db'.rows[i]) {
        if i >= |db.rows| {
          assert FreshRow(db'.rows[i], db, run, c, wallets);
        }
      }
      SumMonotone(RunTotal(run), db'.rows, RunEver(run), db'.rows);
    }
  }

  lemma FleetAppend(cfg: Config, w: World, p: Proc, wallets: seq<Address>, enabled: bool, run: RunId)
    requires Shape(w.db) && Caps(cfg, w.db) && LocalsOk(w) && WholeFleet(w.db, run) && EverCapHolds(w.db, run)
    requires AdmitStep(cfg, w, p, wallets, enabled).Ok?
    ensures var db' := AdmitStep(cfg, w, p, wallets, enabled).value; WholeFleet(db', run) && EverCapHolds(db', run)
  {
    var admitted, copy := w.locals[p].run, w.locals[p].copy;
    assert LocalOk(w.db, w.locals[p]);
    if run != admitted {
      AdmitShape(cfg, w.db, admitted, copy, wallets, enabled);
      OthersKeepRows(w.db, AdmitStep(cfg, w, p, wallets, enabled).value, admitted, copy.campaign, wallets, run);
    } else {
      AdmitStepFleet(cfg, w, p, wallets, enabled);
      AdmittedWhole(cfg, w, p, wallets, enabled);
      AdmittedWithinCap(cfg, w.db, run, copy, wallets, enabled);
    }
  }

  lemma {:induction false} SumSkips(q: Query, rows: seq<Row>, rows': seq<Row>)
    requires rows <= rows' && forall i :: |rows| <= i < |rows'| ==> !Counts(q, rows'[i])
    ensures Sum(q, rows') == Sum(q, rows)
    decreases |rows'|
  {
    if |rows'| == |rows| {
      assert rows' == rows;
    } else {
      SumSkips(q, rows, rows'[..|rows'| - 1]);
    }
  }

  lemma OthersKeepRows(db: Db, db': Db, admitted: RunId, c: Campaign, wallets: seq<Address>, run: RunId)
    requires Exposure(c) > 0 && Appends(db, db', admitted, c, wallets) && run != admitted && admitted in db.runs
    requires db'.runs == db.runs[admitted := db.runs[admitted].(state := Active)]
    requires WholeFleet(db, run) && EverCapHolds(db, run)
    ensures WholeFleet(db', run) && EverCapHolds(db', run)
  {
    forall i | |db.rows| <= i < |db'.rows| ensures db'.rows[i].run == admitted { assert FreshRow(db'.rows[i], db, admitted, c, wallets); }
    SumSkips(RunEver(run), db.rows, db'.rows);
    if run in db.runs && HasAnyRow(db'.rows, run) {
      var i :| 0 <= i < |db'.rows| && db'.rows[i].run == run;
      assert db.rows[i].run == run;
      forall x | x in db'.runs[run].wallets ensures HasRow(db'.rows, run, x) {
        assert HasRow(db.rows, run, x);
        var k :| 0 <= k < |db.rows| && Keyed(db.rows[k], run, x);
        assert Keyed(db'.rows[k], run, x);
      }
    }
  }

  lemma FleetStep(cfg: Config, w: World, step: Step)
    requires Inv(cfg, w) && FleetInv(w.db)
    ensures FleetInv(Apply(cfg, w, step).db)
  {
    forall run ensures WholeFleet(Apply(cfg, w, step).db, run) && EverCapHolds(Apply(cfg, w, step).db, run) {
      assert WholeFleet(w.db, run) && EverCapHolds(w.db, run);
      if step.AdmitFleet? && AdmitStep(cfg, w, step.p, step.wallets, step.enabled).Ok? {
        FleetAppend(cfg, w, step.p, step.wallets, step.enabled, run);
      } else {
        StepEvolves(cfg, w, step);
        FleetEvolves(w.db, Apply(cfg, w, step).db, run);
      }
    }
  }

  lemma {:induction false} FleetAlways(cfg: Config, steps: seq<Step>)
    requires ValidConfig(cfg)
    ensures FleetInv(After(cfg, steps).db)
  {
    if steps != [] {
      FleetAlways(cfg, steps[..|steps| - 1]);
      Always(cfg, steps[..|steps| - 1]);
      FleetStep(cfg, After(cfg, steps[..|steps| - 1]), steps[|steps| - 1]);
    }
  }

  /**
   * Admission is all or nothing. A refused admission changes no table; after an accepted one, and at every later moment,
   * each wallet of the armed fleet has exactly one reservation of the run.
   */
  lemma AllOrNothing(cfg: Config, steps: seq<Step>, run: RunId, i: nat)
    requires ValidConfig(cfg)
    requires var db := After(cfg, steps).db; run in db.runs && i < |db.rows| && db.rows[i].run == run
    ensures var db := After(cfg, steps).db;
            forall w :: w in db.runs[run].wallets ==>
              HasRow(db.rows, run, w) &&
              forall j, k :: 0 <= j < |db.rows| && 0 <= k < |db.rows| && Keyed(db.rows[j], run, w) && Keyed(db.rows[k], run, w) ==> j == k
  {
    FleetAlways(cfg, steps);
    Always(cfg, steps);
    var db := After(cfg, steps).db;
    assert WholeFleet(db, run) && HasAnyRow(db.rows, run);
    forall w, j, k | w in db.runs[run].wallets && 0 <= j < |db.rows| && 0 <= k < |db.rows| && Keyed(db.rows[j], run, w) && Keyed(db.rows[k], run, w)
      ensures j == k
    {
      assert UniqueRows(db.rows);
    }
  }

  // ---- The pre-sign gate ----

  datatype SignRequest = SignRequest(
    wallet: Address, run: RunId, campaign: CampaignId, exec: ExecId, valueWei: int, maxGasWei: int, l1DataWei: int)
  datatype Enablement = Enablement(current: bool, paidAllowed: bool)

  function RowFor(rows: seq<Row>, run: RunId, w: Address): (found: Option<Row>)
    ensures found.Some? ==> exists i :: 0 <= i < |rows| && rows[i] == found.value && Keyed(rows[i], run, w)
    ensures found.None? ==> !HasRow(rows, run, w)
  {
    if rows == [] then None
    else if Keyed(rows[|rows| - 1], run, w) then Some(rows[|rows| - 1])
    else
      var found := RowFor(rows[..|rows| - 1], run, w);
      assert forall i :: 0 <= i < |rows| - 1 ==> rows[..|rows| - 1][i] == rows[i];
      found
  }

  function Cost(r: SignRequest): int {
    r.valueWei + r.maxGasWei + r.l1DataWei
  }

  function ExposureError(r: SignRequest, c: Campaign, row: Row): Option<string> {
    if r.valueWei != MintValue(c) then Some("MINT_VALUE_CHANGED_SINCE_ADMISSION")
    else if r.maxGasWei < 0 || r.l1DataWei < 0 then Some("EXPOSURE_EXCEEDS_RESERVATION")
    else if Cost(r) > row.reservedWei then Some("EXPOSURE_EXCEEDS_RESERVATION")
    else None
  }

  /** Everything checked right before a signature: kill switch, enablement, live reservation, identity, exposure. */
  function PreSignGate(db: Db, run: RunId, c: Campaign, r: SignRequest, enablement: Option<Enablement>): Result<Row> {
    var row := RowFor(db.rows, run, r.wallet);
    if db.killed then Err("KILLED")
    else if enablement.Some? && !enablement.value.current then Err("CHAIN_ENABLEMENT_NOT_CURRENT")
    else if enablement.Some? && r.valueWei > 0 && !enablement.value.paidAllowed then Err("PAID_ENABLEMENT_NOT_CURRENT")
    else if row.None? || row.value.status != Reserved then Err("DURABLE_RESERVATION_REQUIRED")
    else if r.run != run || r.campaign != c.id || r.exec != ExecId(run, r.wallet) then Err("CANONICAL_IDENTITY_REQUIRED")
    else
      var refused := ExposureError(r, c, row.value);
      if refused.Some? then Err(refused.value) else Ok(row.value)
  }

  function TotalCost(rs: seq<SignRequest>): int {
    if rs == [] then 0
    else TotalCost(rs[..|rs| - 1]) + rs[|rs| - 1].valueWei + rs[|rs| - 1].maxGasWei + rs[|rs| - 1].l1DataWei
  }

  /** The request is covered by a reservation of its wallet. */
  ghost predicate Covered(rows: seq<Row>, run: RunId, r: SignRequest) {
    exists i :: 0 <= i < |rows| && Keyed(rows[i], run, r.wallet) && Cost(r) <= rows[i].reservedWei
  }

  ghost predicate OnePerWallet(rs: seq<SignRequest>) {
    forall i, j :: 0 <= i < j < |rs| ==> rs[i].wallet != rs[j].wallet
  }

  lemma {:induction false} CostWithout(rs: seq<SignRequest>, i: nat)
    requires i < |rs|
    ensures TotalCost(rs) == TotalCost(rs[..i] + rs[i + 1..]) + Cost(rs[i])
    decreases |rs|
  {
    var n := |rs| - 1;
    if i == n {
      assert rs[..i] + rs[i + 1..] == rs[..n];
    } else {
      CostWithout(rs[..n], i);
      var rest := rs[..i] + rs[i + 1..];
      assert rest[..|rest| - 1] == rs[..n][..i] + rs[..n][i + 1..];
      assert rest[|rest| - 1] == rs[n];
    }
  }

  /** Requests for distinct wallets, each covered by its own reservation, cost no more than the run ever reserved. */
  lemma {:induction false} CoveredWithinSum(rows: seq<Row>, run: RunId, rs: seq<SignRequest>)
    requires OnePerWallet(rs) && forall i :: 0 <= i < |rs| ==> Covered(rows, run, rs[i])
    ensures TotalCost(rs) <= Sum(RunEver(run), rows)
    decreases |rows|
  {
    if rs != [] {
      assert Covered(rows, run, rs[0]);
      var n := |rows| - 1;
      var front := rows[..n];
      if i :| 0 <= i < |rs| && Keyed(rows[n], run, rs[i].wallet) && Cost(rs[i]) <= rows[n].reservedWei {
        var rest := rs[..i] + rs[i + 1..];
        forall k | 0 <= k < |rest| ensures Covered(front, run, rest[k]) {
          var m := if k < i then k else k + 1;
          assert rest[k] == rs[m] && rs[m].wallet != rs[i].wallet && Covered(rows, run, rs[m]);
          var x :| 0 <= x < |rows| && Keyed(rows[x], run, rs[m].wallet) && Cost(rs[m]) <= rows[x].reservedWei;
          assert x < n && front[x] == rows[x];
        }
        CoveredWithinSum(front, run, rest);
        CostWithout(rs, i);
      } else {
        forall k | 0 <= k < |rs| ensures Covered(front, run, rs[k]) {
          assert Covered(rows, run, rs[k]);
          var x :| 0 <= x < |rows| && Keyed(rows[x], run, rs[k].wallet) && Cost(rs[k]) <= rows[x].reservedWei;
          assert x < n && front[x] == rows[x];
        }
        CoveredWithinSum(front, run, rs);
      }
    }
  }

  /** The row covers the request: reserved for its wallet, admitted value, and value, gas and L1 data within the amount. */
  ghost predicate Covers(row: Row, run: RunId, c: Campaign, r: SignRequest) {
    && Keyed(row, run, r.wallet) && row.status == Reserved
    && r.valueWei == c.priceWei * c.quantity && r.maxGasWei >= 0 && r.l1DataWei >= 0
    && r.valueWei + r.maxGasWei + r.l1DataWei <= row.reservedWei
  }

  /** What the gate asks of a request apart from its reservation: nothing killed, current enablement, canonical identity. */
  predicate MaySign(db: Db, run: RunId, c: Campaign, r: SignRequest, enablement: Option<Enablement>) {
    && !db.killed
    && (enablement.Some? ==> enablement.value.current && (r.valueWei > 0 ==> enablement.value.paidAllowed))
    && r.run == run && r.campaign == c.id && r.exec == ExecId(run, r.wallet)
  }

  /** A request that passes the gate finds the reservation that covers it. */
  lemma GateFinds(db: Db, run: RunId, c: Campaign, r: SignRequest, enablement: Option<Enablement>) returns (i: nat)
    requires PreSignGate(db, run, c, r, enablement).Ok?
    ensures i < |db.rows| && Covers(db.rows[i], run, c, r) && MaySign(db, run, c, r, enablement)
  {
    var row := RowFor(db.rows, run, r.wallet).value;
    i :| 0 <= i < |db.rows| && db.rows[i] == row && Keyed(db.rows[i], run, r.wallet);
  }

  /** The gate passes if and only if the request may be signed and some reservation covers it. */
  lemma GateExactly(db: Db, run: RunId, c: Campaign, r: SignRequest, enablement: Option<Enablement>)
    requires UniqueRows(db.rows)
    ensures PreSignGate(db, run, c, r, enablement).Ok? <==>
            MaySign(db, run, c, r, enablement) && exists i :: 0 <= i < |db.rows| && Covers(db.rows[i], run, c, r)
  {
    if PreSignGate(db, run, c, r, enablement).Ok? {
      var i := GateFinds(db, run, c, r, enablement);
    } else if i :| 0 <= i < |db.rows| && Covers(db.rows[i], run, c, r) {
      assert HasRow(db.rows, run, r.wallet);
      var row := RowFor(db.rows, run, r.wallet).value;
      var k :| 0 <= k < |db.rows| && db.rows[k] == row && Keyed(db.rows[k], run, r.wallet);
      assert k == i;
    }
  }

  /** A request that passed the gate at some moment is covered by the same reservation ever after. */
  lemma GateCovers(cfg: Config, steps: seq<Step>, k: nat, run: RunId, c: Campaign, r: SignRequest, enablement: Option<Enablement>)
    requires k <= |steps| && PreSignGate(At(cfg, steps, k).db, run, c, r, enablement).Ok?
    ensures r.valueWei == c.priceWei * c.quantity && Covered(After(cfg, steps).db.rows, run, r)
  {
    var i := GateFinds(At(cfg, steps, k).db, run, c, r, enablement);
    RowsContinue(cfg, steps, k, |steps|, i);
    AtEnd(cfg, steps);
    assert Keyed(After(cfg, steps).db.rows[i], run, r.wallet);
  }

  /**
   * Whatever a run signs, one transaction per wallet, each gated at its own moment of the history: every value is the
   * admitted price times quantity, and value, gas and L1 data of all of them together fit the run cap.
   */
  lemma SignedWithinRunCap(
    cfg: Config, steps: seq<Step>, run: RunId, rs: seq<SignRequest>, when: seq<nat>, grants: seq<Option<Enablement>>)
    requires ValidConfig(cfg) && run in After(cfg, steps).db.runs
    requires |when| == |rs| && |grants| == |rs| && OnePerWallet(rs)
    requires forall i :: 0 <= i < |rs| ==>
      when[i] <= |steps| &&
      PreSignGate(At(cfg, steps, when[i]).db, run, After(cfg, steps).db.runs[run].campaign, rs[i], grants[i]).Ok?
    ensures var c := After(cfg, steps).db.runs[run].campaign;
            && (forall i :: 0 <= i < |rs| ==> rs[i].valueWei == c.priceWei * c.quantity)
            && TotalCost(rs) <= Max(0, c.maxRunWei)
  {
    var db := After(cfg, steps).db;
    var c := db.runs[run].campaign;
    forall i | 0 <= i < |rs| ensures rs[i].valueWei == c.priceWei * c.quantity && Covered(db.rows, run, rs[i]) {
      GateCovers(cfg, steps, when[i], run, c, rs[i], grants[i]);
    }
    CoveredWithinSum(db.rows, run, rs);
    FleetAlways(cfg, steps);
    assert EverCapHolds(db, run);
  }

  // ---- A finished run can come back ----

  const SAMPLE := Campaign(1, Ethereum, 1, 0, FeePolicy(0, None, None, Some(5)), 100, 100)

  ghost function SampleConfig(): Config {
    Config(Some(FleetPolicy(100, 100, 100, 1, 100, 100)), (id: CampaignId) => Terms(Ethereum, 0, 1))
  }

  /** On empty tables the sample admission passes every check. */
  lemma SampleAdmits(cfg: Config, db: Db, copy: Run)
    requires cfg == SampleConfig() && copy == Run(SAMPLE, Live, [3], Armed)
    requires 7 in db.runs && db.rows == [] && db.execs == map[] && db.now == 0 && !db.killed && db.watermark.None?
    ensures Admit(cfg, db, 7, copy, [3], true).Ok?
    ensures Admit(cfg, db, 7, copy, [3], true).value.rows == [Row(7, 3, 1, Ethereum, 5, 5, Some(0), Reserved, 0, None, None)]
    ensures Admit(cfg, db, 7, copy, [3], true).value.runs == db.runs[7 := db.runs[7].(state := Active)]
  {
    assert FleetLimitError(cfg, copy, [3]).None?;
    assert AdmissionError(cfg, db, 7, copy, [3], true).None?;
    var p := Progress(db, Sum(RunTotal(7), db.rows));
    assert CapError(cfg, db, SAMPLE, 3, 0).None?;
    assert AdmitWallet(cfg, p, 7, SAMPLE, 3) == Ok(AdmitWallet(cfg, p, 7, SAMPLE, 3).value);
    assert [3][1..] == [];
  }

  const SAMPLE_RUN := Run(SAMPLE, Live, [3], Armed)

  ghost function SampleSteps(): seq<Step> {
    [Arm(7, SAMPLE, Live, [3]), StartExecute(0, 7), CloseRun(7), AdmitFleet(0, [3], true)]
  }

  /** One process has read the armed run; nothing has been reserved. */
  lemma SampleRead(cfg: Config)
    requires cfg == SampleConfig()
    ensures var w := At(cfg, SampleSteps(), 2);
            w == World(Initial().db.(runs := map[7 := SAMPLE_RUN]), map[0 := Reading(7, SAMPLE_RUN)])
  {
    var steps := SampleSteps();
    assert steps[..0] == [];
    AtStep(cfg, steps, 0);
    assert At(cfg, steps, 1) == World(Initial().db.(runs := map[7 := SAMPLE_RUN]), map[]);
    AtStep(cfg, steps, 1);
  }

  /** Another process has closed it. */
  lemma SampleClosed(cfg: Config)
    requires cfg == SampleConfig()
    ensures var w := At(cfg, SampleSteps(), 3);
            w == World(Initial().db.(runs := map[7 := SAMPLE_RUN.(state := RunAborted)]), map[0 := Reading(7, SAMPLE_RUN)])
  {
    SampleRead(cfg);
    AtStep(cfg, SampleSteps(), 2);
    var db := At(cfg, SampleSteps(), 2).db;
    assert ProvablyUnsent(db, 7);
    assert CloseUnsent(db, 7).value.rows == [] && CloseUnsent(db, 7).value.execs == map[];
  }

  /**
   * The admission transaction does not look at the stored run state. A process that read the run while it was armed
   * admits it after another process has closed it, and the aborted run is active again with money reserved.
   */
  lemma AbortedRunRevived()
    ensures var cfg := SampleConfig();
            var steps := SampleSteps();
            && ValidConfig(cfg)
            && 7 in At(cfg, steps, 3).db.runs && At(cfg, steps, 3).db.runs[7].state == RunAborted
            && 7 in At(cfg, steps, 4).db.runs && At(cfg, steps, 4).db.runs[7].state == Active
            && |At(cfg, steps, 4).db.rows| == 1 && At(cfg, steps, 4).db.rows[0].status == Reserved
  {
    var cfg := SampleConfig();
    SampleClosed(cfg);
    AtStep(cfg, SampleSteps(), 3);
    SampleAdmits(cfg, At(cfg, SampleSteps(), 3).db, SAMPLE_RUN);
  }
}
