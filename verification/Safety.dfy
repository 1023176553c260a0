/** Invariants of the kernel, each kept by every step, and the caps they add up to over every history. */
module Safety {
  import opened Basics
  import opened Ledger
  import opened Coordinator
  import opened Kernel

  // ---- Shape of the tables ----

  ghost predicate RowOk(db: Db, row: Row) {
    && SettledWithinReserved(row)
    && (row.status == Settled ==> row.settledAt.value <= db.now)
    && row.run in db.runs
    && (var c := db.runs[row.run].campaign;
        row.campaign == c.id && row.chain == c.chain && row.mintValueWei == Some(MintValue(c)) && row.reservedWei == Exposure(c))
    && (var e := ExecId(row.run, row.wallet); e in db.execs && db.execs[e].campaign == row.campaign)
  }

  ghost predicate UniqueRows(rows: seq<Row>) {
    forall i, j :: 0 <= i < j < |rows| ==> !Keyed(rows[i], rows[j].run, rows[j].wallet)
  }

  /** One execution per campaign and wallet, kept for good. */
  ghost predicate UniqueExecs(execs: map<ExecId, Execution>) {
    forall e, f :: e in execs && f in execs && execs[e].campaign == execs[f].campaign && e.wallet == f.wallet ==> e == f
  }

  ghost predicate ExecsOk(db: Db) {
    forall e :: e in db.execs ==> e.run in db.runs && db.execs[e].campaign == db.runs[e.run].campaign.id
  }

  ghost predicate Shape(db: Db) {
    && (forall i :: 0 <= i < |db.rows| ==> RowOk(db, db.rows[i]))
    && UniqueRows(db.rows) && UniqueExecs(db.execs) && ExecsOk(db)
  }

  ghost predicate TermsKept(cfg: Config, db: Db) {
    forall r :: r in db.runs ==> TermsAgree(cfg, db.runs[r].campaign)
  }

  ghost predicate LocalOk(db: Db, l: Local) {
    match l
    case Reading(run, copy) => run in db.runs && copy == db.runs[run].(state := Armed)
    case Admitted(run) => run in db.runs
    case Pass(run, seen) => forall i :: 0 <= i < |seen| ==> seen[i] in db.attempts && seen[i].exec.run == run
  }

  ghost predicate LocalsOk(w: World) {
    forall p :: p in w.locals ==> LocalOk(w.db, w.locals[p])
  }

  // ---- The caps ----

  ghost predicate CapHolds(cfg: Config, db: Db, chain: Chain, cls: MintClass) {
    var policy := PolicyFor(cfg, chain);
    policy.Some? ==> Sum(FleetDaily(chain, cls, db.now - DAY_MS), db.rows) <= FleetCap(policy.value, chain, cls)
  }

  ghost predicate WindowHolds(cfg: Config, db: Db, chain: Chain, cls: MintClass, from: int) {
    var policy := PolicyFor(cfg, chain);
    policy.Some? ==> Sum(SettledWindow(chain, cls, from), db.rows) <= FleetCap(policy.value, chain, cls)
  }

  ghost predicate RunCapHolds(db: Db, run: RunId) {
    run in db.runs ==> Sum(RunTotal(run), db.rows) <= Max(0, db.runs[run].campaign.maxRunWei)
  }

  ghost predicate Caps(cfg: Config, db: Db) {
    && (forall chain, cls :: CapHolds(cfg, db, chain, cls))
    && (forall chain, cls, from :: WindowHolds(cfg, db, chain, cls, from))
    && (forall run :: RunCapHolds(db, run))
  }

  ghost predicate PaidCapHolds(cfg: Config, db: Db, id: CampaignId) {
    var policy := PolicyFor(cfg, cfg.terms(id).chain);
    policy.Some? && cfg.terms(id).priceWei != 0 ==> |Holders(db.rows, id)| <= policy.value.paidMaxWallets
  }

  ghost predicate AtMostOneOutstanding(db: Db) {
    forall i, j :: 0 <= i < j < |db.rows| ==> !(OutstandingRow(db, db.rows[i]) && OutstandingRow(db, db.rows[j]))
  }

  ghost predicate RehearsalHolds(db: Db) {
    RehearsalCompleted(db) || AtMostOneOutstanding(db)
  }

  ghost predicate Inv(cfg: Config, w: World) {
    && Shape(w.db) && TermsKept(cfg, w.db) && LocalsOk(w)
    && Caps(cfg, w.db)
    && (forall id :: PaidCapHolds(cfg, w.db, id))
    && RehearsalHolds(w.db)
  }

  // ---- Steps that are not admissions ----

  lemma ShapeEvolves(db: Db, db': Db)
    requires Shape(db) && Evolves(db, db')
    ensures Shape(db')
  {
    forall i | 0 <= i < |db'.rows| ensures RowOk(db', db'.rows[i]) {
      assert RowOk(db, db.rows[i]) && RowEvolves(db.rows[i], db'.rows[i], db.now);
    }
    forall i, j | 0 <= i < j < |db'.rows| ensures !Keyed(db'.rows[i], db'.rows[j].run, db'.rows[j].wallet) {
      assert RowEvolves(db.rows[i], db'.rows[i], db.now) && RowEvolves(db.rows[j], db'.rows[j], db.now);
    }
  }

  lemma CapEvolves(cfg: Config, db: Db, db': Db, chain: Chain, cls: MintClass)
    requires Evolves(db, db') && CapHolds(cfg, db, chain, cls)
    ensures CapHolds(cfg, db', chain, cls)
  {
    forall i | 0 <= i < |db.rows| && Counts(FleetDaily(chain, cls, db'.now - DAY_MS), db'.rows[i])
      ensures Counts(FleetDaily(chain, cls, db.now - DAY_MS), db.rows[i]) && db'.rows[i].reservedWei <= db.rows[i].reservedWei
    {
      assert RowEvolves(db.rows[i], db'.rows[i], db.now);
    }
    SumMonotone(FleetDaily(chain, cls, db.now - DAY_MS), db.rows, FleetDaily(chain, cls, db'.now - DAY_MS), db'.rows);
  }

  /**
   * A window reaching up to now is inside the rolling sum, which the cap bounds; a window that closed earlier can no
   * longer gain a settlement.
   */
  lemma WindowEvolves(cfg: Config, db: Db, db': Db, chain: Chain, cls: MintClass, from: int)
    requires Evolves(db, db') && CapHolds(cfg, db, chain, cls) && WindowHolds(cfg, db, chain, cls, from)
    ensures WindowHolds(cfg, db', chain, cls, from)
  {
    var recent := from >= db.now - DAY_MS;
    var before := if recent then FleetDaily(chain, cls, db.now - DAY_MS) else SettledWindow(chain, cls, from);
    forall i | 0 <= i < |db.rows| && Counts(SettledWindow(chain, cls, from), db'.rows[i])
      ensures Counts(before, db.rows[i]) && db'.rows[i].reservedWei <= db.rows[i].reservedWei
    {
      assert RowEvolves(db.rows[i], db'.rows[i], db.now);
    }
    SumMonotone(before, db.rows, SettledWindow(chain, cls, from), db'.rows);
  }

  lemma RunCapEvolves(db: Db, db': Db, run: RunId)
    requires Evolves(db, db') && RunCapHolds(db, run)
    requires Shape(db)
    ensures RunCapHolds(db', run)
  {
    forall i | 0 <= i < |db.rows| && Counts(RunTotal(run), db'.rows[i])
      ensures Counts(RunTotal(run), db.rows[i]) && db'.rows[i].reservedWei <= db.rows[i].reservedWei
    {
      assert RowEvolves(db.rows[i], db'.rows[i], db.now);
    }
    SumMonotone(RunTotal(run), db.rows, RunTotal(run), db'.rows);
    if run !in db.runs {
      NoRowsNoTotal(run, db.rows, |db.rows|, db);
      assert db.rows[..|db.rows|] == db.rows;
    }
  }

  lemma {:induction false} NoRowsNoTotal(run: RunId, rows: seq<Row>, n: nat, db: Db)
    requires n <= |rows| && rows == db.rows && Shape(db) && run !in db.runs
    ensures Sum(RunTotal(run), rows[..n]) == 0
    decreases n
  {
    if n > 0 {
      NoRowsNoTotal(run, rows, n - 1, db);
      assert rows[..n][..n - 1] == rows[..n - 1];
      assert RowOk(db, rows[n - 1]);
    }
  }

  lemma CapsEvolve(cfg: Config, db: Db, db': Db)
    requires Evolves(db, db') && Caps(cfg, db) && Shape(db)
    ensures Caps(cfg, db')
  {
    forall chain, cls ensures CapHolds(cfg, db', chain, cls) {
      assert CapHolds(cfg, db, chain, cls);
      CapEvolves(cfg, db, db', chain, cls);
    }
    forall chain, cls, from ensures WindowHolds(cfg, db', chain, cls, from) {
      assert CapHolds(cfg, db, chain, cls) && WindowHolds(cfg, db, chain, cls, from);
      WindowEvolves(cfg, db, db', chain, cls, from);
    }
    forall run ensures RunCapHolds(db', run) {
      assert RunCapHolds(db, run);
      RunCapEvolves(db, db', run);
    }
  }

  lemma PaidCapEvolves(cfg: Config, db: Db, db': Db, id: CampaignId)
    requires Evolves(db, db') && PaidCapHolds(cfg, db, id)
    ensures PaidCapHolds(cfg, db', id)
  {
    forall w | w in Holders(db'.rows, id) ensures w in Holders(db.rows, id) {
      var i :| 0 <= i < |db'.rows| && db'.rows[i].campaign == id && db'.rows[i].status != Released && db'.rows[i].wallet == w;
      assert RowEvolves(db.rows[i], db'.rows[i], db.now);
    }
    SubsetSize(Holders(db'.rows, id), Holders(db.rows, id));
  }

  lemma FinalReceiptStays(receipts: seq<Receipt>, receipts': seq<Receipt>, e: ExecId, states: set<FactState>)
    requires receipts <= receipts' && HasFinalReceipt(receipts, e, states)
    ensures HasFinalReceipt(receipts', e, states)
  {
    var k :| 0 <= k < |receipts| && receipts[k].exec == e && receipts[k].stage == Some(EthereumFinal) && receipts[k].state in states;
    assert receipts'[k] == receipts[k];
  }

  lemma RehearsalEvolves(db: Db, db': Db)
    requires Evolves(db, db') && RehearsalHolds(db)
    ensures RehearsalHolds(db')
  {
    if RehearsalCompleted(db) {
      var i :| 0 <= i < |db.rows| && ProvesRehearsal(db, db.rows[i]);
      assert RowEvolves(db.rows[i], db'.rows[i], db.now);
      FinalReceiptStays(db.receipts, db'.receipts, ExecId(db.rows[i].run, db.rows[i].wallet), {Confirmed});
      assert ProvesRehearsal(db', db'.rows[i]);
    } else {
      forall i | 0 <= i < |db'.rows| && OutstandingRow(db', db'.rows[i]) ensures OutstandingRow(db, db.rows[i]) {
        assert RowEvolves(db.rows[i], db'.rows[i], db.now);
        var e := ExecId(db.rows[i].run, db.rows[i].wallet);
        if HasFinalReceipt(db.receipts, e, {Confirmed, Failed}) {
          FinalReceiptStays(db.receipts, db'.receipts, e, {Confirmed, Failed});
        }
      }
    }
  }

  // ---- Admissions ----

  /** What holds of the admitted campaign throughout the admission loop. */
  ghost predicate Context(cfg: Config, db: Db, run: RunId, c: Campaign) {
    && run in db.runs && db.runs[run].campaign == c && Exposure(c) > 0
    && (PolicyFor(cfg, c.chain).Some? ==> c.quantity >= 1 && c.priceWei >= 0)
  }

  ghost predicate LoopInv(cfg: Config, p: Progress, run: RunId, c: Campaign) {
    && Context(cfg, p.db, run, c) && Shape(p.db) && Caps(cfg, p.db)
    && p.total == Sum(RunTotal(run), p.db.rows)
  }

  /** Every cap survives the one row it was just checked for. */
  lemma CapsAppend(cfg: Config, db: Db, run: RunId, c: Campaign, w: Address, db': Db)
    requires Context(cfg, db, run, c) && Caps(cfg, db)
    requires CapError(cfg, db, c, w, Sum(RunTotal(run), db.rows)).None?
    requires db'.rows == db.rows + [NewRow(db, run, c, w)] && db'.now == db.now && db'.runs == db.runs
    ensures Caps(cfg, db')
  {
    var row := NewRow(db, run, c, w);
    forall chain, cls ensures CapHolds(cfg, db', chain, cls) {
      assert CapHolds(cfg, db, chain, cls);
      SumAppend(FleetDaily(chain, cls, db.now - DAY_MS), db.rows, row);
      if PolicyFor(cfg, chain).Some? && chain == c.chain {
        ClassConsistent(db, run, c, w, cls);
      }
    }
    forall chain, cls, from ensures WindowHolds(cfg, db', chain, cls, from) {
      assert WindowHolds(cfg, db, chain, cls, from);
      SumAppend(SettledWindow(chain, cls, from), db.rows, row);
    }
    forall r ensures RunCapHolds(db', r) {
      assert RunCapHolds(db, r);
      SumAppend(RunTotal(r), db.rows, row);
    }
  }

  /** What admitting one wallet does: its execution is recorded, and at most one row is appended. */
  lemma AdmitWalletEffect(cfg: Config, p: Progress, run: RunId, c: Campaign, w: Address)
    requires Exposure(c) > 0 && AdmitWallet(cfg, p, run, c, w).Ok?
    ensures var next := AdmitWallet(cfg, p, run, c, w).value;
            var e := ExecId(run, w);
            && next.db.now == p.db.now && next.db.runs == p.db.runs
            && next.db.execs == (if e in p.db.execs then p.db.execs else p.db.execs[e := Execution(c.id, Prepared)])
            && (e in p.db.execs || !CampaignWalletUsed(p.db.execs, c.id, w))
            && (if HasRow(p.db.rows, run, w) then next.db.rows == p.db.rows && next.total == p.total
                else next.db.rows == p.db.rows + [NewRow(p.db, run, c, w)] && next.total == p.total + Exposure(c) &&
                     CapError(cfg, p.db, c, w, p.total).None?)
  {
  }

  lemma ExecsAppend(execs: map<ExecId, Execution>, e: ExecId, campaign: CampaignId)
    requires UniqueExecs(execs) && e !in execs && !CampaignWalletUsed(execs, campaign, e.wallet)
    ensures UniqueExecs(execs[e := Execution(campaign, Prepared)])
  {
    var execs' := execs[e := Execution(campaign, Prepared)];
    forall f, g | f in execs' && g in execs' && execs'[f].campaign == execs'[g].campaign && f.wallet == g.wallet ensures f == g {
      assert forall h :: h in execs ==> execs'[h] == execs[h] && !(execs[h].campaign == campaign && h.wallet == e.wallet);
    }
  }

  lemma RowsAppend(db: Db, db': Db, run: RunId, c: Campaign, w: Address)
    requires Shape(db) && run in db.runs && db.runs[run].campaign == c && Exposure(c) > 0
    requires db'.now == db.now && db'.runs == db.runs
    requires ExecId(run, w) in db'.execs && db'.execs[ExecId(run, w)].campaign == c.id
    requires forall e :: e in db.execs ==> e in db'.execs && db'.execs[e] == db.execs[e]
    requires db'.rows == db.rows || (!HasRow(db.rows, run, w) && db'.rows == db.rows + [NewRow(db, run, c, w)])
    ensures forall i :: 0 <= i < |db'.rows| ==> RowOk(db', db'.rows[i])
    ensures UniqueRows(db'.rows)
  {
    forall i | 0 <= i < |db'.rows| ensures RowOk(db', db'.rows[i]) {
      if i < |db.rows| {
        assert db'.rows[i] == db.rows[i] && RowOk(db, db.rows[i]);
      }
    }
    forall i, j | 0 <= i < j < |db'.rows| ensures !Keyed(db'.rows[i], db'.rows[j].run, db'.rows[j].wallet) {
      if j == |db.rows| {
        assert !Keyed(db.rows[i], run, w);
      } else {
        assert db'.rows[i] == db.rows[i] && db'.rows[j] == db.rows[j];
      }
    }
  }

  lemma ShapeAppend(cfg: Config, p: Progress, run: RunId, c: Campaign, w: Address)
    requires Context(cfg, p.db, run, c) && Shape(p.db) && AdmitWallet(cfg, p, run, c, w).Ok?
    ensures Shape(AdmitWallet(cfg, p, run, c, w).value.db)
  {
    var db' := AdmitWallet(cfg, p, run, c, w).value.db;
    AdmitWalletEffect(cfg, p, run, c, w);
    if ExecId(run, w) !in p.db.execs {
      ExecsAppend(p.db.execs, ExecId(run, w), c.id);
    }
    RowsAppend(p.db, db', run, c, w);
  }

  lemma {:induction false} AdmitWalletsKeep(cfg: Config, p: Progress, run: RunId, c: Campaign, wallets: seq<Address>)
    requires LoopInv(cfg, p, run, c) && AdmitWallets(cfg, p, run, c, wallets).Ok?
    ensures LoopInv(cfg, AdmitWallets(cfg, p, run, c, wallets).value, run, c)
    decreases |wallets|
  {
    if wallets != [] {
      var w := wallets[0];
      var next := AdmitWallet(cfg, p, run, c, w).value;
      ShapeAppend(cfg, p, run, c, w);
      AdmitWalletEffect(cfg, p, run, c, w);
      if HasRow(p.db.rows, run, w) {
        CapsSame(cfg, p.db, next.db);
      } else {
        CapsAppend(cfg, p.db, run, c, w, next.db);
        SumAppend(RunTotal(run), p.db.rows, NewRow(p.db, run, c, w));
      }
      AdmitWalletsKeep(cfg, next, run, c, wallets[1..]);
    }
  }

  ghost predicate SameTerms(db: Db, db': Db) {
    && db'.rows == db.rows && db'.now == db.now && db'.runs.Keys == db.runs.Keys
    && forall r :: r in db.runs ==> db'.runs[r].campaign == db.runs[r].campaign
  }

  lemma CapsSame(cfg: Config, db: Db, db': Db)
    requires Caps(cfg, db) && SameTerms(db, db')
    ensures Caps(cfg, db')
  {
    forall chain, cls ensures CapHolds(cfg, db', chain, cls) { assert CapHolds(cfg, db, chain, cls); }
    forall chain, cls, from ensures WindowHolds(cfg, db', chain, cls, from) { assert WindowHolds(cfg, db, chain, cls, from); }
    forall run ensures RunCapHolds(db', run) { assert RunCapHolds(db, run); }
  }

  lemma AdmitCaps(cfg: Config, db: Db, run: RunId, copy: Run, wallets: seq<Address>, enabled: bool)
    requires Shape(db) && Caps(cfg, db)
    requires run in db.runs && copy.campaign == db.runs[run].campaign
    requires Admit(cfg, db, run, copy, wallets, enabled).Ok?
    ensures Shape(Admit(cfg, db, run, copy, wallets, enabled).value)
    ensures Caps(cfg, Admit(cfg, db, run, copy, wallets, enabled).value)
  {
    var c := copy.campaign;
    var start := Progress(db, Sum(RunTotal(run), db.rows));
    var p := AdmitWallets(cfg, start, run, c, wallets).value;
    var db' := Admit(cfg, db, run, copy, wallets, enabled).value;
    assert LoopInv(cfg, start, run, c);
    AdmitWalletsKeep(cfg, start, run, c, wallets);
    AdmitWalletsAppends(cfg, start, run, c, wallets);
    CapsSame(cfg, p.db, db');
    forall i | 0 <= i < |db'.rows| ensures RowOk(db', db'.rows[i]) { assert RowOk(p.db, p.db.rows[i]); }
  }

  /** The tables before and after a successful admission, apart from the caps. */
  lemma AdmitShape(cfg: Config, db: Db, run: RunId, copy: Run, wallets: seq<Address>, enabled: bool)
    requires Admit(cfg, db, run, copy, wallets, enabled).Ok?
    ensures Exposure(copy.campaign) > 0 && run in db.runs
    ensures Appends(db, Admit(cfg, db, run, copy, wallets, enabled).value, run, copy.campaign, wallets)
    ensures Admit(cfg, db, run, copy, wallets, enabled).value.runs == db.runs[run := db.runs[run].(state := Active)]
  {
    AdmitWalletsAppends(cfg, Progress(db, Sum(RunTotal(run), db.rows)), run, copy.campaign, wallets);
  }

  lemma PaidCapAppend(cfg: Config, db: Db, db': Db, run: RunId, c: Campaign, wallets: seq<Address>, id: CampaignId)
    requires Exposure(c) > 0 && Appends(db, db', run, c, wallets) && TermsAgree(cfg, c)
    requires ClassOf(c) == Paid ==> PaidWalletsError(cfg, db, c, wallets).None?
    requires PaidCapHolds(cfg, db, id)
    ensures PaidCapHolds(cfg, db', id)
  {
    var bound := if id == c.id then Holders(db.rows, id) + ToSet(wallets) else Holders(db.rows, id);
    forall w | w in Holders(db'.rows, id) ensures w in bound {
      var i :| 0 <= i < |db'.rows| && db'.rows[i].campaign == id && db'.rows[i].status != Released && db'.rows[i].wallet == w;
      if i >= |db.rows| {
        assert FreshRow(db'.rows[i], db, run, c, wallets);
      } else {
        assert db'.rows[i] == db.rows[i];
      }
    }
    SubsetSize(Holders(db'.rows, id), bound);
  }

  lemma RehearsalAppend(db: Db, db': Db, run: RunId, c: Campaign, wallets: seq<Address>)
    requires Exposure(c) > 0 && Appends(db, db', run, c, wallets) && RehearsalHolds(db)
    requires c.chain == Base ==> RehearsalError(db, |wallets|, c.quantity).None?
    ensures RehearsalHolds(db')
  {
    if RehearsalCompleted(db) {
      var i :| 0 <= i < |db.rows| && ProvesRehearsal(db, db.rows[i]);
      assert ProvesRehearsal(db', db'.rows[i]);
    } else {
      if c.chain == Base {
        forall i | 0 <= i < |db.rows| ensures !OutstandingRow(db', db'.rows[i]) {
          assert !OutstandingRow(db, db.rows[i]);
        }
      } else {
        forall i | |db.rows| <= i < |db'.rows| ensures !OutstandingRow(db', db'.rows[i]) {
          assert FreshRow(db'.rows[i], db, run, c, wallets);
        }
        forall i | 0 <= i < |db.rows| && OutstandingRow(db', db'.rows[i]) ensures OutstandingRow(db, db.rows[i]) {
        }
      }
    }
  }

  // ---- Every step keeps the invariant ----

  lemma {:induction false} AttemptsOfFrom(attempts: seq<Attempt>, run: RunId)
    ensures forall a :: a in AttemptsOf(attempts, run) <==> a in attempts && a.exec.run == run
  {
    if attempts != [] {
      var n := |attempts| - 1;
      AttemptsOfFrom(attempts[..n], run);
      assert attempts == attempts[..n] + [attempts[n]];
    }
  }

  lemma LocalsKept(db: Db, db': Db, l: Local)
    requires LocalOk(db, l) && RunsKept(db.runs, db'.runs) && db.attempts <= db'.attempts
    ensures LocalOk(db', l)
  {
  }

  /** The batch-wide checks a successful admission has passed. */
  lemma AdmitPassed(cfg: Config, db: Db, run: RunId, copy: Run, wallets: seq<Address>, enabled: bool)
    requires Admit(cfg, db, run, copy, wallets, enabled).Ok?
    ensures !db.killed && wallets != [] && Distinct(wallets)
    ensures ClassOf(copy.campaign) == Paid ==> PaidWalletsError(cfg, db, copy.campaign, wallets).None?
    ensures copy.campaign.chain == Base && copy.mode == Live ==> RehearsalError(db, |wallets|, copy.campaign.quantity).None?
    ensures copy.mode == Live ==> PolicyFor(cfg, copy.campaign.chain).Some?
  {
  }

  lemma AdmitPaidCap(cfg: Config, db: Db, run: RunId, copy: Run, wallets: seq<Address>, enabled: bool, id: CampaignId)
    requires Admit(cfg, db, run, copy, wallets, enabled).Ok? && TermsAgree(cfg, copy.campaign) && PaidCapHolds(cfg, db, id)
    ensures PaidCapHolds(cfg, Admit(cfg, db, run, copy, wallets, enabled).value, id)
  {
    AdmitShape(cfg, db, run, copy, wallets, enabled);
    AdmitPassed(cfg, db, run, copy, wallets, enabled);
    PaidCapAppend(cfg, db, Admit(cfg, db, run, copy, wallets, enabled).value, run, copy.campaign, wallets, id);
  }

  lemma AdmitRehearsal(cfg: Config, db: Db, run: RunId, copy: Run, wallets: seq<Address>, enabled: bool)
    requires Admit(cfg, db, run, copy, wallets, enabled).Ok? && copy.mode == Live && RehearsalHolds(db)
    ensures RehearsalHolds(Admit(cfg, db, run, copy, wallets, enabled).value)
  {
    AdmitShape(cfg, db, run, copy, wallets, enabled);
    AdmitPassed(cfg, db, run, copy, wallets, enabled);
    RehearsalAppend(db, Admit(cfg, db, run, copy, wallets, enabled).value, run, copy.campaign, wallets);
  }

  lemma AdmissionKeepsMoney(cfg: Config, db: Db, run: RunId, copy: Run, wallets: seq<Address>, enabled: bool)
    requires Shape(db) && Caps(cfg, db) && RehearsalHolds(db) && forall id :: PaidCapHolds(cfg, db, id)
    requires run in db.runs && copy == db.runs[run].(state := Armed) && copy.mode == Live && TermsAgree(cfg, copy.campaign)
    requires Admit(cfg, db, run, copy, wallets, enabled).Ok?
    ensures var db' := Admit(cfg, db, run, copy, wallets, enabled).value;
            Shape(db') && Caps(cfg, db') && RehearsalHolds(db') && forall id :: PaidCapHolds(cfg, db', id)
  {
    AdmitCaps(cfg, db, run, copy, wallets, enabled);
    forall id ensures PaidCapHolds(cfg, Admit(cfg, db, run, copy, wallets, enabled).value, id) {
      assert PaidCapHolds(cfg, db, id);
      AdmitPaidCap(cfg, db, run, copy, wallets, enabled, id);
    }
    AdmitRehearsal(cfg, db, run, copy, wallets, enabled);
  }

  lemma AdmissionKeeps(cfg: Config, w: World, p: Proc, wallets: seq<Address>, enabled: bool)
    requires Inv(cfg, w) && AdmitStep(cfg, w, p, wallets, enabled).Ok?
    ensures Inv(cfg, Admitting(w, p, AdmitStep(cfg, w, p, wallets, enabled).value))
  {
    assert LocalOk(w.db, w.locals[p]);
    AdmissionKeepsMoney(cfg, w.db, w.locals[p].run, w.locals[p].copy, wallets, enabled);
    AdmitShape(cfg, w.db, w.locals[p].run, w.locals[p].copy, wallets, enabled);
    AdmissionKeepsRuns(cfg, w, p, AdmitStep(cfg, w, p, wallets, enabled).value);
  }

  lemma AdmissionKeepsRuns(cfg: Config, w: World, p: Proc, db': Db)
    requires LocalsOk(w) && TermsKept(cfg, w.db) && p in w.locals && w.locals[p].run in w.db.runs
    requires db'.runs == w.db.runs[w.locals[p].run := w.db.runs[w.locals[p].run].(state := Active)] && db'.attempts == w.db.attempts
    ensures LocalsOk(Admitting(w, p, db')) && TermsKept(cfg, db')
  {
    var w' := Admitting(w, p, db');
    forall q | q in w'.locals ensures LocalOk(w'.db, w'.locals[q]) {
      if q != p { LocalsKept(w.db, w'.db, w.locals[q]); }
    }
  }

  lemma EvolutionKeeps(cfg: Config, w: World, step: Step)
    requires Inv(cfg, w)
    requires step.AdmitFleet? ==> AdmitStep(cfg, w, step.p, step.wallets, step.enabled).Err?
    ensures Inv(cfg, Apply(cfg, w, step))
  {
    var w' := Apply(cfg, w, step);
    StepEvolves(cfg, w, step);
    ShapeEvolves(w.db, w'.db);
    CapsEvolve(cfg, w.db, w'.db);
    forall id ensures PaidCapHolds(cfg, w'.db, id) {
      assert PaidCapHolds(cfg, w.db, id);
      PaidCapEvolves(cfg, w.db, w'.db, id);
    }
    RehearsalEvolves(w.db, w'.db);
    TermsStay(cfg, w, step);
    LocalsStay(cfg, w, step);
  }

  lemma TermsStay(cfg: Config, w: World, step: Step)
    requires TermsKept(cfg, w.db) && Evolves(w.db, Apply(cfg, w, step).db)
    ensures TermsKept(cfg, Apply(cfg, w, step).db)
  {
    var w' := Apply(cfg, w, step);
    forall r | r in w'.db.runs ensures TermsAgree(cfg, w'.db.runs[r].campaign) {
      if r in w.db.runs {
        assert w'.db.runs[r].(state := w.db.runs[r].state) == w.db.runs[r];
      } else if !step.Arm? {
        RunsOnlyArmed(cfg, w, step);
      }
    }
  }

  /** Only an arm adds a run. */
  lemma RunsOnlyArmed(cfg: Config, w: World, step: Step)
    requires !step.Arm?
    ensures Apply(cfg, w, step).db.runs.Keys == w.db.runs.Keys
  {
    match step
    case AdmitFleet(p, wallets, enabled) =>
      if AdmitStep(cfg, w, p, wallets, enabled).Ok? {
        AdmitShape(cfg, w.db, w.locals[p].run, w.locals[p].copy, wallets, enabled);
      }
    case _ =>
  }

  lemma LocalsStay(cfg: Config, w: World, step: Step)
    requires LocalsOk(w) && Evolves(w.db, Apply(cfg, w, step).db)
    requires step.AdmitFleet? ==> AdmitStep(cfg, w, step.p, step.wallets, step.enabled).Err?
    ensures LocalsOk(Apply(cfg, w, step))
  {
    var w' := Apply(cfg, w, step);
    forall q | q in w'.locals ensures LocalOk(w'.db, w'.locals[q]) {
      if step.ReadRun? {
        AttemptsOfFrom(w.db.attempts, step.run);
      }
      if q in w.locals && w'.locals[q] == w.locals[q] {
        LocalsKept(w.db, w'.db, w.locals[q]);
      }
    }
  }

  lemma StepKeeps(cfg: Config, w: World, step: Step)
    requires Inv(cfg, w)
    ensures Inv(cfg, Apply(cfg, w, step))
  {
    if step.AdmitFleet? && AdmitStep(cfg, w, step.p, step.wallets, step.enabled).Ok? {
      AdmissionKeeps(cfg, w, step.p, step.wallets, step.enabled);
    } else {
      EvolutionKeeps(cfg, w, step);
    }
  }

  /** The invariant holds after every history of steps, of any length and in any interleaving. */
  lemma {:induction false} Always(cfg: Config, steps: seq<Step>)
    requires ValidConfig(cfg)
    ensures Inv(cfg, After(cfg, steps))
  {
    if steps != [] {
      Always(cfg, steps[..|steps| - 1]);
      StepKeeps(cfg, After(cfg, steps[..|steps| - 1]), steps[|steps| - 1]);
    }
  }
}
