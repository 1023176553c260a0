/**
 * The independent wallet watcher. It compares what the chain shows for a wallet with a stored baseline and with
 * MintBot's own records, and moves the baseline only over activity it can explain.
 */
module Watcher {
  import opened Basics

  datatype Target = Target(wallet: nat, chain: nat)

  datatype Reading = Reading(nonce: nat, balanceWei: int)
  datatype Baseline = Baseline(nonce: nat, balanceWei: int, observedAt: nat)
  datatype Ledger = Ledger(knownNext: Option<nat>, allowedFallWei: int)

  datatype Verdict =
    | First | Fine | Rise | UnknownActivity(observed: nat, expected: nat) | UnexplainedFall(fallWei: int, allowedWei: int) | Inconsistent

  // ---- MintBot's own records of a wallet ----

  datatype Sent = Sent(wallet: nat, chain: Option<nat>, nonce: Option<nat>)
  datatype Held = Held(wallet: nat, chain: Option<nat>, pending: bool, updatedAt: nat, amountWei: int)

  /** What one snapshot of MintBot's state says about its wallets: whether a run is open, what it sent, what it holds. */
  datatype Records = Records(runActive: bool, sent: seq<Sent>, held: seq<Held>)

  predicate SentBy(s: Sent, t: Target) {
    s.wallet == t.wallet && s.chain == Some(t.chain) && s.nonce.Some?
  }

  predicate Explains(h: Held, t: Target, baseline: Option<Baseline>) {
    h.wallet == t.wallet && h.chain == Some(t.chain) && (h.pending || (baseline.Some? && h.updatedAt >= baseline.value.observedAt))
  }

  function AllowedFall(held: seq<Held>, t: Target, baseline: Option<Baseline>): int {
    if held == [] then 0
    else AllowedFall(held[..|held| - 1], t, baseline) + if Explains(held[|held| - 1], t, baseline) then held[|held| - 1].amountWei else 0
  }

  /** One above the highest nonce MintBot used for the wallet on this chain; `None` when it never sent anything. */
  function KnownNext(sent: seq<Sent>, t: Target): (next: Option<nat>)
    ensures next.None? <==> forall i :: 0 <= i < |sent| ==> !SentBy(sent[i], t)
    ensures next.Some? ==> exists i :: 0 <= i < |sent| && SentBy(sent[i], t) && sent[i].nonce.value + 1 == next.value
    ensures next.Some? ==> forall i :: 0 <= i < |sent| && SentBy(sent[i], t) ==> sent[i].nonce.value < next.value
  {
    if sent == [] then None
    else
      var last := sent[|sent| - 1];
      var before := KnownNext(sent[..|sent| - 1], t);
      assert forall i :: 0 <= i < |sent| - 1 ==> sent[..|sent| - 1][i] == sent[i];
      if SentBy(last, t) && (before.None? || before.value < last.nonce.value + 1) then Some(last.nonce.value + 1) else before
  }

  function LedgerOf(t: Target, rec: Records, baseline: Option<Baseline>): Ledger {
    Ledger(KnownNext(rec.sent, t), AllowedFall(rec.held, t, baseline))
  }

  lemma KnownNextLast(sent: seq<Sent>, i: nat, t: Target)
    requires i < |sent|
    ensures KnownNext(sent[..i + 1], t) ==
            if SentBy(sent[i], t) && (KnownNext(sent[..i], t).None? || KnownNext(sent[..i], t).value < sent[i].nonce.value + 1)
            then Some(sent[i].nonce.value + 1) else KnownNext(sent[..i], t)
  {
    assert sent[..i + 1][..i] == sent[..i];
  }

  lemma AllowedLast(held: seq<Held>, i: nat, t: Target, baseline: Option<Baseline>)
    requires i < |held|
    ensures AllowedFall(held[..i + 1], t, baseline) == AllowedFall(held[..i], t, baseline) + if Explains(held[i], t, baseline) then held[i].amountWei else 0
  {
    assert held[..i + 1][..i] == held[..i];
  }

  method LedgerFor(t: Target, rec: Records, baseline: Option<Baseline>) returns (ledger: Ledger)
    ensures ledger == LedgerOf(t, rec, baseline)
  {
    var next: Option<nat> := None;
    for i := 0 to |rec.sent|
      invariant next == KnownNext(rec.sent[..i], t)
    {
      KnownNextLast(rec.sent, i, t);
      if SentBy(rec.sent[i], t) && (next.None? || next.value < rec.sent[i].nonce.value + 1) {
        next := Some(rec.sent[i].nonce.value + 1);
      }
    }
    assert rec.sent[..|rec.sent|] == rec.sent;
    var allowed := 0;
    for i := 0 to |rec.held|
      invariant allowed == AllowedFall(rec.held[..i], t, baseline)
    {
      AllowedLast(rec.held, i, t, baseline);
      if Explains(rec.held[i], t, baseline) {
        allowed := allowed + rec.held[i].amountWei;
      }
    }
    assert rec.held[..|rec.held|] == rec.held;
    ledger := Ledger(next, allowed);
  }

  /** Open runs and pending exposure of the wallet, on this chain or an unknown one, rule out a treasury return. */
  predicate ReturnBlocked(t: Target, rec: Records) {
    rec.runActive ||
    exists i :: 0 <= i < |rec.held| && rec.held[i].wallet == t.wallet && rec.held[i].pending && (rec.held[i].chain.None? || rec.held[i].chain == Some(t.chain))
  }

  // ---- Judging one reading ----

  function Expected(b: Baseline, l: Ledger): nat {
    if l.knownNext.Some? && l.knownNext.value > b.nonce then l.knownNext.value else b.nonce
  }

  function Judge(r: Reading, baseline: Option<Baseline>, l: Ledger): Verdict {
    if baseline.None? then First
    else
      var b := baseline.value;
      if r.nonce < b.nonce then Inconsistent
      else if r.nonce > Expected(b, l) then UnknownActivity(r.nonce, Expected(b, l))
      else if r.balanceWei < b.balanceWei then
        (if b.balanceWei - r.balanceWei > l.allowedFallWei
         then UnexplainedFall(b.balanceWei - r.balanceWei, l.allowedFallWei) else Fine)
      else if r.balanceWei > b.balanceWei then Rise
      else Fine
  }

  predicate KillClass(v: Verdict) {
    v.UnknownActivity? || v.UnexplainedFall?
  }

  // ---- Acting on it ----

  datatype Proof = Proof(
    sameWallet: bool, fromNonce: nat, toNonce: nat, nonce: nat, balanceWei: int, baseline: Baseline,
    hashes: seq<nat>, wellFormed: bool, totalValueWei: int, totalFeeWei: int)

  /**
   * What the world answers while one wallet is checked: the second read, the return verifier, the kill, and MintBot's
   * records as each of the five snapshots of the check finds them.
   */
  datatype Probe = Probe(
    first: Records, second: Option<Reading>, secondRecords: Records,
    returnRecords: Records, proof: Option<Proof>, freshRecords: Records, feeCapWei: Option<int>,
    commitRecords: Records, baselineMoved: bool, storedIsBaseline: bool,
    alreadyKilled: bool, killWorks: bool, now: nat, committedAt: nat, stale: bool)

  datatype Interval = Interval(from: nat, to: nat)
  datatype Reaction = Reaction(baseline: Option<Baseline>, verdict: Verdict, killed: bool, killFailed: bool, returned: Option<Interval>)

  /** The verdict that is acted on, and the reading behind it: a finding that would kill is read a second time. */
  function Confirmed(t: Target, baseline: Option<Baseline>, r: Reading, p: Probe): (Verdict, Reading) {
    var v := Judge(r, baseline, LedgerOf(t, p.first, baseline));
    if !KillClass(v) || p.second.None? then (v, r)
    else
      var again := Judge(p.second.value, baseline, LedgerOf(t, p.secondRecords, baseline));
      if KillClass(again) then (again, p.second.value) else (Inconsistent, r)
  }

  /** The complete check of a treasury-return proof against the baseline, the reading and two reads of the records. */
  predicate Verified(t: Target, b: Baseline, r: Reading, p: Probe) {
    var ledger := LedgerOf(t, p.returnRecords, Some(b));
    var start := Expected(b, ledger);
    && !ReturnBlocked(t, p.returnRecords) && p.proof.Some?
    && !ReturnBlocked(t, p.freshRecords) && !p.baselineMoved && LedgerOf(t, p.freshRecords, Some(b)) == ledger
    && var q := p.proof.value;
       && q.sameWallet && q.baseline == b && q.fromNonce == start && q.toNonce == r.nonce && q.nonce == r.nonce && q.balanceWei == r.balanceWei
       && start < r.nonce <= start + 8 && |q.hashes| == r.nonce - start && Distinct(q.hashes) && q.wellFormed
       && q.totalValueWei > 0 && q.totalFeeWei >= 0 && p.feeCapWei.Some? && q.totalFeeWei <= p.feeCapWei.value
       && b.balanceWei - r.balanceWei <= q.totalValueWei + q.totalFeeWei + ledger.allowedFallWei
  }

  predicate Committed(t: Target, b: Baseline, r: Reading, p: Probe) {
    && Verified(t, b, r, p) && !ReturnBlocked(t, p.commitRecords)
    && LedgerOf(t, p.commitRecords, Some(b)) == LedgerOf(t, p.returnRecords, Some(b)) && p.storedIsBaseline
  }

  function JudgeAndAct(t: Target, baseline: Option<Baseline>, r: Reading, p: Probe): Reaction {
    var (v, effective) := Confirmed(t, baseline, r, p);
    var remembered := Some(Baseline(effective.nonce, effective.balanceWei, p.now));
    if v.UnknownActivity? && baseline.Some? && Committed(t, baseline.value, effective, p) then
      Reaction(Some(Baseline(effective.nonce, effective.balanceWei, p.committedAt)), v, false, false,
               Some(Interval(p.proof.value.fromNonce, p.proof.value.toNonce)))
    else if KillClass(v) then
      var killFailed := !p.alreadyKilled && !p.killWorks;
      Reaction(baseline, v, !killFailed, killFailed, None)
    else if v.First? || v.Rise? then Reaction(remembered, v, false, false, None)
    else if v.Fine? then
      var b := baseline.value;
      var changed := b.nonce != effective.nonce || b.balanceWei != effective.balanceWei;
      Reaction(if changed || p.stale then remembered else baseline, v, false, false, None)
    else Reaction(baseline, v, false, false, None)
  }

  /**
   * The alarm rule. A finding of unknown activity or an unexplained fall that no committed treasury return explains
   * leaves the baseline where it was and is reported either as killed or as a kill that failed.
   */
  lemma AlarmHolds(t: Target, baseline: Option<Baseline>, r: Reading, p: Probe)
    ensures var x := JudgeAndAct(t, baseline, r, p);
            && (KillClass(x.verdict) && x.returned.None? ==> x.baseline == baseline && (x.killed || x.killFailed) && !(x.killed && x.killFailed))
            && (x.killed || x.killFailed ==> KillClass(x.verdict) && x.returned.None?)
            && (x.killFailed ==> !p.alreadyKilled)
  {
  }

  // ---- The same on the records themselves ----

  /** What one more reservation allows: its amount if it is this wallet's on this chain and is pending or changed since the baseline. */
  lemma AllowedFallLaw(held: seq<Held>, h: Held, t: Target, baseline: Option<Baseline>)
    ensures AllowedFall([], t, baseline) == 0
    ensures AllowedFall(held + [h], t, baseline) ==
            AllowedFall(held, t, baseline) +
            if h.wallet == t.wallet && h.chain == Some(t.chain) && (h.pending || (baseline.Some? && baseline.value.observedAt <= h.updatedAt))
            then h.amountWei else 0
  {
    assert (held + [h])[..|held|] == held;
  }

  /** No reservation of this wallet on this chain is pending or changed since the baseline. */
  ghost predicate NothingHeld(t: Target, b: Baseline, held: seq<Held>) {
    forall i :: 0 <= i < |held| && held[i].wallet == t.wallet && held[i].chain == Some(t.chain) ==> !held[i].pending && held[i].updatedAt < b.observedAt
  }

  lemma {:induction false} NothingHeldAllowsNothing(t: Target, b: Baseline, held: seq<Held>)
    requires NothingHeld(t, b, held)
    ensures AllowedFall(held, t, Some(b)) == 0
  {
    if held != [] {
      var n := |held| - 1;
      NothingHeldAllowsNothing(t, b, held[..n]);
      assert held == held[..n] + [held[n]];
      AllowedFallLaw(held[..n], held[n], t, Some(b));
    }
  }

  /** The records show an attempt of this wallet on this chain with this nonce or a higher one. */
  ghost predicate UsedFrom(t: Target, sent: seq<Sent>, n: int) {
    exists i :: 0 <= i < |sent| && sent[i].wallet == t.wallet && sent[i].chain == Some(t.chain) && sent[i].nonce.Some? && sent[i].nonce.value >= n
  }

  /** The reading is beyond what the records explain: its last nonce was used by no recorded attempt, or it fell by more than they allow. */
  ghost predicate Beyond(t: Target, b: Baseline, r: Reading, rec: Records) {
    && r.nonce >= b.nonce
    && ((r.nonce > b.nonce && !UsedFrom(t, rec.sent, r.nonce - 1)) ||
        (r.balanceWei < b.balanceWei && b.balanceWei - r.balanceWei > AllowedFall(rec.held, t, Some(b))))
  }

  lemma NextExactly(t: Target, b: Baseline, rec: Records, n: nat)
    requires n > b.nonce
    ensures n > Expected(b, LedgerOf(t, rec, Some(b))) <==> !UsedFrom(t, rec.sent, n - 1)
  {
    var next := KnownNext(rec.sent, t);
    if UsedFrom(t, rec.sent, n - 1) {
      var i :| 0 <= i < |rec.sent| && rec.sent[i].wallet == t.wallet && rec.sent[i].chain == Some(t.chain) && rec.sent[i].nonce.Some? && rec.sent[i].nonce.value >= n - 1;
      assert SentBy(rec.sent[i], t);
    }
  }

  lemma BeyondExactly(t: Target, b: Baseline, r: Reading, rec: Records)
    ensures Beyond(t, b, r, rec) <==> KillClass(Judge(r, Some(b), LedgerOf(t, rec, Some(b))))
    ensures r.nonce > b.nonce && !UsedFrom(t, rec.sent, r.nonce - 1) <==> Judge(r, Some(b), LedgerOf(t, rec, Some(b))).UnknownActivity?
  {
    if r.nonce > b.nonce { NextExactly(t, b, rec, r.nonce); }
  }

  /** Open runs, and pending exposure of the wallet on this chain or an unknown one, rule a treasury return out. */
  ghost predicate Quiet(t: Target, rec: Records) {
    !rec.runActive && forall i :: 0 <= i < |rec.held| && rec.held[i].wallet == t.wallet && rec.held[i].pending ==> rec.held[i].chain.Some? && rec.held[i].chain != Some(t.chain)
  }

  /** The proof starts right after the baseline and everything MintBot sent itself. */
  ghost predicate StartsAfterOwn(t: Target, b: Baseline, sent: seq<Sent>, from: nat) {
    from >= b.nonce && !UsedFrom(t, sent, from) && (from > b.nonce ==> UsedFrom(t, sent, from - 1))
  }

  lemma StartExactly(t: Target, b: Baseline, rec: Records, from: nat)
    ensures from == Expected(b, LedgerOf(t, rec, Some(b))) <==> StartsAfterOwn(t, b, rec.sent, from)
  {
    NextExactly(t, b, rec, from + 1 + b.nonce);
    if from >= b.nonce { NextExactly(t, b, rec, from + 1); }
    if from > b.nonce { NextExactly(t, b, rec, from); }
  }

  ghost predicate SameRecords(t: Target, b: Baseline, rec: Records, rec': Records) {
    KnownNext(rec.sent, t) == KnownNext(rec'.sent, t) && AllowedFall(rec.held, t, Some(b)) == AllowedFall(rec'.held, t, Some(b))
  }

  /**
   * A treasury return is proven and committed: the wallet is quiet and its records the same in three snapshots, the
   * proof covers exactly the unexplained nonces, at most eight, with as many distinct hashes, and money and fee explain
   * the fall.
   */
  ghost predicate ProvenReturn(t: Target, b: Baseline, r: Reading, p: Probe) {
    && Quiet(t, p.returnRecords) && Quiet(t, p.freshRecords) && Quiet(t, p.commitRecords)
    && SameRecords(t, b, p.returnRecords, p.freshRecords) && SameRecords(t, b, p.returnRecords, p.commitRecords)
    && !p.baselineMoved && p.storedIsBaseline && p.proof.Some? && p.feeCapWei.Some?
    && var q := p.proof.value;
       && q.sameWallet && q.baseline == b && q.nonce == q.toNonce == r.nonce && q.balanceWei == r.balanceWei
       && StartsAfterOwn(t, b, p.returnRecords.sent, q.fromNonce) && q.fromNonce < q.toNonce <= q.fromNonce + 8
       && |q.hashes| == q.toNonce - q.fromNonce && Distinct(q.hashes) && q.wellFormed
       && 0 < q.totalValueWei && 0 <= q.totalFeeWei <= p.feeCapWei.value
       && b.balanceWei - r.balanceWei <= q.totalValueWei + q.totalFeeWei + AllowedFall(p.returnRecords.held, t, Some(b))
  }

  lemma QuietExactly(t: Target, rec: Records)
    ensures Quiet(t, rec) <==> !ReturnBlocked(t, rec)
  {
  }

  lemma ReturnExactly(t: Target, b: Baseline, r: Reading, p: Probe)
    ensures Committed(t, b, r, p) <==> ProvenReturn(t, b, r, p)
  {
    QuietExactly(t, p.returnRecords);
    QuietExactly(t, p.freshRecords);
    QuietExactly(t, p.commitRecords);
    if p.proof.Some? { StartExactly(t, b, p.returnRecords, p.proof.value.fromNonce); }
  }

  /** The reading the watcher acts on after an alarm, and the records it is judged by: the second ones, if there are any. */
  ghost function LastReading(r: Reading, p: Probe): Reading {
    if p.second.Some? then p.second.value else r
  }

  ghost function LastRecords(p: Probe): Records {
    if p.second.Some? then p.secondRecords else p.first
  }

  /** Both reads are beyond the records. */
  ghost predicate Alarmed(t: Target, b: Baseline, r: Reading, p: Probe) {
    Beyond(t, b, r, p.first) && Beyond(t, b, LastReading(r, p), LastRecords(p))
  }

  /** The alarm is about nonces, and a proven return explains them. */
  ghost predicate Explained(t: Target, b: Baseline, r: Reading, p: Probe) {
    && LastReading(r, p).nonce > b.nonce && !UsedFrom(t, LastRecords(p).sent, LastReading(r, p).nonce - 1)
    && ProvenReturn(t, b, LastReading(r, p), p)
  }

  /**
   * Exactly what one check does, on the records it reads: signing is stopped, or a kill tried and failed, if and only if
   * both reads are beyond the records and no proven return explains them; a proven return or an explained reading
   * becomes the baseline; everything else leaves it alone.
   */
  lemma ActsExactly(t: Target, b: Baseline, r: Reading, p: Probe)
    ensures var x, last := JudgeAndAct(t, Some(b), r, p), LastReading(r, p);
            && (x.killed || x.killFailed <==> Alarmed(t, b, r, p) && !Explained(t, b, r, p))
            && !(x.killed && x.killFailed) && (x.killFailed ==> !p.alreadyKilled && !p.killWorks) && (x.killed ==> p.alreadyKilled || p.killWorks)
            && (x.returned.Some? <==> Alarmed(t, b, r, p) && Explained(t, b, r, p))
            && x.baseline == (if Alarmed(t, b, r, p) && Explained(t, b, r, p) then Some(Baseline(last.nonce, last.balanceWei, p.committedAt))
                              else if Beyond(t, b, r, p.first) || r.nonce < b.nonce then Some(b)
                              else if r.nonce != b.nonce || r.balanceWei != b.balanceWei || p.stale then Some(Baseline(r.nonce, r.balanceWei, p.now))
                              else Some(b))
  {
    BeyondExactly(t, b, r, p.first);
    BeyondExactly(t, b, LastReading(r, p), LastRecords(p));
    ReturnExactly(t, b, LastReading(r, p), p);
  }

  /** A wallet seen for the first time gets its reading as baseline, and nothing is stopped. */
  lemma FirstSightExactly(t: Target, r: Reading, p: Probe)
    ensures JudgeAndAct(t, None, r, p) == Reaction(Some(Baseline(r.nonce, r.balanceWei, p.now)), First, false, false, None)
  {
  }

  /** For a wallet that holds no reservation, any fall at an unchanged nonce stops signing, whatever other wallets hold. */
  lemma AnyFallStops(t: Target, b: Baseline, r: Reading, p: Probe)
    requires r.nonce == b.nonce && r.balanceWei < b.balanceWei && NothingHeld(t, b, p.first.held)
    requires p.second.Some? ==> p.second.value.nonce == b.nonce && p.second.value.balanceWei < b.balanceWei && NothingHeld(t, b, p.secondRecords.held)
    ensures JudgeAndAct(t, Some(b), r, p).killed || JudgeAndAct(t, Some(b), r, p).killFailed
    ensures JudgeAndAct(t, Some(b), r, p).baseline == Some(b)
  {
    NothingHeldAllowsNothing(t, b, p.first.held);
    if p.second.Some? { NothingHeldAllowsNothing(t, b, p.secondRecords.held); }
    ActsExactly(t, b, r, p);
  }

  /**
   * A baseline moves only over what is explained: never to a smaller nonce, past MintBot's own nonces only by a return,
   * and down in balance by no more than the allowance of the records, or what the return paid and cost on top of it.
   */
  lemma MovesAreExplained(t: Target, b: Baseline, r: Reading, p: Probe)
    requires JudgeAndAct(t, Some(b), r, p).baseline != Some(b)
    ensures var x := JudgeAndAct(t, Some(b), r, p);
            var known, atReturn := LedgerOf(t, p.first, Some(b)), LedgerOf(t, p.returnRecords, Some(b));
            && x.baseline.Some? && !x.killed && !x.killFailed && x.baseline.value.nonce >= b.nonce
            && (x.returned.None? ==>
                  x.baseline.value.nonce <= Expected(b, known) &&
                  (x.baseline.value.balanceWei < b.balanceWei ==> b.balanceWei - x.baseline.value.balanceWei <= known.allowedFallWei))
            && (x.returned.Some? ==>
                  p.proof.Some? && x.returned.value == Interval(Expected(b, atReturn), x.baseline.value.nonce) &&
                  b.balanceWei - x.baseline.value.balanceWei <=
                    p.proof.value.totalValueWei + p.proof.value.totalFeeWei + atReturn.allowedFallWei)
  {
  }

  /** A first read is a false alarm exactly when a second read succeeds and is not alarming itself. */
  lemma FalseAlarmExactly(t: Target, baseline: Option<Baseline>, r: Reading, p: Probe)
    requires KillClass(Judge(r, baseline, LedgerOf(t, p.first, baseline)))
    ensures JudgeAndAct(t, baseline, r, p).verdict.Inconsistent? <==>
            p.second.Some? && !KillClass(Judge(p.second.value, baseline, LedgerOf(t, p.secondRecords, baseline)))
  {
  }

  // ---- Histories of one wallet ----

  /** An owner's accept record as the running watcher meets it. */
  datatype Accept = Accept(nonce: int, balanceWei: int, at: nat, inFuture: bool, chainNonce: Option<nat>)

  datatype Event = Observed(reading: Reading, probe: Probe) | Accepted(accept: Accept)

  /**
   * `origin` is the nonce at the first sighting or the last adopted accept, `own` the attempts in the records the watcher
   * has relied on so far, `refunds` the committed treasury returns.
   */
  datatype Watch = Watch(baseline: Option<Baseline>, origin: nat, own: set<Sent>, refunds: seq<Interval>)

  const UNSEEN := Watch(None, 0, {}, [])

  predicate Adopted(w: Watch, a: Accept) {
    && (w.baseline.Some? ==> a.at > w.baseline.value.observedAt)
    && !a.inFuture && a.nonce >= 0 && (a.chainNonce.Some? ==> a.nonce <= a.chainNonce.value)
  }

  /** The attempts a check relied on: those of its first snapshot and, when a return was committed, of the one it was judged by. */
  function ReliedOn(x: Reaction, p: Probe): set<Sent> {
    ToSet(p.first.sent) + if x.returned.Some? then ToSet(p.returnRecords.sent) else {}
  }

  function Step(t: Target, w: Watch, e: Event): Watch {
    match e
    case Observed(r, p) =>
      var x := JudgeAndAct(t, w.baseline, r, p);
      Watch(x.baseline, if w.baseline.None? && x.baseline.Some? then x.baseline.value.nonce else w.origin,
            w.own + ReliedOn(x, p), if x.returned.Some? then w.refunds + [x.returned.value] else w.refunds)
    case Accepted(a) =>
      if Adopted(w, a) then w.(baseline := Some(Baseline(a.nonce, a.balanceWei, a.at)), origin := a.nonce) else w
  }

  function History(t: Target, events: seq<Event>): Watch {
    if events == [] then UNSEEN else Step(t, History(t, events[..|events| - 1]), events[|events| - 1])
  }

  ghost predicate Returned(refunds: seq<Interval>, n: nat) {
    exists i :: 0 <= i < |refunds| && refunds[i].from <= n < refunds[i].to
  }

  /** MintBot recorded an attempt of this wallet on this chain with this nonce or a higher one. */
  ghost predicate OwnAttempt(own: set<Sent>, t: Target, n: nat) {
    exists s :: s in own && SentBy(s, t) && s.nonce.value >= n
  }

  ghost predicate Covered(t: Target, w: Watch) {
    w.baseline.Some? ==> forall n :: w.origin <= n < w.baseline.value.nonce ==> OwnAttempt(w.own, t, n) || Returned(w.refunds, n)
  }

  /** A nonce below the expected one but not below the baseline's was used by a recorded attempt. */
  lemma ExpectedIsOwn(t: Target, rec: Records, b: Baseline, own: set<Sent>, n: nat)
    requires b.nonce <= n < Expected(b, LedgerOf(t, rec, Some(b))) && ToSet(rec.sent) <= own
    ensures OwnAttempt(own, t, n)
  {
    var next := KnownNext(rec.sent, t);
    var i :| 0 <= i < |rec.sent| && SentBy(rec.sent[i], t) && rec.sent[i].nonce.value + 1 == next.value;
    assert rec.sent[i] in ToSet(rec.sent);
  }

  lemma OwnGrows(own: set<Sent>, own': set<Sent>, t: Target, n: nat)
    requires OwnAttempt(own, t, n) && own <= own'
    ensures OwnAttempt(own', t, n)
  {
    var s :| s in own && SentBy(s, t) && s.nonce.value >= n;
    assert s in own';
  }

  lemma ReturnedGrows(refunds: seq<Interval>, refunds': seq<Interval>, n: nat)
    requires Returned(refunds, n) && refunds <= refunds'
    ensures Returned(refunds', n)
  {
    var i :| 0 <= i < |refunds| && refunds[i].from <= n < refunds[i].to;
    assert refunds'[i] == refunds[i];
  }

  /** The nonces one observation moves the baseline over. */
  lemma NewNonces(t: Target, w: Watch, r: Reading, p: Probe, n: nat)
    requires w.baseline.Some?
    requires var w' := Step(t, w, Observed(r, p)); w'.baseline.Some? && w.baseline.value.nonce <= n < w'.baseline.value.nonce
    ensures var w' := Step(t, w, Observed(r, p)); OwnAttempt(w'.own, t, n) || Returned(w'.refunds, n)
  {
    var b := w.baseline.value;
    var x, w' := JudgeAndAct(t, Some(b), r, p), Step(t, w, Observed(r, p));
    MovesAreExplained(t, b, r, p);
    if x.returned.Some? {
      var start := Expected(b, LedgerOf(t, p.returnRecords, Some(b)));
      if n < start {
        ExpectedIsOwn(t, p.returnRecords, b, w'.own, n);
      } else {
        assert w'.refunds[|w.refunds|] == Interval(start, w'.baseline.value.nonce);
      }
    } else {
      ExpectedIsOwn(t, p.first, b, w'.own, n);
    }
  }

  lemma StepCovers(t: Target, w: Watch, e: Event)
    requires Covered(t, w)
    ensures Covered(t, Step(t, w, e))
  {
    var w' := Step(t, w, e);
    if e.Observed? && w.baseline.Some? && w'.baseline.Some? {
      forall n | w'.origin <= n < w'.baseline.value.nonce ensures OwnAttempt(w'.own, t, n) || Returned(w'.refunds, n) {
        if n >= w.baseline.value.nonce {
          NewNonces(t, w, e.reading, e.probe, n);
        } else if OwnAttempt(w.own, t, n) {
          OwnGrows(w.own, w'.own, t, n);
        } else {
          ReturnedGrows(w.refunds, w'.refunds, n);
        }
      }
    }
  }

  lemma {:induction false} HistoryCovers(t: Target, events: seq<Event>)
    ensures Covered(t, History(t, events))
  {
    if events != [] {
      HistoryCovers(t, events[..|events| - 1]);
      StepCovers(t, History(t, events[..|events| - 1]), events[|events| - 1]);
    }
  }

  /** The check of step `k` of the history relied on records that hold attempt `s`. */
  ghost predicate ReadAt(t: Target, events: seq<Event>, k: nat, s: Sent) {
    && k < |events| && events[k].Observed?
    && s in ReliedOn(JudgeAndAct(t, History(t, events[..k]).baseline, events[k].reading, events[k].probe), events[k].probe)
  }

  /** Every attempt in `own` was in the records a check of the history relied on. */
  lemma {:induction false} OwnWasRead(t: Target, events: seq<Event>, s: Sent) returns (k: nat)
    requires s in History(t, events).own
    ensures ReadAt(t, events, k, s)
  {
    var n := |events| - 1;
    assert events != [];
    var before := History(t, events[..n]);
    if s in before.own {
      k := OwnWasRead(t, events[..n], s);
      assert events[..n][..k] == events[..k];
    } else {
      k := n;
    }
  }

  /**
   * Every nonce the baseline has moved over since the wallet's first sighting or last adopted accept lies inside a
   * treasury return that was verified and committed, or is covered by an attempt of MintBot itself, for this wallet and
   * chain and with this nonce or a higher one, that stood in the records a check of the history relied on.
   */
  lemma BaselineCovered(t: Target, events: seq<Event>, n: nat) returns (k: nat, s: Sent)
    requires var w := History(t, events); w.baseline.Some? && w.origin <= n < w.baseline.value.nonce
    ensures Returned(History(t, events).refunds, n) || (ReadAt(t, events, k, s) && SentBy(s, t) && s.nonce.value >= n)
  {
    HistoryCovers(t, events);
    var w := History(t, events);
    k, s := 0, Sent(0, None, None);
    if OwnAttempt(w.own, t, n) {
      s :| s in w.own && SentBy(s, t) && s.nonce.value >= n;
      k := OwnWasRead(t, events, s);
    }
  }

  /** The observation takes in a return as `interval`: it was proven against the baseline of that moment. */
  ghost predicate TakesIn(t: Target, baseline: Option<Baseline>, e: Event, interval: Interval) {
    && e.Observed? && baseline.Some?
    && var effective := Confirmed(t, baseline, e.reading, e.probe).1;
       ProvenReturn(t, baseline.value, effective, e.probe) && interval == Interval(e.probe.proof.value.fromNonce, effective.nonce)
  }

  lemma RefundStep(t: Target, w: Watch, e: Event)
    ensures var w' := Step(t, w, e);
            w'.refunds == w.refunds ||
            (|w'.refunds| == |w.refunds| + 1 && w'.refunds[..|w.refunds|] == w.refunds && TakesIn(t, w.baseline, e, w'.refunds[|w.refunds|]))
  {
    if e.Observed? && w.baseline.Some? {
      var effective := Confirmed(t, w.baseline, e.reading, e.probe).1;
      ReturnExactly(t, w.baseline.value, effective, e.probe);
    }
  }

  /** Every committed return of a history passed the complete verification when it was taken in. */
  lemma {:induction false} ReturnsWereVerified(t: Target, events: seq<Event>, i: nat) returns (k: nat)
    requires i < |History(t, events).refunds|
    ensures k < |events| && TakesIn(t, History(t, events[..k]).baseline, events[k], History(t, events).refunds[i])
  {
    var n := |events| - 1;
    assert events != [];
    var before := History(t, events[..n]);
    RefundStep(t, before, events[n]);
    if i < |before.refunds| {
      k := ReturnsWereVerified(t, events[..n], i);
      assert events[..n][..k] == events[..k];
    } else {
      k := n;
    }
  }

  /** An owner's accept is adopted exactly when it is newer than the baseline, not in the future, and not ahead of the chain. */
  lemma AcceptsExactly(t: Target, w: Watch, a: Accept)
    ensures var adopted := && (w.baseline.None? || a.at > w.baseline.value.observedAt) && !a.inFuture && a.nonce >= 0
                           && (a.chainNonce.None? || a.nonce <= a.chainNonce.value);
            && (!adopted ==> Step(t, w, Accepted(a)) == w)
            && (adopted ==> Step(t, w, Accepted(a)) == Watch(Some(Baseline(a.nonce, a.balanceWei, a.at)), a.nonce, w.own, w.refunds))
  {
  }

  // ---- The watcher object ----

  class FleetWatcher {
    var baselines: map<Target, Baseline>
    var killed: bool
    var killFailed: bool

    constructor ()
      ensures baselines == map[] && !killed && !killFailed
    {
      baselines, killed, killFailed := map[], false, false;
    }

    function BaselineOf(t: Target): Option<Baseline>
      reads this
    {
      if t in baselines then Some(baselines[t]) else None
    }

    /** Checks one wallet and touches no other wallet's baseline. */
    method Check(t: Target, reading: Reading, probe: Probe) returns (x: Reaction)
      modifies this
      ensures x == JudgeAndAct(t, old(BaselineOf(t)), reading, probe)
      ensures BaselineOf(t) == x.baseline
      ensures forall other :: other != t ==> BaselineOf(other) == old(BaselineOf(other))
      ensures killed == (old(killed) || x.killed) && killFailed == (old(killFailed) || x.killFailed)
    {
      var baseline := BaselineOf(t);
      var ledger := LedgerFor(t, probe.first, baseline);
      var verdict := Judge(reading, baseline, ledger);
      var effective := reading;
      if KillClass(verdict) && probe.second.Some? {
        ledger := LedgerFor(t, probe.secondRecords, baseline);
        var again := Judge(probe.second.value, baseline, ledger);
        if KillClass(again) {
          verdict, effective := again, probe.second.value;
        } else {
          verdict := Inconsistent;
        }
      }
      if verdict.UnknownActivity? && baseline.Some? && Committed(t, baseline.value, effective, probe) {
        baselines := baselines[t := Baseline(effective.nonce, effective.balanceWei, probe.committedAt)];
        return Reaction(BaselineOf(t), verdict, false, false, Some(Interval(probe.proof.value.fromNonce, probe.proof.value.toNonce)));
      }
      if KillClass(verdict) {
        var failed := !probe.alreadyKilled && !probe.killWorks;
        if failed { killFailed := true; } else { killed := true; }
        return Reaction(baseline, verdict, !failed, failed, None);
      }
      if verdict.Inconsistent? {
        return Reaction(baseline, verdict, false, false, None);
      }
      if verdict.First? || verdict.Rise? || probe.stale || baseline.value.nonce != effective.nonce || baseline.value.balanceWei != effective.balanceWei {
        baselines := baselines[t := Baseline(effective.nonce, effective.balanceWei, probe.now)];
      }
      return Reaction(BaselineOf(t), verdict, false, false, None);
    }
  }
}
