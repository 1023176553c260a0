/**
 * The notification outbox. Any number of dispatcher processes share it; each attempt is claimed in one transaction with
 * a lease, sent outside any transaction, and resolved in another one.
 */
module Notifications {
  import opened Basics

  type EventId = nat
  type Proc = nat

  datatype Delivery = Pending | Delivering | Delivered | Failed
  datatype Record = Record(source: EventId, state: Delivery, attempts: nat, leaseUntil: Option<nat>, nextAttemptAt: Option<nat>, rateLimited: bool)

  function Queued(e: EventId): Record {
    Record(e, Pending, 0, None, None, false)
  }

  // ---- Transactions as functions of the outbox ----

  function IndexOf(records: seq<Record>, e: EventId): (i: Option<nat>)
    ensures i.Some? ==> i.value < |records| && records[i.value].source == e
    ensures i.None? ==> forall k :: 0 <= k < |records| ==> records[k].source != e
  {
    if records == [] then None
    else
      var n := |records| - 1;
      var before := IndexOf(records[..n], e);
      assert forall k :: 0 <= k < n ==> records[..n][k] == records[k];
      if before.Some? then before else if records[n].source == e then Some(n) else None
  }

  /** The outbox with one more record at its end. */
  function Push(records: seq<Record>, r: Record): seq<Record> {
    seq(|records| + 1, i requires 0 <= i < |records| + 1 => if i < |records| then records[i] else r)
  }

  lemma PushAppends(records: seq<Record>, r: Record)
    ensures Push(records, r) == records + [r]
  {
  }

  function Enqueue(records: seq<Record>, e: EventId): seq<Record> {
    if IndexOf(records, e).Some? then records else Push(records, Queued(e))
  }

  function LaterThan(at: Option<nat>, now: nat): bool {
    at.Some? && at.value > now
  }

  predicate Holds(r: Record, now: nat) {
    r.rateLimited && r.state != Delivered && LaterThan(r.nextAttemptAt, now)
  }

  /** The latest retry time any undelivered, rate-limited record still imposes on the shared channel; 0 if none. */
  function SharedBackoff(records: seq<Record>, now: nat): nat {
    if records == [] then 0
    else
      var before := SharedBackoff(records[..|records| - 1], now);
      var r := records[|records| - 1];
      if Holds(r, now) && r.nextAttemptAt.value > before then r.nextAttemptAt.value else before
  }

  function Deferred(r: Record, until: nat, now: nat): Record {
    if r.state != Delivered && !LaterThan(r.leaseUntil, now)
    then r.(nextAttemptAt := Some(if LaterThan(r.nextAttemptAt, until) then r.nextAttemptAt.value else until))
    else r
  }

  datatype Outcome = Outcome(records: seq<Record>, go: bool)

  /** Say whether a delivery may be paced for a queued record, and put the record off if the channel waits. */
  function PrepareQueued(queued: seq<Record>, e: EventId, now: nat): (o: Outcome)
    requires IndexOf(queued, e).Some?
    ensures IndexOf(o.records, e).Some?
  {
    var i := IndexOf(queued, e).value;
    var until := SharedBackoff(queued, now);
    assert queued[i := Deferred(queued[i], until, now)][i].source == e;
    if queued[i].state == Delivered then Outcome(queued, false)
    else if until > now then Outcome(queued[i := Deferred(queued[i], until, now)], false)
    else Outcome(queued, true)
  }

  /** Queue the record and say whether a delivery may be paced for it. */
  function Prepare(records: seq<Record>, e: EventId, now: nat): (o: Outcome)
    ensures IndexOf(o.records, e).Some?
  {
    assert IndexOf(records, e).None? ==> Enqueue(records, e)[|records|].source == e;
    PrepareQueued(Enqueue(records, e), e, now)
  }

  /** Take the lease of a prepared record, unless its retry time or a lease lies ahead. */
  function ClaimPrepared(p: Outcome, e: EventId, now: nat, leaseMs: nat): Outcome
    requires IndexOf(p.records, e).Some?
  {
    var i := IndexOf(p.records, e).value;
    var r := p.records[i];
    if !p.go || LaterThan(r.nextAttemptAt, now) || LaterThan(r.leaseUntil, now) then Outcome(p.records, false)
    else Outcome(p.records[i := Record(e, Delivering, r.attempts + 1, Some(now + leaseMs), None, false)], true)
  }

  /** Take the delivery lease, if nothing forbids an attempt right now. */
  function Claim(records: seq<Record>, e: EventId, now: nat, leaseMs: nat): Outcome {
    ClaimPrepared(Prepare(records, e, now), e, now, leaseMs)
  }

  function MarkDelivered(records: seq<Record>, e: EventId): seq<Record> {
    var i := IndexOf(records, e);
    if i.None? then records
    else records[i.value := records[i.value].(state := Delivered, leaseUntil := None, nextAttemptAt := None, rateLimited := false)]
  }

  function Power2(n: nat): nat {
    if n == 0 then 1 else 2 * Power2(n - 1)
  }

  function Delay(attempts: nat, retryBaseMs: nat, retryMaxMs: nat, retryAfterMs: nat): nat {
    Max(Min(retryMaxMs, retryBaseMs * Power2(Min(8, attempts))), retryAfterMs)
  }

  lemma {:induction false} PowerRises(m: nat, n: nat)
    requires m <= n
    ensures 1 <= Power2(m) <= Power2(n)
    decreases n
  {
    if n > 0 {
      PowerRises(if m == n then m - 1 else m, n - 1);
    }
  }

  lemma Scales(base: nat, a: nat, b: nat)
    requires a <= b
    ensures base * a <= base * b
  {
  }

  /** Retry delays grow with the attempts, up to the maximum, and are never shorter than the provider asked for. */
  lemma DelayRises(m: nat, n: nat, retryBaseMs: nat, retryMaxMs: nat, retryAfterMs: nat)
    requires m <= n
    ensures Delay(m, retryBaseMs, retryMaxMs, retryAfterMs) <= Delay(n, retryBaseMs, retryMaxMs, retryAfterMs)
    ensures retryAfterMs <= Delay(m, retryBaseMs, retryMaxMs, retryAfterMs) <= Max(retryMaxMs, retryAfterMs)
    ensures retryBaseMs <= retryMaxMs ==> retryBaseMs <= Delay(m, retryBaseMs, retryMaxMs, retryAfterMs)
  {
    PowerRises(0, Min(8, m));
    PowerRises(Min(8, m), Min(8, n));
    Scales(retryBaseMs, 1, Power2(Min(8, m)));
    Scales(retryBaseMs, Power2(Min(8, m)), Power2(Min(8, n)));
  }

  /** Without a provider's wait the delay starts at the base, doubles with each of the first eight attempts, and stops at the maximum. */
  lemma DelayDoubles(n: nat, retryBaseMs: nat, retryMaxMs: nat, retryAfterMs: nat)
    ensures Delay(0, retryBaseMs, retryMaxMs, 0) == Min(retryMaxMs, retryBaseMs)
    ensures n < 8 ==> Delay(n + 1, retryBaseMs, retryMaxMs, 0) == Min(retryMaxMs, 2 * Delay(n, retryBaseMs, retryMaxMs, 0))
    ensures n >= 8 ==> Delay(n, retryBaseMs, retryMaxMs, 0) == Delay(8, retryBaseMs, retryMaxMs, 0)
    ensures Delay(n, retryBaseMs, retryMaxMs, retryAfterMs) == Max(Delay(n, retryBaseMs, retryMaxMs, 0), retryAfterMs)
  {
    if n < 8 { assert retryBaseMs * Power2(n + 1) == 2 * (retryBaseMs * Power2(n)); }
  }

  /** `retryAfter` is present when the provider refused the attempt with an explicit rate limit. */
  function MarkFailed(records: seq<Record>, e: EventId, now: nat, retryBaseMs: nat, retryMaxMs: nat, retryAfter: Option<nat>): seq<Record> {
    var i := IndexOf(records, e);
    if i.None? || records[i.value].state in {Delivered, Failed} then records
    else
      var r := records[i.value];
      var delay := Delay(r.attempts, retryBaseMs, retryMaxMs, if retryAfter.Some? then retryAfter.value else 0);
      records[i.value := r.(state := Failed, leaseUntil := None, rateLimited := retryAfter.Some?, nextAttemptAt := Some(now + delay))]
  }

  // ---- Dispatchers, interleaved ----

  /** A send under way, and the end of the lease it was claimed with. */
  datatype Flight = Flight(p: Proc, e: EventId, until: nat)
  datatype Net = Net(now: nat, records: seq<Record>, flights: set<Flight>)
  datatype Config = Config(leaseMs: nat, retryBaseMs: nat, retryMaxMs: nat)

  datatype Step =
    | Tick(ms: nat)
    | Begin(p: Proc, e: EventId)
    | Start(p: Proc, e: EventId)
    | Succeed(flight: Flight)
    | Refuse(flight: Flight, retryAfter: Option<nat>)
    | Crash(p: Proc)

  predicate Sending(s: Net, p: Proc, e: EventId) {
    exists f :: f in s.flights && f.p == p && f.e == e
  }

  /** After a claim: its records, and its attempt under way if it went. */
  function Launched(s: Net, c: Outcome, f: Flight): Net {
    Net(s.now, c.records, if c.go then s.flights + {f} else s.flights)
  }

  function Apply(cfg: Config, s: Net, step: Step): Net {
    match step
    case Tick(ms) => s.(now := s.now + ms)
    case Begin(p, e) => s.(records := Prepare(s.records, e, s.now).records)
    case Start(p, e) =>
      if Sending(s, p, e) then s
      else
        Launched(s, Claim(s.records, e, s.now, cfg.leaseMs), Flight(p, e, s.now + cfg.leaseMs))
    case Succeed(f) =>
      if f in s.flights then s.(records := MarkDelivered(s.records, f.e), flights := s.flights - {f}) else s
    case Refuse(f, retryAfter) =>
      if f in s.flights
      then s.(records := MarkFailed(s.records, f.e, s.now, cfg.retryBaseMs, cfg.retryMaxMs, retryAfter), flights := s.flights - {f}) else s
    case Crash(p) => s.(flights := set f | f in s.flights && f.p != p)
  }

  const QUIET := Net(0, [], {})

  function After(cfg: Config, steps: seq<Step>): Net {
    if steps == [] then QUIET else Apply(cfg, After(cfg, steps[..|steps| - 1]), steps[|steps| - 1])
  }

  // ---- One row per source event, and delivered is final ----

  ghost predicate Apart(records: seq<Record>, i: int, j: int) {
    0 <= i < j < |records| ==> records[i].source != records[j].source
  }

  ghost predicate UniqueSources(records: seq<Record>) {
    forall i, j :: Apart(records, i, j)
  }

  ghost function StateOf(records: seq<Record>, e: EventId): Option<Record> {
    var i := IndexOf(records, e);
    if i.None? then None else Some(records[i.value])
  }

  /** With unique sources a record sits at exactly one place. */
  lemma PlaceIsUnique(records: seq<Record>, i: nat)
    requires UniqueSources(records) && i < |records|
    ensures IndexOf(records, records[i].source) == Some(i)
  {
    var k := IndexOf(records, records[i].source).value;
    assert Apart(records, i, k) && Apart(records, k, i);
  }

  /** Writing one record leaves every other record alone. */
  lemma WriteOne(records: seq<Record>, i: nat, r: Record, e: EventId)
    requires UniqueSources(records) && i < |records| && r.source == records[i].source
    ensures UniqueSources(records[i := r])
    ensures StateOf(records[i := r], e) == if e == r.source then Some(r) else StateOf(records, e)
  {
    var records' := records[i := r];
    forall a, b ensures Apart(records', a, b) { assert Apart(records, a, b); }
    var k := IndexOf(records, e);
    if e == r.source {
      PlaceIsUnique(records', i);
    } else if k.Some? {
      assert records'[k.value] == records[k.value];
      PlaceIsUnique(records', k.value);
    } else {
      assert forall m :: 0 <= m < |records'| ==> records'[m].source == records[m].source;
      assert IndexOf(records', e).None?;
    }
  }

  lemma EnqueueOne(records: seq<Record>, e: EventId, x: EventId)
    requires UniqueSources(records)
    ensures UniqueSources(Enqueue(records, e))
    ensures StateOf(Enqueue(records, e), x) == if x == e && StateOf(records, e).None? then Some(Queued(e)) else StateOf(records, x)
  {
    var queued := Enqueue(records, e);
    if IndexOf(records, e).None? {
      assert queued[..|records|] == records;
      forall a, b ensures Apart(queued, a, b) { assert Apart(records, a, b); }
      if x == e {
        PlaceIsUnique(queued, |records|);
      }
    }
  }

  /** A record stays, and a delivered one stays delivered with the attempts it took. */
  ghost predicate Moves(before: Option<Record>, after: Option<Record>) {
    before.Some? ==>
      after.Some? && before.value.attempts <= after.value.attempts &&
      (before.value.state == Delivered ==> after.value.state == Delivered && after.value.attempts == before.value.attempts)
  }

  /** What preparing does to a queued outbox: at most the event's own record is put off. */
  lemma PrepareQueuedOne(queued: seq<Record>, e: EventId, now: nat, x: EventId)
    requires UniqueSources(queued) && IndexOf(queued, e).Some?
    ensures var p, r, until := PrepareQueued(queued, e, now), StateOf(queued, e).value, SharedBackoff(queued, now);
            && UniqueSources(p.records) && StateOf(p.records, e).Some?
            && p.go == (r.state != Delivered && until <= now) && (p.go ==> p.records == queued)
            && StateOf(p.records, x) == if x == e && r.state != Delivered && until > now then Some(Deferred(r, until, now)) else StateOf(queued, x)
  {
    var i := IndexOf(queued, e).value;
    var until := SharedBackoff(queued, now);
    WriteOne(queued, i, Deferred(queued[i], until, now), x);
    WriteOne(queued, i, Deferred(queued[i], until, now), e);
  }

  lemma PrepareOne(records: seq<Record>, e: EventId, now: nat, x: EventId)
    requires UniqueSources(records)
    ensures UniqueSources(Prepare(records, e, now).records)
    ensures StateOf(Prepare(records, e, now).records, e).Some?
    ensures var queued := StateOf(Enqueue(records, e), x);
            var until := SharedBackoff(Enqueue(records, e), now);
            StateOf(Prepare(records, e, now).records, x) ==
              if x == e && queued.Some? && queued.value.state != Delivered && until > now then Some(Deferred(queued.value, until, now)) else queued
    ensures Prepare(records, e, now).go ==> SharedBackoff(Enqueue(records, e), now) <= now
    ensures Prepare(records, e, now).go ==> Prepare(records, e, now).records == Enqueue(records, e)
    ensures Prepare(records, e, now).go ==> StateOf(Enqueue(records, e), e).value.state != Delivered
  {
    EnqueueOne(records, e, e);
    EnqueueOne(records, e, x);
    PrepareQueuedOne(Enqueue(records, e), e, now, x);
    PrepareQueuedOne(Enqueue(records, e), e, now, e);
  }

  /** What a claim writes on a prepared outbox: the attempt on the event's own record, if it goes. */
  lemma ClaimPreparedOne(p: Outcome, e: EventId, now: nat, leaseMs: nat, x: EventId)
    requires UniqueSources(p.records) && IndexOf(p.records, e).Some?
    ensures var c, r := ClaimPrepared(p, e, now, leaseMs), StateOf(p.records, e).value;
            && UniqueSources(c.records)
            && (c.go <==> p.go && !LaterThan(r.nextAttemptAt, now) && !LaterThan(r.leaseUntil, now))
            && StateOf(c.records, x) ==
                 if c.go && x == e then Some(Record(e, Delivering, r.attempts + 1, Some(now + leaseMs), None, false)) else StateOf(p.records, x)
  {
    var i := IndexOf(p.records, e).value;
    WriteOne(p.records, i, Record(e, Delivering, p.records[i].attempts + 1, Some(now + leaseMs), None, false), x);
  }

  lemma ClaimOne(records: seq<Record>, e: EventId, now: nat, leaseMs: nat, x: EventId)
    requires UniqueSources(records)
    ensures UniqueSources(Claim(records, e, now, leaseMs).records)
    ensures var c := Claim(records, e, now, leaseMs);
            var r := StateOf(Enqueue(records, e), e);
            && r.Some?
            && (c.go ==> !LaterThan(r.value.leaseUntil, now) && r.value.state != Delivered && SharedBackoff(Enqueue(records, e), now) <= now)
            && StateOf(c.records, x) ==
                 if c.go && x == e then Some(Record(e, Delivering, r.value.attempts + 1, Some(now + leaseMs), None, false))
                 else StateOf(Prepare(records, e, now).records, x)
  {
    PrepareOne(records, e, now, e);
    EnqueueOne(records, e, e);
    ClaimPreparedOne(Prepare(records, e, now), e, now, leaseMs, x);
  }

  lemma ResolveOne(records: seq<Record>, e: EventId, now: nat, base: nat, most: nat, retryAfter: Option<nat>, x: EventId)
    requires UniqueSources(records)
    ensures UniqueSources(MarkDelivered(records, e)) && UniqueSources(MarkFailed(records, e, now, base, most, retryAfter))
    ensures x != e ==> StateOf(MarkDelivered(records, e), x) == StateOf(records, x) == StateOf(MarkFailed(records, e, now, base, most, retryAfter), x)
    ensures StateOf(records, e).Some? ==>
              StateOf(MarkDelivered(records, e), e) ==
                Some(StateOf(records, e).value.(state := Delivered, leaseUntil := None, nextAttemptAt := None, rateLimited := false))
    ensures StateOf(records, e).Some? ==>
              var r := StateOf(records, e).value;
              StateOf(MarkFailed(records, e, now, base, most, retryAfter), e) ==
                if r.state in {Delivered, Failed} then Some(r)
                else Some(r.(state := Failed, leaseUntil := None, rateLimited := retryAfter.Some?,
                             nextAttemptAt := Some(now + Delay(r.attempts, base, most, if retryAfter.Some? then retryAfter.value else 0))))
  {
    var i := IndexOf(records, e);
    if i.Some? {
      var r := records[i.value];
      var sent := r.(state := Delivered, leaseUntil := None, nextAttemptAt := None, rateLimited := false);
      WriteOne(records, i.value, sent, x);
      WriteOne(records, i.value, sent, e);
      var refused := r.(state := Failed, leaseUntil := None, rateLimited := retryAfter.Some?,
                        nextAttemptAt := Some(now + Delay(r.attempts, base, most, if retryAfter.Some? then retryAfter.value else 0)));
      WriteOne(records, i.value, refused, x);
      WriteOne(records, i.value, refused, e);
    }
  }

  // ---- Invariants over every interleaving ----

  ghost predicate LeasedTo(r: Option<Record>, f: Flight) {
    r.Some? && r.value.state == Delivering && r.value.leaseUntil == Some(f.until)
  }

  ghost predicate HasLease(records: seq<Record>, f: Flight) {
    LeasedTo(StateOf(records, f.e), f)
  }

  /** Every flight still has its lease, and no record has two flights. */
  ghost predicate Leased(s: Net) {
    && (forall f :: f in s.flights ==> HasLease(s.records, f))
    && (forall f, g :: f in s.flights && g in s.flights && f.e == g.e ==> f == g)
  }

  /** Every send resolves, or its process dies, before its lease ends. */
  ghost predicate InTime(s: Net) {
    forall f :: f in s.flights ==> s.now < f.until
  }

  lemma SourcesStay(cfg: Config, s: Net, step: Step)
    requires UniqueSources(s.records)
    ensures UniqueSources(Apply(cfg, s, step).records)
  {
    match step
    case Begin(p, e) => PrepareOne(s.records, e, s.now, e);
    case Start(p, e) => ClaimOne(s.records, e, s.now, cfg.leaseMs, e);
    case Succeed(f) => ResolveOne(s.records, f.e, s.now, cfg.retryBaseMs, cfg.retryMaxMs, None, f.e);
    case Refuse(f, retryAfter) => ResolveOne(s.records, f.e, s.now, cfg.retryBaseMs, cfg.retryMaxMs, retryAfter, f.e);
    case _ =>
  }

  /** No source event ever has two outbox rows. */
  lemma {:induction false} OneRowPerEvent(cfg: Config, steps: seq<Step>)
    ensures UniqueSources(After(cfg, steps).records)
  {
    if steps != [] {
      OneRowPerEvent(cfg, steps[..|steps| - 1]);
      SourcesStay(cfg, After(cfg, steps[..|steps| - 1]), steps[|steps| - 1]);
    }
  }

  lemma PrepareMoves(records: seq<Record>, e: EventId, now: nat, x: EventId)
    requires UniqueSources(records)
    ensures Moves(StateOf(records, x), StateOf(Prepare(records, e, now).records, x))
  {
    PrepareOne(records, e, now, x);
    EnqueueOne(records, e, x);
  }

  lemma ClaimMoves(records: seq<Record>, e: EventId, now: nat, leaseMs: nat, x: EventId)
    requires UniqueSources(records)
    ensures Moves(StateOf(records, x), StateOf(Claim(records, e, now, leaseMs).records, x))
  {
    PrepareMoves(records, e, now, x);
    ClaimOne(records, e, now, leaseMs, x);
    EnqueueOne(records, e, e);
  }

  lemma ResolveMoves(records: seq<Record>, e: EventId, now: nat, base: nat, most: nat, retryAfter: Option<nat>, x: EventId)
    requires UniqueSources(records)
    ensures Moves(StateOf(records, x), StateOf(MarkDelivered(records, e), x))
    ensures Moves(StateOf(records, x), StateOf(MarkFailed(records, e, now, base, most, retryAfter), x))
  {
    ResolveOne(records, e, now, base, most, retryAfter, x);
  }

  /** Delivered is final, and no row disappears, whatever the processes do and however late they are. */
  lemma DeliveredStays(cfg: Config, s: Net, step: Step, x: EventId)
    requires UniqueSources(s.records)
    ensures Moves(StateOf(s.records, x), StateOf(Apply(cfg, s, step).records, x))
  {
    match step
    case Begin(p, e) => PrepareMoves(s.records, e, s.now, x);
    case Start(p, e) => ClaimMoves(s.records, e, s.now, cfg.leaseMs, x);
    case Succeed(f) => ResolveMoves(s.records, f.e, s.now, cfg.retryBaseMs, cfg.retryMaxMs, None, x);
    case Refuse(f, retryAfter) => ResolveMoves(s.records, f.e, s.now, cfg.retryBaseMs, cfg.retryMaxMs, retryAfter, x);
    case _ =>
  }

  /** An attempt cannot start while another one of the same record is under way and in time. */
  lemma FlightBlocks(cfg: Config, s: Net, p: Proc, e: EventId, f: Flight)
    requires UniqueSources(s.records) && Leased(s) && InTime(s) && f in s.flights && f.e == e
    ensures !Claim(s.records, e, s.now, cfg.leaseMs).go
  {
    assert HasLease(s.records, f);
    ClaimOne(s.records, e, s.now, cfg.leaseMs, e);
    EnqueueOne(s.records, e, e);
  }

  /** Preparing any record leaves a flight's lease as it is. */
  lemma FlightUntouched(s: Net, e: EventId, f: Flight)
    requires UniqueSources(s.records) && Leased(s) && InTime(s) && f in s.flights
    ensures HasLease(Prepare(s.records, e, s.now).records, f)
  {
    assert HasLease(s.records, f);
    PrepareOne(s.records, e, s.now, f.e);
    EnqueueOne(s.records, e, f.e);
  }

  /** A claim leaves every flight its lease. */
  lemma ClaimLeavesLeases(cfg: Config, s: Net, p: Proc, e: EventId, f: Flight)
    requires UniqueSources(s.records) && Leased(s) && InTime(s) && f in s.flights
    ensures HasLease(Claim(s.records, e, s.now, cfg.leaseMs).records, f)
  {
    FlightUntouched(s, e, f);
    if f.e == e { FlightBlocks(cfg, s, p, e, f); }
    ClaimOne(s.records, e, s.now, cfg.leaseMs, f.e);
  }

  /** A claim that goes gives its own flight a lease, and found no other flight of the event. */
  lemma ClaimGivesLease(cfg: Config, s: Net, p: Proc, e: EventId)
    requires UniqueSources(s.records) && Leased(s) && InTime(s) && Claim(s.records, e, s.now, cfg.leaseMs).go
    ensures HasLease(Claim(s.records, e, s.now, cfg.leaseMs).records, Flight(p, e, s.now + cfg.leaseMs))
    ensures forall f :: f in s.flights ==> f.e != e
  {
    forall f | f in s.flights ensures f.e != e {
      if f.e == e { FlightBlocks(cfg, s, p, e, f); }
    }
    ClaimOne(s.records, e, s.now, cfg.leaseMs, e);
  }

  lemma LaunchedLeased(s: Net, c: Outcome, f: Flight)
    requires Leased(s) && forall g :: g in s.flights ==> HasLease(c.records, g)
    requires c.go ==> HasLease(c.records, f) && forall g :: g in s.flights ==> g.e != f.e
    ensures Leased(Launched(s, c, f))
  {
  }

  lemma StartKeepsLeases(cfg: Config, s: Net, p: Proc, e: EventId)
    requires UniqueSources(s.records) && Leased(s) && InTime(s)
    ensures Leased(Apply(cfg, s, Start(p, e)))
  {
    if !Sending(s, p, e) {
      var c := Claim(s.records, e, s.now, cfg.leaseMs);
      forall g | g in s.flights ensures HasLease(c.records, g) { ClaimLeavesLeases(cfg, s, p, e, g); }
      if c.go { ClaimGivesLease(cfg, s, p, e); }
      LaunchedLeased(s, c, Flight(p, e, s.now + cfg.leaseMs));
    }
  }

  /** Resolving one flight leaves the leases of the others. */
  lemma ResolveLeases(cfg: Config, s: Net, g: Flight, retryAfter: Option<nat>, f: Flight)
    requires UniqueSources(s.records) && Leased(s) && g in s.flights && f in s.flights && f != g
    ensures HasLease(MarkDelivered(s.records, g.e), f)
    ensures HasLease(MarkFailed(s.records, g.e, s.now, cfg.retryBaseMs, cfg.retryMaxMs, retryAfter), f)
  {
    assert f.e != g.e && HasLease(s.records, f);
    ResolveOne(s.records, g.e, s.now, cfg.retryBaseMs, cfg.retryMaxMs, retryAfter, f.e);
  }

  lemma StepKeepsLeases(cfg: Config, s: Net, step: Step)
    requires UniqueSources(s.records) && Leased(s) && InTime(s)
    ensures Leased(Apply(cfg, s, step))
  {
    var s' := Apply(cfg, s, step);
    match step
    case Start(p, e) => StartKeepsLeases(cfg, s, p, e);
    case Begin(p, e) =>
      forall f | f in s'.flights ensures HasLease(s'.records, f) { FlightUntouched(s, e, f); }
    case Succeed(g) =>
      if g in s.flights {
        forall f | f in s'.flights ensures HasLease(s'.records, f) { ResolveLeases(cfg, s, g, None, f); }
      }
    case Refuse(g, retryAfter) =>
      if g in s.flights {
        forall f | f in s'.flights ensures HasLease(s'.records, f) { ResolveLeases(cfg, s, g, retryAfter, f); }
      }
    case _ =>
  }

  /**
   * With any number of dispatcher processes: as long as every send resolves before its lease ends, at most one attempt
   * per notification is under way.
   */
  lemma {:induction false} OneAttemptInFlight(cfg: Config, steps: seq<Step>, k: nat)
    requires k <= |steps| && forall m :: 0 <= m < k ==> InTime(After(cfg, steps[..m]))
    ensures Leased(After(cfg, steps[..k]))
    decreases k
  {
    if k > 0 {
      assert steps[..k][..k - 1] == steps[..k - 1];
      OneAttemptInFlight(cfg, steps, k - 1);
      OneRowPerEvent(cfg, steps[..k - 1]);
      StepKeepsLeases(cfg, After(cfg, steps[..k - 1]), steps[k - 1]);
    }
  }

  lemma {:induction false} DeliveredForever(cfg: Config, steps: seq<Step>, j: nat, k: nat, e: EventId)
    requires j <= k <= |steps|
    ensures Moves(StateOf(After(cfg, steps[..j]).records, e), StateOf(After(cfg, steps[..k]).records, e))
    decreases k
  {
    if j < k {
      assert steps[..k][..k - 1] == steps[..k - 1];
      DeliveredForever(cfg, steps, j, k - 1, e);
      OneRowPerEvent(cfg, steps[..k - 1]);
      DeliveredStays(cfg, After(cfg, steps[..k - 1]), steps[k - 1], e);
    }
  }

  // ---- Rate limits ----

  lemma {:induction false} BackoffCovers(records: seq<Record>, now: nat, i: nat)
    requires i < |records| && Holds(records[i], now)
    ensures SharedBackoff(records, now) >= records[i].nextAttemptAt.value
  {
    var n := |records| - 1;
    if i < n {
      BackoffCovers(records[..n], now, i);
    }
  }

  /** The refusal of `e` that asks to wait until `until` is still in force: delivered, run out, or remembered. */
  ghost predicate InForce(s: Net, e: EventId, until: nat) {
    var r := StateOf(s.records, e);
    && r.Some?
    && (r.value.state == Delivered || s.now >= until ||
        (r.value.state == Failed && r.value.rateLimited && r.value.nextAttemptAt.Some? && r.value.nextAttemptAt.value >= until))
  }

  /** While a refusal is in force and undelivered, nobody can start an attempt of any record. */
  lemma RefusalBlocksAll(cfg: Config, s: Net, e: EventId, until: nat, x: EventId)
    requires UniqueSources(s.records) && InForce(s, e, until) && s.now < until && StateOf(s.records, e).value.state != Delivered
    ensures !Claim(s.records, x, s.now, cfg.leaseMs).go
  {
    var queued := Enqueue(s.records, x);
    EnqueueOne(s.records, x, e);
    var i := IndexOf(queued, e).value;
    BackoffCovers(queued, s.now, i);
    ClaimOne(s.records, x, s.now, cfg.leaseMs, x);
  }

  lemma RefusalPrepared(s: Net, e: EventId, until: nat, x: EventId)
    requires UniqueSources(s.records) && InForce(s, e, until) && s.now < until && StateOf(s.records, e).value.state != Delivered
    ensures InForce(s.(records := Prepare(s.records, x, s.now).records), e, until)
  {
    PrepareOne(s.records, x, s.now, e);
    EnqueueOne(s.records, x, e);
  }

  lemma RefusalStays(cfg: Config, s: Net, step: Step, e: EventId, until: nat)
    requires UniqueSources(s.records) && InForce(s, e, until)
    ensures InForce(Apply(cfg, s, step), e, until)
  {
    DeliveredStays(cfg, s, step, e);
    if StateOf(s.records, e).value.state != Delivered && s.now < until {
      match step
      case Begin(p, x) => RefusalPrepared(s, e, until, x);
      case Start(p, x) =>
        RefusalPrepared(s, e, until, x);
        RefusalBlocksAll(cfg, s, e, until, x);
        ClaimOne(s.records, x, s.now, cfg.leaseMs, e);
      case Succeed(f) => ResolveOne(s.records, f.e, s.now, cfg.retryBaseMs, cfg.retryMaxMs, None, e);
      case Refuse(f, retryAfter) => ResolveOne(s.records, f.e, s.now, cfg.retryBaseMs, cfg.retryMaxMs, retryAfter, e);
      case _ =>
    }
  }

  lemma RefusalStep(cfg: Config, steps: seq<Step>, k: nat, e: EventId, until: nat)
    requires k < |steps| && InForce(After(cfg, steps[..k]), e, until)
    ensures InForce(After(cfg, steps[..k + 1]), e, until)
  {
    assert steps[..k + 1][..k] == steps[..k];
    OneRowPerEvent(cfg, steps[..k]);
    RefusalStays(cfg, After(cfg, steps[..k]), steps[k], e, until);
  }

  lemma {:induction false} RefusalInForce(cfg: Config, steps: seq<Step>, j: nat, k: nat, e: EventId, until: nat)
    requires j <= k <= |steps| && InForce(After(cfg, steps[..j]), e, until)
    ensures InForce(After(cfg, steps[..k]), e, until)
    decreases k
  {
    if j < k {
      RefusalInForce(cfg, steps, j, k - 1, e, until);
      RefusalStep(cfg, steps, k - 1, e, until);
    }
  }

  /** The wait of a refusal is noted if and only if its record is still open; one that is failed or delivered by then is left alone. */
  lemma RefusalNotedExactly(cfg: Config, s: Net, f: Flight, retryAfter: nat)
    requires UniqueSources(s.records) && f in s.flights && StateOf(s.records, f.e).Some?
    ensures var r := StateOf(s.records, f.e).value;
            var after := Apply(cfg, s, Refuse(f, Some(retryAfter))).records;
            && (r.state in {Delivered, Failed} <==> after == s.records)
            && (r.state !in {Delivered, Failed} ==> InForce(Apply(cfg, s, Refuse(f, Some(retryAfter))), f.e, s.now + retryAfter))
  {
    ResolveOne(s.records, f.e, s.now, cfg.retryBaseMs, cfg.retryMaxMs, Some(retryAfter), f.e);
  }

  /** While the record is open when the refusal arrives, the refusal is obeyed; no lease assumption is needed for that. */
  lemma NotedRefusalObeyed(cfg: Config, steps: seq<Step>, j: nat, k: nat, f: Flight, retryAfter: nat, x: EventId)
    requires j < k <= |steps| && steps[j] == Refuse(f, Some(retryAfter))
    requires var s := After(cfg, steps[..j]);
             f in s.flights && StateOf(s.records, f.e).Some? && StateOf(s.records, f.e).value.state !in {Delivered, Failed}
    ensures var s := After(cfg, steps[..k]);
            && StateOf(s.records, f.e).Some?
            && (s.now < After(cfg, steps[..j]).now + retryAfter && StateOf(s.records, f.e).value.state != Delivered ==>
                  !Claim(s.records, x, s.now, cfg.leaseMs).go)
  {
    var s := After(cfg, steps[..j]);
    var until := s.now + retryAfter;
    assert steps[..j + 1][..j] == steps[..j];
    OneRowPerEvent(cfg, steps[..j]);
    OneRowPerEvent(cfg, steps[..k]);
    RefusalNotedExactly(cfg, s, f, retryAfter);
    RefusalInForce(cfg, steps, j + 1, k, f.e, until);
    var last := After(cfg, steps[..k]);
    if last.now < until && StateOf(last.records, f.e).value.state != Delivered {
      RefusalBlocksAll(cfg, last, f.e, until, x);
    }
  }

  /**
   * With every send resolved before its lease ends: after the provider refuses an attempt of `e` with a rate limit, no
   * process starts an attempt of any notification before the recorded retry time, for as long as `e` stays undelivered.
   */
  lemma RateLimitObeyed(cfg: Config, steps: seq<Step>, j: nat, k: nat, f: Flight, retryAfter: nat, x: EventId)
    requires j < k <= |steps| && steps[j] == Refuse(f, Some(retryAfter)) && f in After(cfg, steps[..j]).flights
    requires forall m :: 0 <= m < j ==> InTime(After(cfg, steps[..m]))
    ensures var s := After(cfg, steps[..k]);
            && StateOf(s.records, f.e).Some?
            && (s.now < After(cfg, steps[..j]).now + retryAfter && StateOf(s.records, f.e).value.state != Delivered ==>
                  !Claim(s.records, x, s.now, cfg.leaseMs).go)
  {
    OneAttemptInFlight(cfg, steps, j);
    assert HasLease(After(cfg, steps[..j]).records, f);
    NotedRefusalObeyed(cfg, steps, j, k, f, retryAfter, x);
  }

  // ---- Exactly when an attempt starts ----

  /** The record an event has, or the one it is queued with: pending, never tried. */
  ghost function Mine(records: seq<Record>, e: EventId): Record {
    var r := StateOf(records, e);
    if r.Some? then r.value else Record(e, Pending, 0, None, None, false)
  }

  /** The record makes the whole channel wait: undelivered, refused with a rate limit, and its retry time lies ahead. */
  ghost predicate MakesWait(r: Record, now: nat) {
    r.rateLimited && r.state != Delivered && r.nextAttemptAt.Some? && r.nextAttemptAt.value > now
  }

  ghost predicate WaitAt(records: seq<Record>, i: int, now: nat) {
    0 <= i < |records| && MakesWait(records[i], now)
  }

  ghost predicate ChannelWaits(records: seq<Record>, now: nat) {
    exists i :: WaitAt(records, i, now)
  }

  /** The shared wait is the latest of the waits that are owed, and none exactly when none is. */
  lemma {:induction false} BackoffExactly(records: seq<Record>, now: nat)
    ensures var until := SharedBackoff(records, now);
            && (forall i :: WaitAt(records, i, now) ==> records[i].nextAttemptAt.value <= until)
            && (until > now <==> ChannelWaits(records, now))
            && (ChannelWaits(records, now) ==> exists i :: WaitAt(records, i, now) && records[i].nextAttemptAt.value == until)
            && (!ChannelWaits(records, now) ==> until == 0)
  {
    if records != [] {
      var n := |records| - 1;
      var front := records[..n];
      BackoffExactly(front, now);
      forall i ensures WaitAt(records, i, now) <==> WaitAt(front, i, now) || (i == n && MakesWait(records[n], now)) {
        if 0 <= i < n { assert front[i] == records[i]; }
      }
      assert Holds(records[n], now) <==> MakesWait(records[n], now);
      if ChannelWaits(front, now) {
        var i :| WaitAt(front, i, now) && front[i].nextAttemptAt.value == SharedBackoff(front, now);
        assert WaitAt(records, i, now);
      }
      assert WaitAt(records, n, now) <==> MakesWait(records[n], now);
    }
  }

  /** Queueing an event adds no wait. */
  lemma QueueAddsNoWait(records: seq<Record>, e: EventId, now: nat)
    ensures forall i :: WaitAt(Enqueue(records, e), i, now) <==> WaitAt(records, i, now)
    ensures forall i :: WaitAt(records, i, now) ==> i < |Enqueue(records, e)| && Enqueue(records, e)[i] == records[i]
    ensures ChannelWaits(Enqueue(records, e), now) <==> ChannelWaits(records, now)
  {
    var queued := Enqueue(records, e);
    forall i ensures WaitAt(queued, i, now) <==> WaitAt(records, i, now) {
      if 0 <= i < |records| { assert queued[i] == records[i]; }
    }
    if i :| WaitAt(records, i, now) { assert WaitAt(queued, i, now); }
    if i :| WaitAt(queued, i, now) { assert WaitAt(records, i, now); }
  }

  lemma MineIsOf(records: seq<Record>, e: EventId)
    ensures Mine(records, e).source == e
  {
  }

  lemma QueuedIsMine(records: seq<Record>, e: EventId)
    requires UniqueSources(records)
    ensures StateOf(Enqueue(records, e), e) == Some(Mine(records, e)) && UniqueSources(Enqueue(records, e))
  {
    EnqueueOne(records, e, e);
  }

  /** Preparing an event goes on exactly when it is undelivered and the channel is free. */
  lemma PreparesExactly(records: seq<Record>, e: EventId, now: nat)
    requires UniqueSources(records)
    ensures Prepare(records, e, now).go <==> Mine(records, e).state != Delivered && !ChannelWaits(records, now)
  {
    QueuedIsMine(records, e);
    QueueAddsNoWait(records, e, now);
    BackoffExactly(Enqueue(records, e), now);
    PrepareQueuedOne(Enqueue(records, e), e, now, e);
  }

  /** The record is put off while the channel waits: it is undelivered and no attempt holds its lease. */
  ghost predicate PutOff(records: seq<Record>, r: Record, now: nat) {
    ChannelWaits(records, now) && r.state != Delivered && !(r.leaseUntil.Some? && r.leaseUntil.value > now)
  }

  /** What preparing leaves of the record: a record that is put off gets the latest of its own retry time and the waits owed; no other changes. */
  ghost predicate Postponed(records: seq<Record>, r: Record, r': Record, now: nat) {
    if PutOff(records, r, now) then
      && r'.nextAttemptAt.Some? && r'.(nextAttemptAt := r.nextAttemptAt) == r
      && (r.nextAttemptAt.Some? ==> r'.nextAttemptAt.value >= r.nextAttemptAt.value)
      && (forall i :: WaitAt(records, i, now) ==> r'.nextAttemptAt.value >= records[i].nextAttemptAt.value)
      && (r'.nextAttemptAt == r.nextAttemptAt || exists i :: WaitAt(records, i, now) && r'.nextAttemptAt == records[i].nextAttemptAt)
    else r' == r
  }

  lemma PutOffRecord(records: seq<Record>, r: Record, until: nat, now: nat)
    requires ChannelWaits(records, now) && until > now && r.state != Delivered
    requires forall i :: WaitAt(records, i, now) ==> records[i].nextAttemptAt.value <= until
    requires exists i :: WaitAt(records, i, now) && records[i].nextAttemptAt.value == until
    ensures Postponed(records, r, Deferred(r, until, now), now)
  {
    var i :| WaitAt(records, i, now) && records[i].nextAttemptAt.value == until;
    assert records[i].nextAttemptAt == Some(until);
  }

  lemma PreparedRecord(records: seq<Record>, e: EventId, now: nat)
    requires UniqueSources(records)
    ensures StateOf(Prepare(records, e, now).records, e).Some?
    ensures Postponed(records, Mine(records, e), StateOf(Prepare(records, e, now).records, e).value, now)
  {
    QueuedIsMine(records, e);
    QueueAddsNoWait(records, e, now);
    var queued := Enqueue(records, e);
    BackoffExactly(queued, now);
    PrepareOne(records, e, now, e);
    if ChannelWaits(records, now) && Mine(records, e).state != Delivered {
      var i :| WaitAt(queued, i, now) && queued[i].nextAttemptAt.value == SharedBackoff(queued, now);
      assert WaitAt(records, i, now);
      PutOffRecord(records, Mine(records, e), SharedBackoff(queued, now), now);
    }
  }

  /** An attempt may start: the record is undelivered, the channel does not wait, and neither its retry time nor its lease lies ahead. */
  ghost predicate MayStartAttempt(records: seq<Record>, r: Record, now: nat) {
    && r.state != Delivered && !ChannelWaits(records, now)
    && (r.nextAttemptAt.Some? ==> r.nextAttemptAt.value <= now) && (r.leaseUntil.Some? ==> r.leaseUntil.value <= now)
  }

  lemma ClaimGoes(records: seq<Record>, e: EventId, now: nat, leaseMs: nat)
    requires UniqueSources(records)
    ensures Claim(records, e, now, leaseMs).go <==> MayStartAttempt(records, Mine(records, e), now)
  {
    PreparesExactly(records, e, now);
    PreparedRecord(records, e, now);
    PrepareOne(records, e, now, e);
    ClaimPreparedOne(Prepare(records, e, now), e, now, leaseMs, e);
  }

  /** The record after a claim: the attempt with its lease, or the record as preparing left it. */
  ghost predicate AfterClaim(records: seq<Record>, r: Record, after: Option<Record>, go: bool, now: nat, leaseMs: nat) {
    && after.Some?
    && (go ==> after.value == Record(r.source, Delivering, r.attempts + 1, Some(now + leaseMs), None, false))
    && (!go ==> Postponed(records, r, after.value, now))
  }

  lemma AfterClaimFrom(records: seq<Record>, r: Record, prepared: Option<Record>, after: Option<Record>, go: bool, now: nat, leaseMs: nat)
    requires prepared.Some? && Postponed(records, r, prepared.value, now)
    requires after == if go then Some(Record(r.source, Delivering, prepared.value.attempts + 1, Some(now + leaseMs), None, false)) else prepared
    ensures AfterClaim(records, r, after, go, now, leaseMs)
  {
    assert prepared.value.attempts == r.attempts;
  }

  lemma ClaimedRecord(records: seq<Record>, e: EventId, now: nat, leaseMs: nat)
    requires UniqueSources(records)
    ensures var c := Claim(records, e, now, leaseMs);
            AfterClaim(records, Mine(records, e), StateOf(c.records, e), c.go, now, leaseMs)
  {
    var r, c := Mine(records, e), Claim(records, e, now, leaseMs);
    MineIsOf(records, e);
    PreparedRecord(records, e, now);
    PrepareOne(records, e, now, e);
    ClaimPreparedOne(Prepare(records, e, now), e, now, leaseMs, e);
    AfterClaimFrom(records, r, StateOf(Prepare(records, e, now).records, e), StateOf(c.records, e), c.go, now, leaseMs);
  }

  /**
   * Exactly when an attempt starts, and what a claim writes: the attempt has its lease and is counted; otherwise nothing
   * but the record's retry time changes, only while the channel waits, and only to a later one.
   */
  lemma ClaimsExactly(records: seq<Record>, e: EventId, now: nat, leaseMs: nat)
    requires UniqueSources(records)
    ensures var c, r := Claim(records, e, now, leaseMs), Mine(records, e);
            && (c.go <==> MayStartAttempt(records, r, now))
            && AfterClaim(records, r, StateOf(c.records, e), MayStartAttempt(records, r, now), now, leaseMs)
  {
    ClaimGoes(records, e, now, leaseMs);
    ClaimedRecord(records, e, now, leaseMs);
  }

  /** Another event's record is never touched by a claim. */
  lemma ClaimLeavesOthers(records: seq<Record>, e: EventId, now: nat, leaseMs: nat, x: EventId)
    requires UniqueSources(records) && x != e
    ensures StateOf(Claim(records, e, now, leaseMs).records, x) == StateOf(records, x)
  {
    ClaimOne(records, e, now, leaseMs, x);
    PrepareOne(records, e, now, x);
    EnqueueOne(records, e, x);
  }

  /** A failure of `e` that asks for no attempt before `until` is still remembered: delivered, run out, or written on the record. */
  ghost predicate Waiting(s: Net, e: EventId, until: nat) {
    var r := StateOf(s.records, e);
    && r.Some?
    && (r.value.state == Delivered || s.now >= until || (r.value.state == Failed && r.value.nextAttemptAt.Some? && r.value.nextAttemptAt.value >= until))
  }

  lemma WaitingBlocks(cfg: Config, s: Net, e: EventId, until: nat)
    requires UniqueSources(s.records) && Waiting(s, e, until) && s.now < until
    ensures !Claim(s.records, e, s.now, cfg.leaseMs).go
  {
    ClaimsExactly(s.records, e, s.now, cfg.leaseMs);
  }

  lemma StartWaits(cfg: Config, s: Net, e: EventId, until: nat, p: Proc, x: EventId)
    requires UniqueSources(s.records) && Waiting(s, e, until) && s.now < until
    ensures Waiting(Apply(cfg, s, Start(p, x)), e, until)
  {
    if x == e {
      WaitingBlocks(cfg, s, e, until);
      ClaimsExactly(s.records, e, s.now, cfg.leaseMs);
    } else {
      ClaimLeavesOthers(s.records, x, s.now, cfg.leaseMs, e);
    }
  }

  lemma BeginWaits(cfg: Config, s: Net, e: EventId, until: nat, p: Proc, x: EventId)
    requires UniqueSources(s.records) && Waiting(s, e, until) && s.now < until
    ensures Waiting(Apply(cfg, s, Begin(p, x)), e, until)
  {
    PrepareOne(s.records, x, s.now, e);
    EnqueueOne(s.records, x, e);
  }

  lemma WaitingStays(cfg: Config, s: Net, step: Step, e: EventId, until: nat)
    requires UniqueSources(s.records) && Waiting(s, e, until)
    ensures Waiting(Apply(cfg, s, step), e, until)
  {
    DeliveredStays(cfg, s, step, e);
    if StateOf(s.records, e).value.state != Delivered && s.now < until {
      match step
      case Begin(p, x) => BeginWaits(cfg, s, e, until, p, x);
      case Start(p, x) => StartWaits(cfg, s, e, until, p, x);
      case Succeed(f) => ResolveOne(s.records, f.e, s.now, cfg.retryBaseMs, cfg.retryMaxMs, None, e);
      case Refuse(f, retryAfter) => ResolveOne(s.records, f.e, s.now, cfg.retryBaseMs, cfg.retryMaxMs, retryAfter, e);
      case _ =>
    }
  }

  lemma WaitingStep(cfg: Config, steps: seq<Step>, k: nat, e: EventId, until: nat)
    requires k < |steps| && Waiting(After(cfg, steps[..k]), e, until)
    ensures Waiting(After(cfg, steps[..k + 1]), e, until)
  {
    assert steps[..k + 1][..k] == steps[..k];
    OneRowPerEvent(cfg, steps[..k]);
    WaitingStays(cfg, After(cfg, steps[..k]), steps[k], e, until);
  }

  lemma {:induction false} WaitingEverAfter(cfg: Config, steps: seq<Step>, j: nat, k: nat, e: EventId, until: nat)
    requires j <= k <= |steps| && Waiting(After(cfg, steps[..j]), e, until)
    ensures Waiting(After(cfg, steps[..k]), e, until)
    decreases k
  {
    if j < k {
      WaitingEverAfter(cfg, steps, j, k - 1, e, until);
      WaitingStep(cfg, steps, k - 1, e, until);
    }
  }

  lemma FailureNoted(cfg: Config, s: Net, f: Flight, retryAfter: Option<nat>)
    requires UniqueSources(s.records) && f in s.flights && StateOf(s.records, f.e).Some?
    requires StateOf(s.records, f.e).value.state !in {Delivered, Failed}
    ensures var wait := Delay(StateOf(s.records, f.e).value.attempts, cfg.retryBaseMs, cfg.retryMaxMs, if retryAfter.Some? then retryAfter.value else 0);
            Waiting(Apply(cfg, s, Refuse(f, retryAfter)), f.e, s.now + wait)
  {
    ResolveOne(s.records, f.e, s.now, cfg.retryBaseMs, cfg.retryMaxMs, retryAfter, f.e);
  }

  /**
   * After any failed attempt whose record was still open, ordinary or rate-limited, no process starts another attempt of
   * that notification before its delay is over, over any continuation of the history.
   */
  lemma FailureObeyed(cfg: Config, steps: seq<Step>, j: nat, k: nat, f: Flight, retryAfter: Option<nat>)
    requires j < k <= |steps| && steps[j] == Refuse(f, retryAfter)
    requires var s := After(cfg, steps[..j]);
             f in s.flights && StateOf(s.records, f.e).Some? && StateOf(s.records, f.e).value.state !in {Delivered, Failed}
    ensures var s, last := After(cfg, steps[..j]), After(cfg, steps[..k]);
            var wait := Delay(StateOf(s.records, f.e).value.attempts, cfg.retryBaseMs, cfg.retryMaxMs, if retryAfter.Some? then retryAfter.value else 0);
            last.now < s.now + wait ==> !Claim(last.records, f.e, last.now, cfg.leaseMs).go
  {
    var s := After(cfg, steps[..j]);
    assert steps[..j + 1][..j] == steps[..j];
    OneRowPerEvent(cfg, steps[..j]);
    OneRowPerEvent(cfg, steps[..k]);
    FailureNoted(cfg, s, f, retryAfter);
    var wait := Delay(StateOf(s.records, f.e).value.attempts, cfg.retryBaseMs, cfg.retryMaxMs, if retryAfter.Some? then retryAfter.value else 0);
    WaitingEverAfter(cfg, steps, j + 1, k, f.e, s.now + wait);
    if After(cfg, steps[..k]).now < s.now + wait {
      WaitingBlocks(cfg, After(cfg, steps[..k]), f.e, s.now + wait);
    }
  }

  // ---- The outbox as the dispatcher updates it ----

  class Outbox {
    var records: seq<Record>

    constructor ()
      ensures records == []
    {
      records := [];
    }

    method Find(e: EventId) returns (i: Option<nat>)
      ensures i == IndexOf(records, e)
    {
      var k := 0;
      while k < |records|
        invariant 0 <= k <= |records| && IndexOf(records[..k], e).None?
      {
        assert records[..k + 1][..k] == records[..k];
        if records[k].source == e {
          FoundStays(records, e, k + 1);
          return Some(k);
        }
        k := k + 1;
      }
      assert records[..k] == records;
      return None;
    }

    /** The retry time the shared channel owes to earlier refusals. */
    method ChannelBackoff(now: nat) returns (until: nat)
      ensures until == SharedBackoff(records, now)
      ensures forall i :: 0 <= i < |records| && Holds(records[i], now) ==> records[i].nextAttemptAt.value <= until
    {
      until := 0;
      for k := 0 to |records|
        invariant until == SharedBackoff(records[..k], now)
        invariant forall i :: 0 <= i < k && Holds(records[i], now) ==> records[i].nextAttemptAt.value <= until
      {
        assert records[..k + 1][..k] == records[..k];
        if Holds(records[k], now) && records[k].nextAttemptAt.value > until {
          until := records[k].nextAttemptAt.value;
        }
      }
      assert records[..|records|] == records;
    }

    method PrepareDelivery(e: EventId, now: nat) returns (go: bool)
      modifies this
      ensures Outcome(records, go) == Prepare(old(records), e, now)
    {
      var found := Find(e);
      if found.None? {
        PushAppends(records, Queued(e));
        records := records + [Queued(e)];
        found := Find(e);
      }
      var i := found.value;
      if records[i].state == Delivered {
        return false;
      }
      var until := ChannelBackoff(now);
      if until > now {
        records := records[i := Deferred(records[i], until, now)];
        return false;
      }
      return true;
    }

    /** The claim transaction: one attempt, one lease. */
    method ClaimDelivery(e: EventId, now: nat, leaseMs: nat) returns (go: bool)
      modifies this
      ensures Outcome(records, go) == Claim(old(records), e, now, leaseMs)
    {
      go := PrepareDelivery(e, now);
      var found := Find(e);
      var i := found.value;
      var r := records[i];
      if !go || LaterThan(r.nextAttemptAt, now) || LaterThan(r.leaseUntil, now) {
        return false;
      }
      records := records[i := Record(e, Delivering, r.attempts + 1, Some(now + leaseMs), None, false)];
    }
  }

  lemma {:induction false} FoundStays(records: seq<Record>, e: EventId, k: nat)
    requires k <= |records| && IndexOf(records[..k], e).Some?
    ensures IndexOf(records, e) == IndexOf(records[..k], e)
    decreases |records|
  {
    if k == |records| {
      assert records[..k] == records;
    } else {
      assert records[..|records| - 1][..k] == records[..k];
      FoundStays(records[..|records| - 1], e, k);
    }
  }
}
