/** The left-over balance reminder: a clock per wallet that activity, a run or a drop below the ceiling resets. */
module Excess {
  import opened Basics

  type Address = nat

  datatype Entry = Entry(firstAboveAt: nat, activityKey: nat, lastReminderAt: Option<nat>)
  datatype Sighting = Sighting(address: Option<Address>, balanceWei: int, nonce: nat)
  datatype Input = Input(sightings: seq<Sighting>, walletMaxWei: int, runActive: bool, now: nat)
  datatype Tracked = Tracked(next: map<Address, Entry>, reminders: seq<Address>)

  predicate Above(inp: Input, s: Sighting) {
    !inp.runActive && s.balanceWei > inp.walletMaxWei
  }

  /** The entry a sighting above the ceiling starts from: the running clock, or a new one after any activity. */
  function Clocked(previous: map<Address, Entry>, s: Sighting, a: Address, now: nat): Entry {
    if a in previous && previous[a].activityKey == s.nonce then previous[a] else Entry(now, s.nonce, None)
  }

  predicate Due(e: Entry, now: nat, afterMs: nat) {
    now - e.firstAboveAt >= afterMs && (e.lastReminderAt.None? || now - e.lastReminderAt.value >= afterMs)
  }

  function Note(previous: map<Address, Entry>, inp: Input, afterMs: nat, t: Tracked, s: Sighting): Tracked {
    if s.address.None? || !Above(inp, s) then t
    else
      var a := s.address.value;
      var e := Clocked(previous, s, a, inp.now);
      if Due(e, inp.now, afterMs)
      then Tracked(t.next[a := e.(lastReminderAt := Some(inp.now))], t.reminders + [a])
      else t.(next := t.next[a := e])
  }

  function NoteAll(previous: map<Address, Entry>, inp: Input, afterMs: nat, sightings: seq<Sighting>): Tracked {
    if sightings == [] then Tracked(map[], [])
    else Note(previous, inp, afterMs, NoteAll(previous, inp, afterMs, sightings[..|sightings| - 1]), sightings[|sightings| - 1])
  }

  method StepExcessTracker(previous: map<Address, Entry>, inp: Input, afterMs: nat) returns (t: Tracked)
    ensures t == NoteAll(previous, inp, afterMs, inp.sightings)
  {
    t := Tracked(map[], []);
    for i := 0 to |inp.sightings|
      invariant t == NoteAll(previous, inp, afterMs, inp.sightings[..i])
    {
      assert inp.sightings[..i + 1][..i] == inp.sightings[..i];
      var s := inp.sightings[i];
      if s.address.None? || inp.runActive || s.balanceWei <= inp.walletMaxWei {
        continue;
      }
      var a := s.address.value;
      var e := if a in previous && previous[a].activityKey == s.nonce then previous[a] else Entry(inp.now, s.nonce, None);
      if Due(e, inp.now, afterMs) {
        e := e.(lastReminderAt := Some(inp.now));
        t := Tracked(t.next[a := e], t.reminders + [a]);
      } else {
        t := t.(next := t.next[a := e]);
      }
    }
    assert inp.sightings[..|inp.sightings|] == inp.sightings;
  }

  // ---- One wallet ----

  predicate OncePerStep(sightings: seq<Sighting>) {
    forall i, j :: 0 <= i < j < |sightings| && sightings[i].address.Some? ==> sightings[i].address != sightings[j].address
  }

  ghost predicate SightedAbove(inp: Input, s: Sighting, a: Address, nonce: nat) {
    s.address == Some(a) && s.nonce == nonce && s.balanceWei > inp.walletMaxWei && !inp.runActive
  }

  /** The wallet is seen above the ceiling with this nonce while no run is armed or active. */
  ghost predicate QuietAbove(inp: Input, a: Address, nonce: nat) {
    exists i :: 0 <= i < |inp.sightings| && SightedAbove(inp, inp.sightings[i], a, nonce)
  }

  /** What a step leaves for one wallet: nothing, or an entry whose clock was kept only across an unchanged nonce. */
  ghost predicate EntryFrom(previous: map<Address, Entry>, inp: Input, afterMs: nat, a: Address, e: Entry, reminded: bool) {
    && QuietAbove(inp, a, e.activityKey)
    && (var base := if a in previous && previous[a].activityKey == e.activityKey then previous[a] else Entry(inp.now, e.activityKey, None);
        && (reminded <==> Due(base, inp.now, afterMs))
        && e == if reminded then base.(lastReminderAt := Some(inp.now)) else base)
  }

  lemma {:induction false} NoteAllFor(previous: map<Address, Entry>, inp: Input, afterMs: nat, n: nat, a: Address)
    requires OncePerStep(inp.sightings) && n <= |inp.sightings|
    ensures var t := NoteAll(previous, inp, afterMs, inp.sightings[..n]);
            && (a in t.reminders ==> a in t.next)
            && (a in t.next ==> EntryFrom(previous, inp, afterMs, a, t.next[a], a in t.reminders))
            && (a in t.next ==> exists i :: 0 <= i < n && inp.sightings[i].address == Some(a))
    decreases n
  {
    if n > 0 {
      var before := NoteAll(previous, inp, afterMs, inp.sightings[..n - 1]);
      var t := NoteAll(previous, inp, afterMs, inp.sightings[..n]);
      assert inp.sightings[..n][..n - 1] == inp.sightings[..n - 1];
      NoteAllFor(previous, inp, afterMs, n - 1, a);
      var s := inp.sightings[n - 1];
      if s.address == Some(a) && Above(inp, s) {
        assert a !in before.next;
        assert SightedAbove(inp, s, a, s.nonce);
        assert QuietAbove(inp, a, s.nonce);
      }
    }
  }

  // ---- Histories ----

  function After(steps: seq<Input>, afterMs: nat): Tracked {
    if steps == [] then Tracked(map[], [])
    else NoteAll(After(steps[..|steps| - 1], afterMs).next, steps[|steps| - 1], afterMs, steps[|steps| - 1].sightings)
  }

  ghost predicate Orderly(steps: seq<Input>) {
    && (forall k :: 0 <= k < |steps| ==> OncePerStep(steps[k].sightings))
    && (forall j, k :: 0 <= j < k < |steps| ==> steps[j].now <= steps[k].now)
  }

  ghost predicate Reminds(steps: seq<Input>, afterMs: nat, k: nat, a: Address) {
    k < |steps| && a in After(steps[..k + 1], afterMs).reminders
  }

  /** From step `j` to step `k` the wallet stayed above the ceiling with one nonce and no run. */
  ghost predicate IdleAbove(steps: seq<Input>, j: nat, k: nat, a: Address, nonce: nat) {
    forall m :: j <= m <= k && m < |steps| ==> QuietAbove(steps[m], a, nonce)
  }

  /** The clock of an entry started at a recorded step, and every step since kept it running. */
  ghost predicate ClockBacked(steps: seq<Input>, k: nat, a: Address, e: Entry) {
    exists j :: 0 <= j < k <= |steps| && steps[j].now == e.firstAboveAt && IdleAbove(steps, j, k - 1, a, e.activityKey)
  }

  lemma {:induction false} ClockAlwaysBacked(steps: seq<Input>, afterMs: nat, k: nat, a: Address)
    requires Orderly(steps) && k <= |steps| && a in After(steps[..k], afterMs).next
    ensures ClockBacked(steps, k, a, After(steps[..k], afterMs).next[a])
    decreases k
  {
    var inp := steps[k - 1];
    var previous := After(steps[..k - 1], afterMs).next;
    assert steps[..k][..k - 1] == steps[..k - 1];
    NoteAllFor(previous, inp, afterMs, |inp.sightings|, a);
    assert inp.sightings[..|inp.sightings|] == inp.sightings;
    var e := After(steps[..k], afterMs).next[a];
    if a in previous && previous[a].activityKey == e.activityKey {
      ClockAlwaysBacked(steps, afterMs, k - 1, a);
      var j :| 0 <= j < k - 1 && steps[j].now == previous[a].firstAboveAt && IdleAbove(steps, j, k - 2, a, e.activityKey);
      assert IdleAbove(steps, j, k - 1, a, e.activityKey);
    } else {
      assert IdleAbove(steps, k - 1, k - 1, a, e.activityKey);
    }
  }

  /** Every reminder comes after a full period in which the wallet sat above the ceiling, idle and without a run. */
  lemma ReminderIsEarned(steps: seq<Input>, afterMs: nat, k: nat, a: Address) returns (j: nat, nonce: nat)
    requires Orderly(steps) && Reminds(steps, afterMs, k, a)
    ensures j <= k && steps[k].now - steps[j].now >= afterMs && IdleAbove(steps, j, k, a, nonce)
  {
    var inp := steps[k];
    var previous := After(steps[..k], afterMs).next;
    assert steps[..k + 1][..k] == steps[..k];
    NoteAllFor(previous, inp, afterMs, |inp.sightings|, a);
    assert inp.sightings[..|inp.sightings|] == inp.sightings;
    var e := After(steps[..k + 1], afterMs).next[a];
    ClockAlwaysBacked(steps, afterMs, k + 1, a);
    nonce := e.activityKey;
    j :| 0 <= j < k + 1 && steps[j].now == e.firstAboveAt && IdleAbove(steps, j, k, a, e.activityKey);
  }

  /** A reminder that was sent is remembered by the entry, or has been followed by a new clock. */
  ghost predicate Remembered(next: map<Address, Entry>, a: Address, at: nat) {
    a in next ==> next[a].firstAboveAt >= at || (next[a].lastReminderAt.Some? && next[a].lastReminderAt.value >= at)
  }

  lemma {:induction false} RemindersRemembered(steps: seq<Input>, afterMs: nat, m: nat, k: nat, a: Address)
    requires Orderly(steps) && Reminds(steps, afterMs, m, a) && m < k <= |steps|
    ensures Remembered(After(steps[..k], afterMs).next, a, steps[m].now)
    decreases k
  {
    var inp := steps[k - 1];
    var previous := After(steps[..k - 1], afterMs).next;
    assert steps[..k][..k - 1] == steps[..k - 1];
    NoteAllFor(previous, inp, afterMs, |inp.sightings|, a);
    assert inp.sightings[..|inp.sightings|] == inp.sightings;
    if m < k - 1 {
      RemindersRemembered(steps, afterMs, m, k - 1, a);
    }
  }

  /** Two reminders for one wallet are at least one period apart. */
  lemma RemindersSpaced(steps: seq<Input>, afterMs: nat, m: nat, k: nat, a: Address)
    requires Orderly(steps) && Reminds(steps, afterMs, m, a) && Reminds(steps, afterMs, k, a) && m < k
    ensures steps[k].now - steps[m].now >= afterMs
  {
    var inp := steps[k];
    var previous := After(steps[..k], afterMs).next;
    assert steps[..k + 1][..k] == steps[..k];
    RemindersRemembered(steps, afterMs, m, k, a);
    NoteAllFor(previous, inp, afterMs, |inp.sightings|, a);
    assert inp.sightings[..|inp.sightings|] == inp.sightings;
  }

  // ---- Nothing else keeps a reminder back ----

  /** A sighting above the ceiling leaves an entry with its nonce. */
  lemma {:induction false} SightingLeavesEntry(previous: map<Address, Entry>, inp: Input, afterMs: nat, n: nat, i: nat, a: Address, nonce: nat)
    requires OncePerStep(inp.sightings) && i < n <= |inp.sightings| && SightedAbove(inp, inp.sightings[i], a, nonce)
    ensures var t := NoteAll(previous, inp, afterMs, inp.sightings[..n]); a in t.next && t.next[a].activityKey == nonce
    decreases n
  {
    assert inp.sightings[..n][..n - 1] == inp.sightings[..n - 1];
    if i < n - 1 {
      SightingLeavesEntry(previous, inp, afterMs, n - 1, i, a, nonce);
      assert inp.sightings[n - 1].address != Some(a);
    }
  }

  lemma QuietLeavesEntry(steps: seq<Input>, afterMs: nat, k: nat, a: Address, nonce: nat)
    requires Orderly(steps) && k < |steps| && QuietAbove(steps[k], a, nonce)
    ensures var t := After(steps[..k + 1], afterMs); a in t.next && t.next[a].activityKey == nonce
    ensures EntryFrom(After(steps[..k], afterMs).next, steps[k], afterMs, a, After(steps[..k + 1], afterMs).next[a], Reminds(steps, afterMs, k, a))
  {
    var inp := steps[k];
    var previous := After(steps[..k], afterMs).next;
    assert steps[..k + 1][..k] == steps[..k];
    assert inp.sightings[..|inp.sightings|] == inp.sightings;
    var i :| 0 <= i < |inp.sightings| && SightedAbove(inp, inp.sightings[i], a, nonce);
    SightingLeavesEntry(previous, inp, afterMs, |inp.sightings|, i, a, nonce);
    NoteAllFor(previous, inp, afterMs, |inp.sightings|, a);
  }

  /** The clock of an idle stretch started no later than the stretch. */
  lemma {:induction false} ClockCovers(steps: seq<Input>, afterMs: nat, j: nat, k: nat, a: Address, nonce: nat)
    requires Orderly(steps) && j <= k < |steps| && IdleAbove(steps, j, k, a, nonce)
    ensures var t := After(steps[..k + 1], afterMs); a in t.next && t.next[a].activityKey == nonce && t.next[a].firstAboveAt <= steps[j].now
    decreases k
  {
    assert QuietAbove(steps[k], a, nonce);
    QuietLeavesEntry(steps, afterMs, k, a, nonce);
    if j < k {
      ClockCovers(steps, afterMs, j, k - 1, a, nonce);
    } else {
      ClockStartsBy(steps, afterMs, k, a);
    }
  }

  /** No entry's clock starts after the step it is written in. */
  lemma {:induction false} ClockStartsBy(steps: seq<Input>, afterMs: nat, k: nat, a: Address)
    requires Orderly(steps) && k < |steps| && a in After(steps[..k + 1], afterMs).next
    ensures After(steps[..k + 1], afterMs).next[a].firstAboveAt <= steps[k].now
    decreases k
  {
    ClockAlwaysBacked(steps, afterMs, k + 1, a);
    var e := After(steps[..k + 1], afterMs).next[a];
    var j :| 0 <= j < k + 1 && steps[j].now == e.firstAboveAt && IdleAbove(steps, j, k, a, e.activityKey);
  }

  /** A remembered reminder was sent at an earlier step, at the time it is remembered with. */
  lemma {:induction false} ReminderWasSent(steps: seq<Input>, afterMs: nat, k: nat, a: Address) returns (m: nat)
    requires Orderly(steps) && k <= |steps| && a in After(steps[..k], afterMs).next && After(steps[..k], afterMs).next[a].lastReminderAt.Some?
    ensures m < k && Reminds(steps, afterMs, m, a) && After(steps[..k], afterMs).next[a].lastReminderAt == Some(steps[m].now)
    decreases k
  {
    var inp := steps[k - 1];
    var previous := After(steps[..k - 1], afterMs).next;
    assert steps[..k][..k - 1] == steps[..k - 1];
    NoteAllFor(previous, inp, afterMs, |inp.sightings|, a);
    assert inp.sightings[..|inp.sightings|] == inp.sightings;
    if Reminds(steps, afterMs, k - 1, a) {
      m := k - 1;
    } else {
      m := ReminderWasSent(steps, afterMs, k - 1, a);
    }
  }

  /**
   * The other direction: a wallet that has sat above the ceiling for a full period with one nonce and no run, and was not
   * reminded within the last period, is reminded.
   */
  lemma IdleIsReminded(steps: seq<Input>, afterMs: nat, j: nat, k: nat, a: Address, nonce: nat)
    requires Orderly(steps) && j <= k < |steps| && IdleAbove(steps, j, k, a, nonce) && steps[k].now - steps[j].now >= afterMs
    requires forall m :: 0 <= m < k && Reminds(steps, afterMs, m, a) ==> steps[k].now - steps[m].now >= afterMs
    ensures Reminds(steps, afterMs, k, a)
  {
    assert QuietAbove(steps[k], a, nonce);
    QuietLeavesEntry(steps, afterMs, k, a, nonce);
    ClockCovers(steps, afterMs, j, k, a, nonce);
    var previous := After(steps[..k], afterMs).next;
    if a in previous && previous[a].lastReminderAt.Some? {
      var m := ReminderWasSent(steps, afterMs, k, a);
    }
  }
}
