/** The bounded queue and its tailer, as the object they are in the program. */
module LedgerQueue {
  import opened Prelude
  import opened LedgerDelivery

  /** An unterminated final record: its segment, line and length. */
  datatype Tail = Tail(segment: string, line: nat, length: nat)

  datatype Observation = Observation(tail: Option<Tail>, time: real)

  /** The tail last seen, and when it was first seen. */
  datatype Watch = Watch(tail: Option<Tail>, since: real)

  datatype Taken = Taken(event: Event) | TailerFailed(cursor: nat) | TimedOut

  // ---- the stuck-tail watch

  function Elapsed(since: real, now: real): real {
    if now >= since then now - since else 0.0
  }

  function Watched(w: Watch, o: Observation): Watch {
    if o.tail.None? || o.tail != w.tail then Watch(o.tail, o.time) else w
  }

  predicate Stuck(w: Watch, o: Observation, timeout: real) {
    o.tail.Some? && o.tail == w.tail && Elapsed(w.since, o.time) >= timeout
  }

  const UNWATCHED := Watch(None, 0.0)

  function WatchAfter(seen: seq<Observation>): Watch {
    if seen == [] then UNWATCHED else Watched(WatchAfter(seen[..|seen| - 1]), seen[|seen| - 1])
  }

  /** The tail has been the same at every observation from m on, and it was new at m. */
  ghost predicate SameSince(seen: seq<Observation>, m: int) {
    && 0 <= m < |seen| && seen[m].tail.Some?
    && (forall i :: m <= i < |seen| ==> seen[i].tail == seen[m].tail)
    && (m > 0 ==> seen[m - 1].tail != seen[m].tail)
  }

  lemma SameSinceExtends(seen: seq<Observation>, next: Observation, m: int)
    requires seen != [] && 0 <= m < |seen|
    ensures SameSince(seen + [next], m) <==> SameSince(seen, m) && next.tail == seen[m].tail
  {
    var all := seen + [next];
    assert all[|seen|] == next && forall i :: 0 <= i < |seen| ==> all[i] == seen[i];
  }

  lemma {:induction false} WatchRemembersTheFirstSighting(seen: seq<Observation>)
    requires seen != []
    ensures WatchAfter(seen).tail == seen[|seen| - 1].tail
    ensures forall m :: SameSince(seen, m) ==> WatchAfter(seen).since == seen[m].time
    ensures seen[|seen| - 1].tail.Some? ==> exists m :: SameSince(seen, m)
  {
    var last := |seen| - 1;
    var before := seen[..last];
    var o := seen[last];
    assert seen == before + [o];
    if last > 0 { WatchRemembersTheFirstSighting(before); }
    forall m | SameSince(seen, m) ensures WatchAfter(seen).since == seen[m].time {
      if m < last { SameSinceExtends(before, o, m); }
    }
    if last > 0 && o.tail.Some? && o.tail == before[last - 1].tail {
      var m :| SameSince(before, m);
      SameSinceExtends(before, o, m);
    } else if o.tail.Some? {
      assert SameSince(seen, last);
    }
  }

  /** The tailer gives up exactly when one unterminated tail stayed the same for the whole timeout. */
  lemma StuckIff(seen: seq<Observation>, next: Observation, timeout: real)
    requires seen != [] && timeout > 0.0
    ensures Stuck(WatchAfter(seen), next, timeout) <==>
              exists m :: 0 <= m < |seen| && SameSince(seen + [next], m) && next.time - seen[m].time >= timeout
  {
    WatchRemembersTheFirstSighting(seen);
    if Stuck(WatchAfter(seen), next, timeout) {
      var m :| SameSince(seen, m);
      SameSinceExtends(seen, next, m);
    }
    if m :| 0 <= m < |seen| && SameSince(seen + [next], m) && next.time - seen[m].time >= timeout {
      SameSinceExtends(seen, next, m);
    }
  }

  // ---- the projection loop

  lemma NothingRead(ledger: seq<Event>, cursor: nat)
    ensures [] + Above(ledger[0..], cursor) == Above(ledger, cursor)
  {
    assert ledger[0..] == ledger;
  }

  /** Reading row i moves it, if it is above the cursor, from what is still to read to what was read. */
  lemma OneRowOn(ledger: seq<Event>, cursor: nat, i: nat, batch: seq<Event>)
    requires i < |ledger|
    ensures batch + Above(ledger[i..], cursor)
         == (if ledger[i].runSeq > cursor then batch + [ledger[i]] else batch) + Above(ledger[i + 1..], cursor)
  {
    assert ledger[i..][1..] == ledger[i + 1..];
    JoinOne(batch, ledger[i], Above(ledger[i + 1..], cursor));
    if ledger[i].runSeq <= cursor {
      assert Above(ledger[i..], cursor) == [] + Above(ledger[i + 1..], cursor) == Above(ledger[i + 1..], cursor);
    }
  }

  lemma JoinOne(a: seq<Event>, e: Event, b: seq<Event>)
    ensures a + ([e] + b) == a + [e] + b
  {
  }

  lemma EverythingRead(ledger: seq<Event>, cursor: nat, batch: seq<Event>)
    requires batch + Above(ledger[|ledger|..], cursor) == Above(ledger, cursor)
    ensures batch == Above(ledger, cursor)
  {
    assert ledger[|ledger|..] == [];
  }

  // ---- the object

  class LedgerQueue {
    const room: nat
    const timeout: real
    var cursor: nat
    var events: seq<Event>
    var failed: bool
    var watch: Watch

    ghost predicate Valid()
      reads this
    {
      |events| <= room && room > 0 && timeout > 0.0
    }

    /** The tailer starts at the persisted cursor. */
    constructor (room: nat, timeout: real, persisted: nat)
      requires room > 0 && timeout > 0.0
      ensures Valid() && this.room == room && this.timeout == timeout
      ensures cursor == persisted && events == [] && !failed && watch == UNWATCHED
    {
      this.room, this.timeout := room, timeout;
      cursor, events, failed, watch := persisted, [], false, UNWATCHED;
    }

    /** Every row above the tailer's cursor, in ledger order. */
    method ReadFrom(ledger: seq<Event>) returns (batch: seq<Event>)
      ensures batch == Above(ledger, cursor)
    {
      hide Above;
      batch := [];
      NothingRead(ledger, cursor);
      for i := 0 to |ledger|
        invariant batch + Above(ledger[i..], cursor) == Above(ledger, cursor)
      {
        OneRowOn(ledger, cursor, i, batch);
        if ledger[i].runSeq > cursor { batch := batch + [ledger[i]]; }
      }
      EverythingRead(ledger, cursor, batch);
    }

    /** Put the events of a batch one by one until the queue is full; what is left waits for the consumer. */
    method Offer(batch: seq<Event>) returns (put: nat)
      requires Valid()
      modifies this`cursor, this`events
      ensures Valid()
      ensures put <= |batch| && events == old(events) + batch[..put]
      ensures put == |batch| || |events| == room
      ensures cursor == if put == 0 then old(cursor) else batch[put - 1].runSeq
    {
      put := 0;
      while put < |batch| && |events| < room
        invariant put <= |batch| && |events| <= room
        invariant events == old(events) + batch[..put]
        invariant cursor == if put == 0 then old(cursor) else batch[put - 1].runSeq
      {
        events := events + [batch[put]];
        cursor := batch[put].runSeq;
        put := put + 1;
      }
    }

    /** The oldest queued event; a stopped tailer is reported only once the queue is empty. */
    method Get() returns (taken: Taken)
      requires Valid()
      modifies this`events
      ensures Valid()
      ensures if old(events) != [] then taken == Taken(old(events)[0]) && events == old(events)[1..]
              else events == [] && taken == if failed then TailerFailed(cursor) else TimedOut
    {
      if events != [] {
        taken := Taken(events[0]);
        events := events[1..];
      } else if failed {
        taken := TailerFailed(cursor);
      } else {
        taken := TimedOut;
      }
    }

    /** Remember a newly seen tail; stop the tailer when the same tail outlives the timeout. */
    method CheckActiveTail(o: Observation)
      requires Valid()
      modifies this`watch, this`failed
      ensures Valid()
      ensures watch == Watched(old(watch), o)
      ensures failed == (old(failed) || Stuck(old(watch), o, timeout))
    {
      if o.tail.None? || o.tail != watch.tail {
        watch := Watch(o.tail, o.time);
        return;
      }
      if Elapsed(watch.since, o.time) >= timeout { failed := true; }
    }
  }
}
