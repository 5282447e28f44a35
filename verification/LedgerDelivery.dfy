/**
 Delivery of ledger events to one consumer: an append-only ledger, a tailer with a bounded queue, and a
 persisted cursor, over every interleaving of their steps and every restart.
 */
module LedgerDelivery {
  import opened Prelude

  /** A mapped, in-scope ledger row. */
  datatype Event = Event(runSeq: nat, body: string)

  datatype Hand = Empty | Fetched(event: Event) | Done(event: Event)

  /** What dies with the process: the tailer's cursor and current batch, the queue, and the consumer's hand. */
  datatype Process = Process(
    start: nat, cursor: nat, batch: seq<Event>, queue: seq<Event>, hand: Hand, delivered: seq<Event>)

  /** `handled` lists every handling so far, across restarts. */
  datatype World = World(ledger: seq<Event>, persisted: nat, handled: seq<Event>, process: Process)

  datatype Step =
    | Append(event: Event)
    | Poll
    | Put
    | Get
    | Handle
    | Acknowledge
    | Restart

  predicate Increasing(ledger: seq<Event>) {
    forall i, j :: 0 <= i < j < |ledger| ==> ledger[i].runSeq < ledger[j].runSeq
  }

  /** The ledger is replayed strictly above a cursor. */
  function Above(ledger: seq<Event>, cursor: nat): seq<Event> {
    if ledger == [] then []
    else (if ledger[0].runSeq > cursor then [ledger[0]] else []) + Above(ledger[1..], cursor)
  }

  function Fresh(persisted: nat): Process {
    Process(persisted, persisted, [], [], Empty, [])
  }

  function Initial(ledger: seq<Event>): World {
    World(ledger, 0, [], Fresh(0))
  }

  /** `room` is the capacity of the bounded queue. */
  predicate Enabled(w: World, room: nat, s: Step) {
    match s
    case Append(e) => forall other :: other in w.ledger ==> other.runSeq < e.runSeq
    case Poll => w.process.batch == []
    case Put => w.process.batch != [] && |w.process.queue| < room
    case Get => w.process.queue != [] && w.process.hand.Empty?
    case Handle => w.process.hand.Fetched?
    case Acknowledge => w.process.hand.Done?
    case Restart => true
  }

  function Next(w: World, room: nat, s: Step): World
    requires Enabled(w, room, s)
  {
    var p := w.process;
    match s
    case Append(e) => w.(ledger := w.ledger + [e])
    case Poll => w.(process := p.(batch := Above(w.ledger, p.cursor)))
    case Put =>
      w.(process := p.(batch := p.batch[1..], queue := p.queue + [p.batch[0]], cursor := p.batch[0].runSeq))
    case Get =>
      w.(process := p.(queue := p.queue[1..], hand := Fetched(p.queue[0]), delivered := p.delivered + [p.queue[0]]))
    case Handle => w.(handled := w.handled + [p.hand.event], process := p.(hand := Done(p.hand.event)))
    case Acknowledge => w.(persisted := Max(w.persisted, p.hand.event.runSeq), process := p.(hand := Empty))
    case Restart => w.(process := Fresh(w.persisted))
  }

  function After(w: World, room: nat, steps: seq<Step>): World
    decreases |steps|
  {
    if steps == [] then w
    else After(if Enabled(w, room, steps[0]) then Next(w, room, steps[0]) else w, room, steps[1..])
  }

  // ---- the replayed suffix

  lemma {:induction false} AboveMembers(ledger: seq<Event>, cursor: nat)
    ensures forall e :: e in Above(ledger, cursor) <==> e in ledger && e.runSeq > cursor
  {
    if ledger != [] {
      AboveMembers(ledger[1..], cursor);
      assert ledger == [ledger[0]] + ledger[1..];
    }
  }

  lemma {:induction false} AboveIsIncreasing(ledger: seq<Event>, cursor: nat)
    requires Increasing(ledger)
    ensures Increasing(Above(ledger, cursor))
  {
    if ledger != [] {
      AboveIsIncreasing(ledger[1..], cursor);
      AboveMembers(ledger[1..], cursor);
      var rest := Above(ledger[1..], cursor);
      forall j | 0 <= j < |rest| ensures ledger[0].runSeq < rest[j].runSeq {
        assert rest[j] in rest;
        var k :| 0 <= k < |ledger[1..]| && ledger[1..][k] == rest[j];
        assert ledger[k + 1] == rest[j];
      }
    }
  }

  lemma {:induction false} AboveAppend(ledger: seq<Event>, e: Event, cursor: nat)
    ensures Above(ledger + [e], cursor) == Above(ledger, cursor) + if e.runSeq > cursor then [e] else []
  {
    if ledger == [] {
      assert ledger + [e] == [e];
    } else {
      AboveAppend(ledger[1..], e, cursor);
      assert (ledger + [e])[1..] == ledger[1..] + [e];
    }
  }

  lemma {:induction false} AboveNothing(ledger: seq<Event>, cursor: nat)
    requires forall e :: e in ledger ==> e.runSeq <= cursor
    ensures Above(ledger, cursor) == []
  {
    if ledger != [] { AboveNothing(ledger[1..], cursor); }
  }

  lemma {:induction false} AboveAll(ledger: seq<Event>, cursor: nat)
    requires forall e :: e in ledger ==> e.runSeq > cursor
    ensures Above(ledger, cursor) == ledger
  {
    if ledger != [] { AboveAll(ledger[1..], cursor); }
  }

  lemma TailIsLater(ledger: seq<Event>)
    requires Increasing(ledger) && ledger != []
    ensures Increasing(ledger[1..]) && forall e :: e in ledger[1..] ==> e.runSeq > ledger[0].runSeq
  {
    var rest := ledger[1..];
    forall e | e in rest ensures e.runSeq > ledger[0].runSeq {
      var k :| 0 <= k < |rest| && rest[k] == e;
      assert ledger[k + 1] == e;
    }
  }

  /** Moving the cursor to the first replayed event drops just that event. */
  lemma {:induction false} AboveAdvances(ledger: seq<Event>, cursor: nat)
    requires Increasing(ledger) && Above(ledger, cursor) != []
    ensures Above(ledger, Above(ledger, cursor)[0].runSeq) == Above(ledger, cursor)[1..]
  {
    var rest := ledger[1..];
    TailIsLater(ledger);
    hide Increasing;
    if ledger[0].runSeq > cursor {
      AboveAll(rest, cursor);
      AboveAll(rest, ledger[0].runSeq);
    } else {
      AboveAdvances(rest, cursor);
      AboveMembers(rest, cursor);
      assert Above(rest, cursor)[0] in Above(rest, cursor);
    }
  }

  // ---- the invariant

  /** A cursor is zero or the number of some event. */
  predicate Known(ledger: seq<Event>, cursor: nat) {
    cursor == 0 || exists e :: e in ledger && e.runSeq == cursor
  }

  lemma KnownIsBehind(ledger: seq<Event>, cursor: nat, e: Event)
    requires Known(ledger, cursor) && forall other :: other in ledger ==> other.runSeq < e.runSeq
    ensures Known(ledger + [e], cursor) && (e.runSeq > cursor || (e.runSeq == 0 && ledger == []))
  {
    if cursor != 0 {
      var other :| other in ledger && other.runSeq == cursor;
      assert other in ledger + [e];
    }
    if ledger != [] { assert ledger[0] in ledger; }
  }

  predicate Sound(w: World) {
    var p := w.process;
    var todo := Above(w.ledger, p.cursor);
    && Increasing(w.ledger)
    && p.batch <= todo
    && p.delivered + p.queue + todo == Above(w.ledger, p.start)
    && Known(w.ledger, p.start) && Known(w.ledger, p.cursor) && Known(w.ledger, w.persisted)
    && InHand(w)
    && (forall e :: e in w.ledger && 0 < e.runSeq <= w.persisted ==> e in w.handled)
    && (forall e :: e in w.handled ==> e in w.ledger && e.runSeq > 0)
  }

  /** Everything delivered before the event in hand is handled, and acknowledged exactly up to it. */
  predicate InHand(w: World) {
    var p := w.process;
    var n := |p.delivered|;
    var finished := if p.hand.Fetched? then n - 1 else n;
    && (!p.hand.Empty? ==> n > 0 && p.delivered[n - 1] == p.hand.event)
    && (forall i :: 0 <= i < finished ==> p.delivered[i] in w.handled)
    && w.persisted == Top(p.start, if p.hand.Empty? then p.delivered else p.delivered[..n - 1])
  }

  /** The newest sequence number of a delivery, or where the process started. */
  function Top(start: nat, events: seq<Event>): nat {
    if events == [] then start else events[|events| - 1].runSeq
  }

  lemma PutKeepsSound(w: World, room: nat)
    requires Sound(w) && Enabled(w, room, Put)
    ensures Sound(Next(w, room, Put))
  {
    var p := w.process;
    AboveAdvances(w.ledger, p.cursor);
    AboveMembers(w.ledger, p.cursor);
    var todo := Above(w.ledger, p.cursor);
    assert todo[0] == p.batch[0] && todo[0] in todo;
    assert p.delivered + (p.queue + [todo[0]]) + todo[1..] == p.delivered + p.queue + todo;
  }

  lemma GetKeepsSound(w: World, room: nat)
    requires Sound(w) && Enabled(w, room, Get)
    ensures Sound(Next(w, room, Get))
  {
    var p := w.process;
    var v := Next(w, room, Get);
    assert p.queue == [p.queue[0]] + p.queue[1..];
    assert v.process.delivered[..|p.delivered|] == p.delivered;
    assert v.process.delivered + v.process.queue == p.delivered + p.queue;
  }

  /** An increasing sequence has no event missing from a prefix that goes as far. */
  lemma PrefixHasNoGap(prefix: seq<Event>, all: seq<Event>, e: Event)
    requires Increasing(all) && prefix <= all && prefix != [] && e in all
    requires e.runSeq <= prefix[|prefix| - 1].runSeq
    ensures e in prefix
  {
    var k :| 0 <= k < |all| && all[k] == e;
    assert all[|prefix| - 1] == prefix[|prefix| - 1];
    assert k < |prefix| && prefix[k] == all[k];
  }

  /** Every event between the start and the last delivery was delivered. */
  lemma DeliveriesHaveNoGap(w: World, e: Event)
    requires Sound(w) && w.process.delivered != [] && e in w.ledger
    requires w.process.start < e.runSeq <= Top(w.process.start, w.process.delivered)
    ensures e in w.process.delivered
  {
    hide Above, Increasing, Known, InHand;
    var p := w.process;
    AboveIsIncreasing(w.ledger, p.start);
    AboveMembers(w.ledger, p.start);
    assert p.delivered <= p.delivered + p.queue + Above(w.ledger, p.cursor);
    PrefixHasNoGap(p.delivered, Above(w.ledger, p.start), e);
  }

  /** The event in hand is a ledger event newer than everything acknowledged. */
  lemma HandIsNewest(w: World)
    requires Sound(w) && !w.process.hand.Empty?
    ensures w.process.hand.event in w.ledger && w.process.hand.event.runSeq > w.persisted >= w.process.start
    ensures w.process.hand.event.runSeq == Top(w.process.start, w.process.delivered)
  {
    var p := w.process;
    var n := |p.delivered|;
    var all := Above(w.ledger, p.start);
    AboveMembers(w.ledger, p.start);
    AboveIsIncreasing(w.ledger, p.start);
    assert all[n - 1] == p.delivered[n - 1] && all[n - 1] in all;
    if n > 1 { assert all[n - 2] == p.delivered[n - 2] && all[n - 2] in all; }
  }

  lemma AcknowledgeKeepsSound(w: World, room: nat)
    requires Sound(w) && Enabled(w, room, Acknowledge)
    ensures Sound(Next(w, room, Acknowledge)) && Next(w, room, Acknowledge).persisted == w.process.hand.event.runSeq
  {
    hide Above, Increasing;
    HandIsNewest(w);
    var e := w.process.hand.event;
    forall other | other in w.ledger && 0 < other.runSeq <= e.runSeq ensures other in w.handled {
      if other.runSeq > w.persisted { DeliveriesHaveNoGap(w, other); }
    }
  }

  lemma AppendKeepsIncreasing(ledger: seq<Event>, e: Event)
    requires Increasing(ledger) && forall other :: other in ledger ==> other.runSeq < e.runSeq
    ensures Increasing(ledger + [e])
  {
    forall i, j | 0 <= i < j < |ledger + [e]| ensures (ledger + [e])[i].runSeq < (ledger + [e])[j].runSeq {
      if j == |ledger| { assert ledger[i] in ledger; }
    }
  }

  /** A new event is above every cursor, unless it is the very first one and numbered zero. */
  lemma AppendExtendsReplay(w: World, e: Event)
    requires Sound(w) && forall other :: other in w.ledger ==> other.runSeq < e.runSeq
    ensures var p := w.process;
            var more := if e.runSeq > 0 then [e] else [];
            && Above(w.ledger + [e], p.cursor) == Above(w.ledger, p.cursor) + more
            && Above(w.ledger + [e], p.start) == Above(w.ledger, p.start) + more
            && Known(w.ledger + [e], p.start) && Known(w.ledger + [e], p.cursor) && Known(w.ledger + [e], w.persisted)
            && (e.runSeq > w.persisted || e.runSeq == 0)
  {
    var p := w.process;
    AboveAppend(w.ledger, e, p.cursor);
    AboveAppend(w.ledger, e, p.start);
    KnownIsBehind(w.ledger, p.cursor, e);
    KnownIsBehind(w.ledger, p.start, e);
    KnownIsBehind(w.ledger, w.persisted, e);
  }

  lemma AppendKeepsSound(w: World, room: nat, e: Event)
    requires Sound(w) && Enabled(w, room, Append(e))
    ensures Sound(Next(w, room, Append(e)))
  {
    hide Known, Increasing, Above, InHand;
    AppendKeepsIncreasing(w.ledger, e);
    AppendExtendsReplay(w, e);
    AppendKeepsInHand(w, room, e);
    var p := w.process;
    Regrouped(p.delivered + p.queue, Above(w.ledger, p.cursor), if e.runSeq > 0 then [e] else []);
    OneMore(w.ledger, e);
  }

  lemma AppendKeepsInHand(w: World, room: nat, e: Event)
    requires InHand(w) && Enabled(w, room, Append(e))
    ensures InHand(Next(w, room, Append(e)))
  {
  }

  lemma Regrouped(a: seq<Event>, b: seq<Event>, c: seq<Event>)
    ensures a + (b + c) == (a + b) + c
  {
  }

  lemma OneMore(ledger: seq<Event>, e: Event)
    ensures forall x :: x in ledger + [e] <==> x in ledger || x == e
  {
  }

  lemma StepKeepsSound(w: World, room: nat, s: Step)
    requires Sound(w) && Enabled(w, room, s)
    ensures Sound(Next(w, room, s)) && Next(w, room, s).persisted >= w.persisted
  {
    match s
    case Append(e) => AppendKeepsSound(w, room, e);
    case Poll =>
    case Put => PutKeepsSound(w, room);
    case Get => GetKeepsSound(w, room);
    case Handle => HandleKeepsSound(w, room);
    case Acknowledge => AcknowledgeKeepsSound(w, room);
    case Restart =>
  }

  lemma HandleKeepsSound(w: World, room: nat)
    requires Sound(w) && Enabled(w, room, Handle)
    ensures Sound(Next(w, room, Handle))
  {
    hide Known, Increasing, Above;
    var p := w.process;
    HandIsNewest(w);
  }

  lemma {:induction false} RunsKeepSound(w: World, room: nat, steps: seq<Step>)
    requires Sound(w)
    ensures Sound(After(w, room, steps)) && After(w, room, steps).persisted >= w.persisted
    decreases |steps|
  {
    if steps != [] && Enabled(w, room, steps[0]) {
      StepKeepsSound(w, room, steps[0]);
      RunsKeepSound(Next(w, room, steps[0]), room, steps[1..]);
    } else if steps != [] {
      RunsKeepSound(w, room, steps[1..]);
    }
  }

  // ---- the main results

  /** One process delivers the events above its start cursor in order, with no gap and no duplicate. */
  lemma DeliveryIsInOrder(ledger: seq<Event>, room: nat, steps: seq<Step>)
    requires Increasing(ledger)
    ensures var w := After(Initial(ledger), room, steps);
            && w.process.delivered <= Above(w.ledger, w.process.start)
            && Increasing(w.process.delivered)
            && (forall e :: e in Above(w.ledger, w.process.start) <==> e in w.ledger && e.runSeq > w.process.start)
  {
    var w := After(Initial(ledger), room, steps);
    InitialIsSound(ledger);
    RunsKeepSound(Initial(ledger), room, steps);
    AboveMembers(w.ledger, w.process.start);
    AboveIsIncreasing(w.ledger, w.process.start);
  }

  lemma InitialIsSound(ledger: seq<Event>)
    requires Increasing(ledger)
    ensures Sound(Initial(ledger))
  {
  }

  /** The persisted cursor never goes back, and every event at or below it was handled. */
  lemma CursorOnlyCoversHandled(ledger: seq<Event>, room: nat, steps: seq<Step>, more: seq<Step>)
    requires Increasing(ledger)
    ensures var w := After(Initial(ledger), room, steps);
            && (forall e :: e in w.ledger && 0 < e.runSeq <= w.persisted ==> e in w.handled)
            && w.persisted <= After(w, room, more).persisted
  {
    InitialIsSound(ledger);
    RunsKeepSound(Initial(ledger), room, steps);
    RunsKeepSound(After(Initial(ledger), room, steps), room, more);
  }

  /** Move one event from the batch through the queue to the consumer, handle it and acknowledge it. */
  const ROUND := [Put, Get, Handle, Acknowledge]

  function Rounds(n: nat): seq<Step> {
    if n == 0 then [] else ROUND + Rounds(n - 1)
  }

  /** The world one round later. */
  function Rounded(w: World): World
    requires w.process.batch != []
  {
    var p := w.process;
    var e := p.batch[0];
    w.(persisted := Max(w.persisted, e.runSeq), handled := w.handled + [e],
       process := p.(batch := p.batch[1..], cursor := e.runSeq, delivered := p.delivered + [e]))
  }

  lemma OneRound(w: World, room: nat, rest: seq<Step>)
    requires room > 0 && w.process.batch != [] && w.process.queue == [] && w.process.hand.Empty?
    ensures After(w, room, ROUND + rest) == After(Rounded(w), room, rest)
  {
    var p := w.process;
    var a := Next(w, room, Put);
    assert a.process.queue == [p.batch[0]];
    var b := Next(a, room, Get);
    assert b.process.queue == [];
    var c := Next(b, room, Handle);
    assert (ROUND + rest)[1..] == [Get, Handle, Acknowledge] + rest;
    assert ([Get, Handle, Acknowledge] + rest)[1..] == [Handle, Acknowledge] + rest;
    assert ([Handle, Acknowledge] + rest)[1..] == [Acknowledge] + rest;
    assert ([Acknowledge] + rest)[1..] == rest;
    assert After(b, room, [Handle, Acknowledge] + rest) == After(c, room, [Acknowledge] + rest);
  }

  lemma {:induction false} BatchDrains(w: World, room: nat)
    requires room > 0 && w.process.queue == [] && w.process.hand.Empty?
    ensures var v := After(w, room, Rounds(|w.process.batch|));
            && v.process.delivered == w.process.delivered + w.process.batch
            && v.handled == w.handled + w.process.batch
            && v.ledger == w.ledger
    decreases |w.process.batch|
  {
    hide Enabled, Next;
    var batch := w.process.batch;
    if batch != [] {
      OneRound(w, room, Rounds(|batch| - 1));
      BatchDrains(Rounded(w), room);
      assert batch == [batch[0]] + batch[1..];
    }
  }

  lemma RestartThenDrain(w: World, room: nat)
    requires room > 0
    ensures var todo := Above(w.ledger, w.persisted);
            var v := After(w, room, [Restart, Poll] + Rounds(|todo|));
            v.ledger == w.ledger && v.process.delivered == todo && v.handled == w.handled + todo
  {
    var rounds := Rounds(|Above(w.ledger, w.persisted)|);
    var restarted := Next(w, room, Restart);
    var polled := Next(restarted, room, Poll);
    assert ([Restart, Poll] + rounds)[1..] == [Poll] + rounds;
    assert ([Poll] + rounds)[1..] == rounds;
    assert After(w, room, [Restart, Poll] + rounds) == After(restarted, room, [Poll] + rounds);
    assert After(restarted, room, [Poll] + rounds) == After(polled, room, rounds);
    BatchDrains(polled, room);
  }

  /**
   Whatever happened before, a restart loses nothing: running the tailer and the consumer from there
   delivers exactly the events above the persisted cursor, and then exactly the events with a positive
   number are handled.
   */
  lemma RestartDeliversTheRest(ledger: seq<Event>, room: nat, steps: seq<Step>)
    requires Increasing(ledger) && room > 0
    ensures var w := After(Initial(ledger), room, steps);
            var v := After(w, room, [Restart, Poll] + Rounds(|Above(w.ledger, w.persisted)|));
            && v.ledger == w.ledger
            && v.process.delivered == Above(w.ledger, w.persisted)
            && (forall e :: e in v.process.delivered <==> e in w.ledger && e.runSeq > w.persisted)
            && (forall e :: e in w.ledger ==> (e in v.handled <==> e.runSeq > 0))
  {
    hide After, Known, InHand;
    var w := After(Initial(ledger), room, steps);
    InitialIsSound(ledger);
    RunsKeepSound(Initial(ledger), room, steps);
    RestartThenDrain(w, room);
    AboveMembers(w.ledger, w.persisted);
  }

  // ---- several puts in a row

  function Puts(n: nat): seq<Step> {
    if n == 0 then [] else [Put] + Puts(n - 1)
  }

  function AfterPuts(p: Process, n: nat): Process
    requires n <= |p.batch|
  {
    p.(batch := p.batch[n..], queue := p.queue + p.batch[..n],
       cursor := if n == 0 then p.cursor else p.batch[n - 1].runSeq)
  }

  /** With room for them, n puts move the first n events of the batch, and the cursor to the last of them. */
  lemma {:induction false} PutsMoveAPrefix(w: World, room: nat, n: nat)
    requires n <= |w.process.batch| && |w.process.queue| + n <= room
    ensures After(w, room, Puts(n)) == w.(process := AfterPuts(w.process, n))
    decreases n
  {
    if n > 0 {
      hide After, AfterPuts;
      PutsFirst(w, room, n);
      PutsMoveAPrefix(Next(w, room, Put), room, n - 1);
      OnePutAhead(w.process, n);
    } else {
      assert w.process.queue + w.process.batch[..0] == w.process.queue;
    }
  }

  lemma PutsFirst(w: World, room: nat, n: nat)
    requires n > 0 && Enabled(w, room, Put)
    ensures After(w, room, Puts(n)) == After(Next(w, room, Put), room, Puts(n - 1))
  {
    assert Puts(n)[1..] == Puts(n - 1);
  }

  lemma OnePutAhead(p: Process, n: nat)
    requires 0 < n <= |p.batch|
    ensures var moved := p.(batch := p.batch[1..], queue := p.queue + [p.batch[0]], cursor := p.batch[0].runSeq);
            AfterPuts(moved, n - 1) == AfterPuts(p, n)
  {
    assert p.batch[1..][..n - 1] == p.batch[1..n];
    assert p.queue + [p.batch[0]] + p.batch[1..n] == p.queue + p.batch[..n];
  }
}
