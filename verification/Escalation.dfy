/**
 Run-scoped creation of one needs-human issue, as a protocol of processes that may crash between any
 two durable actions. `title` is the escalation title of an identity; module EscalationTitles shows that
 distinct identities have distinct titles.
 */
module Escalation {
  import opened Prelude

  /** A word of the closed cause vocabulary; none of them contains a colon. */
  type CauseWord = w: string | ':' !in w witness "stall_detected"

  /** The full durable identity of one escalation. */
  datatype Identity = Identity(run: string, slice: string, attempt: nat, cause: CauseWord)

  /** The publication an attempt had when it escalated. */
  datatype Provenance = Provenance(prNumber: Option<int>, headSha: Option<string>)

  /** The escalation title of an identity, and the runs whose escalations are considered: finitely many. */
  datatype Titles = Titles(of: Identity -> string, runs: set<string>)

  predicate Known(title: Titles, key: Identity) {
    key.run in title.runs
  }

  /** The intent file of one identity, written whole. */
  datatype Intent = Intent(identity: Identity, title: string, provenance: Provenance, issue: Option<int>)

  /** Where a process is; every place but `Outside` is inside the lock of its identity. */
  datatype Place =
    | Outside
    | Inspect(key: Identity, provenance: Provenance)
    | Look(key: Identity, provenance: Provenance, seen: Option<Intent>)
    | Reconcile(key: Identity, provenance: Provenance, issue: int)
    | Request(key: Identity, provenance: Provenance)
    | Create(key: Identity, provenance: Provenance)
    | Record(key: Identity, provenance: Provenance, issue: int)

  datatype Return = Return(key: Identity, provenance: Provenance, issue: int)

  /** Durable intents, remote issues by id, process places, and every value returned so far. */
  datatype World = World(
    intents: map<Identity, Intent>, remote: map<int, string>, places: map<nat, Place>, returned: seq<Return>)

  datatype Step =
    | Begin(p: nat, key: Identity, provenance: Provenance)
    | Inspected(p: nat)
    | Looked(p: nat, found: Option<int>)
    | Reconciled(p: nat)
    | Requested(p: nat)
    | Created(p: nat, newId: int)
    | CreatedButLost(p: nat, newId: int)
    | Recorded(p: nat)
    | Raised(p: nat)
    | OtherIssue(newId: int, other: string)

  function At(w: World, p: nat): Place {
    if p in w.places then w.places[p] else Outside
  }

  predicate Holds(w: World, p: nat, key: Identity) {
    !At(w, p).Outside? && At(w, p).key == key
  }

  function Go(w: World, p: nat, place: Place): World {
    w.(places := w.places[p := place])
  }

  function Give(w: World, p: nat, issue: int): World
    requires !At(w, p).Outside?
  {
    Go(w, p, Outside).(returned := w.returned + [Return(At(w, p).key, At(w, p).provenance, issue)])
  }

  function Write(w: World, title: Titles, place: Place, issue: Option<int>): World
    requires !place.Outside?
  {
    w.(intents := w.intents[place.key := Intent(place.key, title.of(place.key), place.provenance, issue)])
  }

  /** The listing covers open and closed issues and is complete when it succeeds. */
  ghost predicate CompleteListing(w: World, title: Titles, key: Identity, found: Option<int>) {
    match found
    case Some(i) => i in w.remote && w.remote[i] == title.of(key)
    case None => forall i :: i in w.remote ==> w.remote[i] != title.of(key)
  }

  ghost predicate Enabled(w: World, title: Titles, s: Step) {
    match s
    case Begin(p, key, _) =>
      At(w, p).Outside? && Known(title, key) && forall q :: q in w.places ==> !Holds(w, q, key)
    case Inspected(p) => At(w, p).Inspect?
    case Looked(p, found) => At(w, p).Look? && CompleteListing(w, title, At(w, p).key, found)
    case Reconciled(p) => At(w, p).Reconcile?
    case Requested(p) => At(w, p).Request?
    case Created(p, newId) => At(w, p).Create? && newId > 0 && newId !in w.remote
    case CreatedButLost(p, newId) => At(w, p).Create? && newId > 0 && newId !in w.remote
    case Recorded(p) => At(w, p).Record?
    case Raised(p) => !At(w, p).Outside?
    case OtherIssue(newId, other) => newId !in w.remote && forall k :: Known(title, k) ==> title.of(k) != other
  }

  /** Reading the intent: a recorded issue is returned or refused, anything unproven is refused. */
  function AfterInspection(w: World, title: Titles, p: nat): World
    requires At(w, p).Inspect?
  {
    var here := At(w, p);
    if here.key !in w.intents then Go(w, p, Look(here.key, here.provenance, None))
    else
      var intent := w.intents[here.key];
      if intent.title != title.of(here.key) || intent.identity != here.key then Go(w, p, Outside)
      else if intent.issue.None? then Go(w, p, Look(here.key, here.provenance, Some(intent)))
      else if intent.provenance == here.provenance then Give(w, p, intent.issue.value)
      else Go(w, p, Outside)
  }

  /** A listed issue is adopted only when the earlier intent proves the same publication. */
  function AfterListing(w: World, p: nat, found: Option<int>): World
    requires At(w, p).Look?
  {
    var here := At(w, p);
    match found
    case None => Go(w, p, Request(here.key, here.provenance))
    case Some(i) =>
      if here.seen.Some? && here.seen.value.provenance == here.provenance
      then Go(w, p, Reconcile(here.key, here.provenance, i))
      else Go(w, p, Outside)
  }

  ghost function Apply(w: World, title: Titles, s: Step): World
    requires Enabled(w, title, s)
  {
    match s
    case Begin(p, key, provenance) => Go(w, p, Inspect(key, provenance))
    case Inspected(p) => AfterInspection(w, title, p)
    case Looked(p, found) => AfterListing(w, p, found)
    case Reconciled(p) => Give(Write(w, title, At(w, p), Some(At(w, p).issue)), p, At(w, p).issue)
    case Requested(p) =>
      Go(Write(w, title, At(w, p), None), p, Create(At(w, p).key, At(w, p).provenance))
    case Created(p, newId) =>
      Go(w, p, Record(At(w, p).key, At(w, p).provenance, newId)).(remote := w.remote[newId := title.of(At(w, p).key)])
    case CreatedButLost(p, newId) => Go(w, p, Outside).(remote := w.remote[newId := title.of(At(w, p).key)])
    case Recorded(p) => Give(Write(w, title, At(w, p), Some(At(w, p).issue)), p, At(w, p).issue)
    case Raised(p) => Go(w, p, Outside)
    case OtherIssue(newId, other) => w.(remote := w.remote[newId := other])
  }

  // ---- runs

  const NOTHING_YET := World(map[], map[], map[], [])

  ghost function After(title: Titles, steps: seq<Step>): World {
    if steps == [] then NOTHING_YET
    else
      var w := After(title, steps[..|steps| - 1]);
      var s := steps[|steps| - 1];
      if Enabled(w, title, s) then Apply(w, title, s) else w
  }

  ghost predicate Distinct(title: Titles) {
    forall a, b :: Known(title, a) && Known(title, b) && title.of(a) == title.of(b) ==> a == b
  }

  // ---- the invariant

  /** At most one remote issue carries the title. */
  ghost predicate OneIssue(w: World, t: string) {
    forall i, j :: i in w.remote && j in w.remote && w.remote[i] == t && w.remote[j] == t ==> i == j
  }

  ghost predicate NoIssue(w: World, t: string) {
    forall i :: i in w.remote ==> w.remote[i] != t
  }

  ghost predicate IsIssue(w: World, t: string, i: int) {
    i in w.remote && w.remote[i] == t
  }

  /** What a place promises about the durable state of its identity. */
  ghost predicate PlaceSound(w: World, title: Titles, here: Place) {
    (!here.Outside? ==> Known(title, here.key))
    && match here
    case Outside => true
    case Inspect(_, _) => true
    case Look(key, _, seen) =>
      && (seen == if key in w.intents then Some(w.intents[key]) else None)
      && (seen.Some? ==> seen.value.issue.None?)
    case Reconcile(key, _, i) => IsIssue(w, title.of(key), i)
    case Request(key, _) => NoIssue(w, title.of(key))
    case Create(key, _) => NoIssue(w, title.of(key)) && key in w.intents && w.intents[key].issue.None?
    case Record(key, _, i) => IsIssue(w, title.of(key), i)
  }

  /** One lock holder per identity. */
  ghost predicate Locked(w: World) {
    forall p, q, key :: p in w.places && q in w.places && Holds(w, p, key) && Holds(w, q, key) ==> p == q
  }

  predicate IntentSound(w: World, title: Titles, k: Identity)
    requires k in w.intents
  {
    && Known(title, k) && w.intents[k].identity == k && w.intents[k].title == title.of(k)
    && (w.intents[k].issue.Some? ==>
          w.intents[k].issue.value in w.remote && w.remote[w.intents[k].issue.value] == title.of(k))
  }

  ghost predicate IntentsSound(w: World, title: Titles) {
    forall k :: k in w.intents ==> IntentSound(w, title, k)
  }

  ghost predicate Sound(w: World, title: Titles) {
    && Locked(w)
    && (forall p :: p in w.places ==> PlaceSound(w, title, w.places[p]))
    && IntentsSound(w, title)
    && (forall k :: Known(title, k) ==> OneIssue(w, title.of(k)))
    && (forall k, i :: Known(title, k) && IsIssue(w, title.of(k), i) ==> k in w.intents)
    && (forall r :: r in w.returned ==> Known(title, r.key) && IsIssue(w, title.of(r.key), r.issue))
  }

  /** Two processes inside their locks hold them for different identities. */
  lemma KeysApart(w: World, p: nat, q: nat)
    requires Locked(w) && p in w.places && q in w.places && p != q
    requires !w.places[p].Outside? && !w.places[q].Outside?
    ensures w.places[p].key != w.places[q].key
  {
    assert Holds(w, p, w.places[p].key);
    assert Holds(w, q, w.places[q].key);
  }

  /** A step outside the lock of an identity leaves its intent alone, and adds no issue under its title. */
  lemma OtherIdentityKept(w: World, title: Titles, s: Step, key: Identity)
    requires Distinct(title) && Enabled(w, title, s) && Known(title, key)
    requires s.OtherIssue? || At(w, s.p).Outside? || (Known(title, At(w, s.p).key) && At(w, s.p).key != key)
    ensures var v := Apply(w, title, s);
            && (key in v.intents <==> key in w.intents) && (key in w.intents ==> v.intents[key] == w.intents[key])
            && (forall i :: i in w.remote ==> i in v.remote && v.remote[i] == w.remote[i])
            && (NoIssue(w, title.of(key)) ==> NoIssue(v, title.of(key)))
  {
  }

  /** A step inside the lock of one identity, or outside any lock, keeps what the other places promise. */
  lemma OtherPlacesKeep(w: World, title: Titles, s: Step, q: nat)
    requires Sound(w, title) && Distinct(title) && Enabled(w, title, s)
    requires q in w.places && (s.OtherIssue? || q != s.p)
    ensures PlaceSound(Apply(w, title, s), title, w.places[q])
  {
    var here := w.places[q];
    if !here.Outside? {
      if !s.OtherIssue? && !At(w, s.p).Outside? { KeysApart(w, s.p, q); }
      OtherIdentityKept(w, title, s, here.key);
    }
    hide OneIssue, IntentsSound, Locked, Apply, Enabled, Distinct, NoIssue;
  }

  /** Steps that read only. */
  lemma ReadingKeepsPlace(w: World, title: Titles, s: Step)
    requires Sound(w, title) && Distinct(title) && Enabled(w, title, s) && (s.Begin? || s.Inspected? || s.Looked?)
    ensures s.p in Apply(w, title, s).places
    ensures PlaceSound(Apply(w, title, s), title, Apply(w, title, s).places[s.p])
  {
    hide OneIssue, Locked, Distinct;
  }

  /** Steps that write, and those that leave the lock. */
  lemma WritingKeepsPlace(w: World, title: Titles, s: Step)
    requires Sound(w, title) && Distinct(title) && Enabled(w, title, s)
    requires !s.OtherIssue? && !s.Begin? && !s.Inspected? && !s.Looked?
    ensures s.p in Apply(w, title, s).places
    ensures PlaceSound(Apply(w, title, s), title, Apply(w, title, s).places[s.p])
  {
    hide OneIssue, Locked, Distinct, IntentsSound;
  }

  lemma OwnPlaceKeeps(w: World, title: Titles, s: Step)
    requires Sound(w, title) && Distinct(title) && Enabled(w, title, s) && !s.OtherIssue?
    ensures s.p in Apply(w, title, s).places
    ensures PlaceSound(Apply(w, title, s), title, Apply(w, title, s).places[s.p])
  {
    hide *;
    if s.Begin? || s.Inspected? || s.Looked? {
      ReadingKeepsPlace(w, title, s);
    } else {
      WritingKeepsPlace(w, title, s);
    }
  }

  /** Only the process that begins acquires a lock. */
  lemma StillHolds(w: World, title: Titles, s: Step, p: nat, key: Identity)
    requires Enabled(w, title, s) && p in Apply(w, title, s).places && Holds(Apply(w, title, s), p, key)
    ensures (p in w.places && Holds(w, p, key)) || (s.Begin? && s.p == p && s.key == key)
  {
  }

  lemma LocksKeep(w: World, title: Titles, s: Step)
    requires Sound(w, title) && Enabled(w, title, s)
    ensures Locked(Apply(w, title, s))
  {
    var v := Apply(w, title, s);
    forall p, q, key | p in v.places && q in v.places && Holds(v, p, key) && Holds(v, q, key) ensures p == q {
      StillHolds(w, title, s, p, key);
      StillHolds(w, title, s, q, key);
    }
  }

  /** An issue with an escalation title was there before, or was created by the lock holder of that identity. */
  lemma IssueOrigin(w: World, title: Titles, s: Step, k: Identity, i: int)
    requires Sound(w, title) && Distinct(title) && Enabled(w, title, s) && Known(title, k)
    requires IsIssue(Apply(w, title, s), title.of(k), i)
    ensures IsIssue(w, title.of(k), i)
         || ((s.Created? || s.CreatedButLost?) && i == s.newId && At(w, s.p) == Create(k, At(w, s.p).provenance)
             && NoIssue(w, title.of(k)))
  {
    if !IsIssue(w, title.of(k), i) && !s.OtherIssue? {
      assert PlaceSound(w, title, w.places[s.p]);
      assert title.of(At(w, s.p).key) == title.of(k);
    }
  }

  lemma IssuesKeep(w: World, title: Titles, s: Step)
    requires Sound(w, title) && Distinct(title) && Enabled(w, title, s)
    ensures var v := Apply(w, title, s);
            && (forall k :: Known(title, k) ==> OneIssue(v, title.of(k)))
            && (forall k, i :: Known(title, k) && IsIssue(v, title.of(k), i) ==> k in v.intents)
  {
    var v := Apply(w, title, s);
    forall k, i | Known(title, k) && IsIssue(v, title.of(k), i) ensures k in v.intents {
      IssueOrigin(w, title, s, k, i);
      if !IsIssue(w, title.of(k), i) { assert PlaceSound(w, title, w.places[s.p]); }
    }
    forall k | Known(title, k) ensures OneIssue(v, title.of(k)) {
      assert OneIssue(w, title.of(k));
      forall i, j | IsIssue(v, title.of(k), i) && IsIssue(v, title.of(k), j) ensures i == j {
        IssueOrigin(w, title, s, k, i);
        IssueOrigin(w, title, s, k, j);
      }
    }
  }

  lemma IntentKeeps(w: World, title: Titles, s: Step, k: Identity)
    requires Enabled(w, title, s) && k in Apply(w, title, s).intents
    requires k in w.intents ==> IntentSound(w, title, k)
    requires !s.OtherIssue? && s.p in w.places ==> PlaceSound(w, title, w.places[s.p])
    ensures IntentSound(Apply(w, title, s), title, k)
  {
  }

  lemma IntentsKeep(w: World, title: Titles, s: Step)
    requires Sound(w, title) && Distinct(title) && Enabled(w, title, s)
    ensures IntentsSound(Apply(w, title, s), title)
  {
    hide OneIssue, Locked, NoIssue, Enabled, Apply;
    forall k | k in Apply(w, title, s).intents ensures IntentSound(Apply(w, title, s), title, k) {
      IntentKeeps(w, title, s, k);
    }
  }

  lemma ReturnsKeep(w: World, title: Titles, s: Step)
    requires Sound(w, title) && Distinct(title) && Enabled(w, title, s)
    ensures forall r :: r in Apply(w, title, s).returned ==>
              Known(title, r.key) && IsIssue(Apply(w, title, s), title.of(r.key), r.issue)
  {
    hide OneIssue, Locked;
    if s.Reconciled? || s.Recorded? { assert PlaceSound(w, title, w.places[s.p]); }
  }

  lemma EveryPlaceKeeps(w: World, title: Titles, s: Step, p: nat)
    requires Sound(w, title) && Distinct(title) && Enabled(w, title, s) && p in Apply(w, title, s).places
    ensures PlaceSound(Apply(w, title, s), title, Apply(w, title, s).places[p])
  {
    if !s.OtherIssue? && p == s.p {
      OwnPlaceKeeps(w, title, s);
    } else {
      OtherPlacesKeep(w, title, s, p);
      hide PlaceSound, Sound;
    }
  }

  lemma StepKeepsSound(w: World, title: Titles, s: Step)
    requires Sound(w, title) && Distinct(title) && Enabled(w, title, s)
    ensures Sound(Apply(w, title, s), title)
  {
    hide Apply, Enabled, Distinct, Locked, OneIssue, IntentsSound, PlaceSound, IsIssue;
    var v := Apply(w, title, s);
    LocksKeep(w, title, s);
    IssuesKeep(w, title, s);
    IntentsKeep(w, title, s);
    ReturnsKeep(w, title, s);
    forall p | p in v.places ensures PlaceSound(v, title, v.places[p]) {
      EveryPlaceKeeps(w, title, s, p);
    }
  }

  lemma {:induction false} RunsAreSound(title: Titles, steps: seq<Step>)
    requires Distinct(title)
    ensures Sound(After(title, steps), title)
  {
    if steps != [] {
      var w := After(title, steps[..|steps| - 1]);
      RunsAreSound(title, steps[..|steps| - 1]);
      if Enabled(w, title, steps[|steps| - 1]) { StepKeepsSound(w, title, steps[|steps| - 1]); }
    }
  }

  // ---- the main results

  /** However processes interleave, crash and lose answers: one escalation title never has two remote issues. */
  lemma AtMostOneIssuePerTitle(title: Titles, steps: seq<Step>, key: Identity, i: int, j: int)
    requires Distinct(title) && Known(title, key)
    requires IsIssue(After(title, steps), title.of(key), i) && IsIssue(After(title, steps), title.of(key), j)
    ensures i == j
  {
    RunsAreSound(title, steps);
    assert OneIssue(After(title, steps), title.of(key));
  }

  /** Two successful returns for one identity give the same issue, whatever publication each call had. */
  lemma ReturnsAgree(title: Titles, steps: seq<Step>, a: Return, b: Return)
    requires Distinct(title) && a in After(title, steps).returned && b in After(title, steps).returned
    requires a.key == b.key
    ensures a.issue == b.issue && IsIssue(After(title, steps), title.of(a.key), a.issue)
  {
    RunsAreSound(title, steps);
    AtMostOneIssuePerTitle(title, steps, a.key, a.issue, b.issue);
  }

  // ---- one uninterrupted call

  /** What a complete listing answers. */
  ghost function Listed(w: World, t: string): (r: Option<int>)
    ensures match r case Some(i) => IsIssue(w, t, i) case None => NoIssue(w, t)
  {
    if i :| i in w.remote && w.remote[i] == t then Some(i) else None
  }

  /** The next action of a process that neither crashes nor is answered with an error. */
  ghost function Own(w: World, title: Titles, p: nat, newId: int): Step
    requires !At(w, p).Outside?
  {
    match At(w, p)
    case Inspect(_, _) => Inspected(p)
    case Look(key, _, _) => Looked(p, Listed(w, title.of(key)))
    case Reconcile(_, _, _) => Reconciled(p)
    case Request(_, _) => Requested(p)
    case Create(_, _) => Created(p, newId)
    case Record(_, _, _) => Recorded(p)
  }

  /** The process runs on by itself for up to n actions, until it leaves the lock. */
  ghost function Drive(w: World, title: Titles, p: nat, newId: int, n: nat): World
    decreases n
  {
    if n == 0 || At(w, p).Outside? || !Enabled(w, title, Own(w, title, p, newId)) then w
    else Drive(Apply(w, title, Own(w, title, p, newId)), title, p, newId, n - 1)
  }

  /** Nothing listed: the intent is written, the issue created, recorded and returned. */
  lemma RequestSucceeds(w: World, title: Titles, p: nat, newId: int)
    requires At(w, p).Request? && newId > 0 && newId !in w.remote
    ensures var v := Drive(w, title, p, newId, 3);
            At(v, p).Outside? && v.returned == w.returned + [Return(At(w, p).key, At(w, p).provenance, newId)]
  {
    var requested := Apply(w, title, Requested(p));
    var created := Apply(requested, title, Created(p, newId));
    assert Drive(created, title, p, newId, 1) == Drive(Apply(created, title, Recorded(p)), title, p, newId, 0);
    assert Drive(requested, title, p, newId, 2) == Drive(created, title, p, newId, 1);
    assert Drive(w, title, p, newId, 3) == Drive(requested, title, p, newId, 2);
  }

  lemma LookSucceedsIff(w: World, title: Titles, p: nat, newId: int)
    requires At(w, p).Look? && newId > 0 && newId !in w.remote
    ensures var v := Drive(w, title, p, newId, 4);
            var here := At(w, p);
            && At(v, p).Outside?
            && (|v.returned| == |w.returned| + 1 <==>
                  NoIssue(w, title.of(here.key)) || (here.seen.Some? && here.seen.value.provenance == here.provenance))
            && (|v.returned| != |w.returned| + 1 ==> v.returned == w.returned)
  {
    var here := At(w, p);
    var found := Listed(w, title.of(here.key));
    var looked := Apply(w, title, Looked(p, found));
    assert Drive(w, title, p, newId, 4) == Drive(looked, title, p, newId, 3);
    if found.None? {
      assert forall i :: i in w.remote ==> !IsIssue(w, title.of(here.key), i);
      RequestSucceeds(looked, title, p, newId);
    } else if At(looked, p).Reconcile? {
      assert Drive(looked, title, p, newId, 3) == Drive(Apply(looked, title, Reconciled(p)), title, p, newId, 2);
    }
  }

  /**
   An uninterrupted call returns an issue exactly when no intent is on file yet, or the intent proves this
   very publication, or the intent records no issue and the listing finds none. Otherwise it refuses, and
   in no case is a second issue created.
   */
  lemma CallSucceedsIff(w: World, title: Titles, p: nat, key: Identity, provenance: Provenance, newId: int)
    requires Sound(w, title) && Distinct(title) && Enabled(w, title, Begin(p, key, provenance))
    requires newId > 0 && newId !in w.remote
    ensures var v := Drive(Apply(w, title, Begin(p, key, provenance)), title, p, newId, 5);
            && At(v, p).Outside?
            && (|v.returned| == |w.returned| + 1 <==>
                  || key !in w.intents
                  || w.intents[key].provenance == provenance
                  || (w.intents[key].issue.None? && NoIssue(w, title.of(key))))
            && (|v.returned| != |w.returned| + 1 ==> v.returned == w.returned)
  {
    var begun := Apply(w, title, Begin(p, key, provenance));
    var inspected := Apply(begun, title, Inspected(p));
    assert Drive(begun, title, p, newId, 5) == Drive(inspected, title, p, newId, 4);
    if key !in w.intents {
      assert forall i :: i in w.remote ==> !IsIssue(w, title.of(key), i);
    }
    if At(inspected, p).Look? { LookSucceedsIff(inspected, title, p, newId); }
  }
}
