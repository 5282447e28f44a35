/** Retries: a call for the same escalation and publication gets the issue that was created for it, crash or not. */
module EscalationRetries {
  import opened Prelude
  import opened Escalation

  // ---- what the lock holder knows of its own intent

  /** The intent of this identity was written for this publication, and has no issue yet. */
  predicate Requested(w: World, key: Identity, provenance: Provenance) {
    key in w.intents && w.intents[key].provenance == provenance && w.intents[key].issue.None?
  }

  /** Past the inspection no issue is recorded yet; past the request, the intent is the one of this publication. */
  predicate PlaceFresh(w: World, here: Place) {
    match here
    case Outside => true
    case Inspect(_, _) => true
    case Look(key, _, _) => key in w.intents ==> w.intents[key].issue.None?
    case Reconcile(key, provenance, _) => Requested(w, key, provenance)
    case Request(key, _) => key in w.intents ==> w.intents[key].issue.None?
    case Create(key, provenance) => Requested(w, key, provenance)
    case Record(key, provenance, _) => Requested(w, key, provenance)
  }

  ghost predicate Fresh(w: World) {
    forall p :: p in w.places ==> PlaceFresh(w, w.places[p])
  }

  lemma OwnPlaceStaysFresh(w: World, title: Titles, s: Step)
    requires Sound(w, title) && Enabled(w, title, s) && !s.OtherIssue?
    requires s.p in w.places ==> PlaceFresh(w, w.places[s.p])
    ensures s.p in Apply(w, title, s).places && PlaceFresh(Apply(w, title, s), Apply(w, title, s).places[s.p])
  {
    if s.p in w.places { assert PlaceSound(w, title, w.places[s.p]); }
    hide Sound, OneIssue, NoIssue, CompleteListing;
  }

  lemma OtherPlaceStaysFresh(w: World, title: Titles, s: Step, q: nat)
    requires Sound(w, title) && Distinct(title) && Enabled(w, title, s)
    requires q in w.places && PlaceFresh(w, w.places[q]) && (s.OtherIssue? || q != s.p)
    ensures PlaceFresh(Apply(w, title, s), w.places[q])
  {
    var here := w.places[q];
    if !here.Outside? {
      assert PlaceSound(w, title, here);
      if !s.OtherIssue? && !At(w, s.p).Outside? {
        assert PlaceSound(w, title, w.places[s.p]);
        KeysApart(w, s.p, q);
      }
      OtherIdentityKept(w, title, s, here.key);
    }
    hide Sound, Apply, Enabled, Distinct, NoIssue;
  }

  lemma PlacesAfter(w: World, title: Titles, s: Step, q: nat)
    requires Enabled(w, title, s) && q in Apply(w, title, s).places && (s.OtherIssue? || q != s.p)
    ensures q in w.places && Apply(w, title, s).places[q] == w.places[q]
  {
  }

  lemma StepKeepsFresh(w: World, title: Titles, s: Step)
    requires Sound(w, title) && Distinct(title) && Enabled(w, title, s) && Fresh(w)
    ensures Fresh(Apply(w, title, s))
  {
    hide Sound, Distinct, Enabled, Apply, PlaceFresh;
    var v := Apply(w, title, s);
    forall q | q in v.places ensures PlaceFresh(v, v.places[q]) {
      if !s.OtherIssue? && q == s.p {
        OwnPlaceStaysFresh(w, title, s);
      } else {
        PlacesAfter(w, title, s, q);
        OtherPlaceStaysFresh(w, title, s, q);
      }
    }
  }

  // ---- an issue that belongs to a publication

  /** The issue exists under the title, and the intent names the publication, with this issue or with none yet. */
  ghost predicate Belongs(w: World, title: Titles, key: Identity, provenance: Provenance, i: int) {
    && Known(title, key) && IsIssue(w, title.of(key), i)
    && key in w.intents && w.intents[key].provenance == provenance
    && (w.intents[key].issue.None? || w.intents[key].issue == Some(i))
  }

  /** The steps of the lock holder of that very identity. */
  lemma OwnStepKeepsBelonging(w: World, title: Titles, s: Step, provenance: Provenance, i: int)
    requires Sound(w, title) && Distinct(title) && Enabled(w, title, s) && Fresh(w)
    requires !s.OtherIssue? && !At(w, s.p).Outside? && Belongs(w, title, At(w, s.p).key, provenance, i)
    ensures Belongs(Apply(w, title, s), title, At(w, s.p).key, provenance, i)
  {
    var key := At(w, s.p).key;
    assert PlaceSound(w, title, w.places[s.p]) && PlaceFresh(w, w.places[s.p]);
    assert OneIssue(w, title.of(key));
    hide Sound, Fresh, Distinct;
  }

  lemma StepKeepsBelonging(w: World, title: Titles, s: Step, key: Identity, provenance: Provenance, i: int)
    requires Sound(w, title) && Distinct(title) && Enabled(w, title, s) && Fresh(w)
    requires Belongs(w, title, key, provenance, i)
    ensures Belongs(Apply(w, title, s), title, key, provenance, i)
  {
    if !s.OtherIssue? && !At(w, s.p).Outside? {
      assert PlaceSound(w, title, w.places[s.p]);
    }
    hide Sound, Fresh, Distinct, Apply, Enabled;
    if !s.OtherIssue? && !At(w, s.p).Outside? && At(w, s.p).key == key {
      OwnStepKeepsBelonging(w, title, s, provenance, i);
    } else {
      OtherIdentityKept(w, title, s, key);
    }
  }

  /** Whatever a step returns belongs to the publication it was called for. */
  lemma ReturnBelongs(w: World, title: Titles, s: Step)
    requires Sound(w, title) && Distinct(title) && Enabled(w, title, s) && Fresh(w)
    ensures var v := Apply(w, title, s);
            v.returned == w.returned
            || (|v.returned| > 0 && v.returned == w.returned + [v.returned[|v.returned| - 1]]
                && var r := v.returned[|v.returned| - 1]; Belongs(v, title, r.key, r.provenance, r.issue))
  {
    if !s.OtherIssue? && s.p in w.places {
      assert PlaceSound(w, title, w.places[s.p]) && PlaceFresh(w, w.places[s.p]);
    }
    hide Fresh, Distinct, OneIssue, NoIssue, CompleteListing, Locked;
  }

  /** Every value returned so far belongs to the publication it was returned for. */
  ghost predicate AllBelong(w: World, title: Titles) {
    forall r :: r in w.returned ==> Belongs(w, title, r.key, r.provenance, r.issue)
  }

  lemma StepKeepsAllBelong(w: World, title: Titles, s: Step)
    requires Sound(w, title) && Distinct(title) && Enabled(w, title, s) && Fresh(w) && AllBelong(w, title)
    ensures AllBelong(Apply(w, title, s), title)
  {
    hide Sound, Fresh, Distinct, Apply, Enabled, Belongs;
    var v := Apply(w, title, s);
    ReturnBelongs(w, title, s);
    forall r | r in v.returned ensures Belongs(v, title, r.key, r.provenance, r.issue) {
      if r in w.returned { StepKeepsBelonging(w, title, s, r.key, r.provenance, r.issue); }
    }
  }

  lemma {:induction false} RunsBelong(title: Titles, steps: seq<Step>)
    requires Distinct(title)
    ensures Fresh(After(title, steps)) && AllBelong(After(title, steps), title)
  {
    hide Apply, Enabled, Sound;
    if steps != [] {
      var w := After(title, steps[..|steps| - 1]);
      var s := steps[|steps| - 1];
      RunsBelong(title, steps[..|steps| - 1]);
      RunsAreSound(title, steps[..|steps| - 1]);
      if Enabled(w, title, s) {
        StepKeepsFresh(w, title, s);
        StepKeepsAllBelong(w, title, s);
      }
    }
  }

  /** What belongs to a publication goes on belonging to it. */
  lemma {:induction false} BelongingLasts(title: Titles, steps: seq<Step>, more: seq<Step>,
                                          key: Identity, provenance: Provenance, i: int)
    requires Distinct(title) && Belongs(After(title, steps), title, key, provenance, i)
    ensures Belongs(After(title, steps + more), title, key, provenance, i)
    decreases |more|
  {
    hide Apply, Enabled, Sound, Fresh, AllBelong, Belongs;
    if more == [] {
      assert steps + more == steps;
    } else {
      var before := steps + more[..|more| - 1];
      var s := more[|more| - 1];
      assert (steps + more)[..|steps + more| - 1] == before && (steps + more)[|steps + more| - 1] == s;
      BelongingLasts(title, steps, more[..|more| - 1], key, provenance, i);
      RunsBelong(title, before);
      RunsAreSound(title, before);
      if Enabled(After(title, before), title, s) {
        StepKeepsBelonging(After(title, before), title, s, key, provenance, i);
      }
    }
  }

  // ---- the retry

  /** An uninterrupted call for this escalation and publication returns the issue and creates none. */
  ghost predicate Gets(w: World, title: Titles, p: nat, key: Identity, provenance: Provenance, i: int) {
    Enabled(w, title, Begin(p, key, provenance)) ==>
      forall newId :: newId > 0 && newId !in w.remote ==>
        var v := Drive(Apply(w, title, Begin(p, key, provenance)), title, p, newId, 5);
        && At(v, p).Outside? && v.remote == w.remote
        && v.returned == w.returned + [Return(key, provenance, i)]
  }

  lemma RecordedIsReturned(w: World, title: Titles, p: nat, newId: int)
    requires At(w, p).Inspect? && newId > 0 && At(w, p).key in w.intents
    requires IntentSound(w, title, At(w, p).key)
    requires w.intents[At(w, p).key].issue.Some? && w.intents[At(w, p).key].provenance == At(w, p).provenance
    ensures var v := Drive(w, title, p, newId, 5);
            && At(v, p).Outside? && v.remote == w.remote
            && v.returned == w.returned
                             + [Return(At(w, p).key, At(w, p).provenance, w.intents[At(w, p).key].issue.value)]
  {
    var inspected := Apply(w, title, Inspected(p));
    assert Drive(w, title, p, newId, 5) == Drive(inspected, title, p, newId, 4);
  }

  lemma ListedIsReconciled(w: World, title: Titles, p: nat, newId: int, i: int)
    requires At(w, p).Look? && newId > 0 && OneIssue(w, title.of(At(w, p).key))
    requires IsIssue(w, title.of(At(w, p).key), i)
    requires At(w, p).seen.Some? && At(w, p).seen.value.provenance == At(w, p).provenance
    ensures var v := Drive(w, title, p, newId, 4);
            && At(v, p).Outside? && v.remote == w.remote
            && v.returned == w.returned + [Return(At(w, p).key, At(w, p).provenance, i)]
  {
    var found := Listed(w, title.of(At(w, p).key));
    assert found == Some(i);
    var looked := Apply(w, title, Looked(p, found));
    var reconciled := Apply(looked, title, Reconciled(p));
    assert Drive(w, title, p, newId, 4) == Drive(looked, title, p, newId, 3);
    assert Drive(looked, title, p, newId, 3) == Drive(reconciled, title, p, newId, 2);
  }

  lemma BelongingIsGot(w: World, title: Titles, p: nat, key: Identity, provenance: Provenance, i: int)
    requires Sound(w, title) && Belongs(w, title, key, provenance, i)
    ensures Gets(w, title, p, key, provenance, i)
  {
    if Enabled(w, title, Begin(p, key, provenance)) {
      var begun := Apply(w, title, Begin(p, key, provenance));
      assert IntentSound(w, title, key) && OneIssue(w, title.of(key));
      forall newId | newId > 0 && newId !in w.remote
        ensures var v := Drive(begun, title, p, newId, 5);
                && At(v, p).Outside? && v.remote == w.remote
                && v.returned == w.returned + [Return(key, provenance, i)]
      {
        if w.intents[key].issue.Some? {
          RecordedIsReturned(begun, title, p, newId);
        } else {
          var inspected := Apply(begun, title, Inspected(p));
          assert Drive(begun, title, p, newId, 5) == Drive(inspected, title, p, newId, 4);
          ListedIsReconciled(inspected, title, p, newId, i);
        }
      }
    }
  }

  /**
   Once a call has returned an issue, an uninterrupted call for the same escalation and publication returns that
   issue at any later point of any run, and creates none.
   */
  lemma RetryGetsTheReturnedIssue(title: Titles, steps: seq<Step>, more: seq<Step>, r: Return, p: nat)
    requires Distinct(title) && r in After(title, steps).returned
    ensures Gets(After(title, steps + more), title, p, r.key, r.provenance, r.issue)
  {
    hide After, Belongs, Gets, Sound, Distinct;
    RunsBelong(title, steps);
    BelongingLasts(title, steps, more, r.key, r.provenance, r.issue);
    RunsAreSound(title, steps + more);
    BelongingIsGot(After(title, steps + more), title, p, r.key, r.provenance, r.issue);
  }

  /**
   An issue that was created without being recorded, because the process crashed or its answer was lost, is
   what an uninterrupted call for the same escalation and publication returns at any later point of any run.
   */
  lemma RetryGetsTheOrphanedIssue(title: Titles, steps: seq<Step>, more: seq<Step>, q: nat, i: int, p: nat)
    requires Distinct(title) && At(After(title, steps), q).Create?
    requires Enabled(After(title, steps), title, Created(q, i))
    ensures var here := At(After(title, steps), q);
            && Gets(After(title, steps + [CreatedButLost(q, i)] + more), title, p, here.key, here.provenance, i)
            && Gets(After(title, steps + [Created(q, i), Raised(q)] + more), title, p, here.key, here.provenance, i)
  {
    var w := After(title, steps);
    var here := At(w, q);
    RunsBelong(title, steps);
    RunsAreSound(title, steps);
    CreationBelongs(w, title, q, i);
    OneStepAfter(title, steps, CreatedButLost(q, i));
    OneStepAfter(title, steps, Created(q, i));
    OneStepAfter(title, steps + [Created(q, i)], Raised(q));
    var lost, crashed := steps + [CreatedButLost(q, i)], steps + [Created(q, i), Raised(q)];
    assert steps + [Created(q, i)] + [Raised(q)] == crashed;
    hide After, Belongs, Gets, Sound, Distinct, Apply, Enabled;
    BelongingLasts(title, lost, more, here.key, here.provenance, i);
    BelongingLasts(title, crashed, more, here.key, here.provenance, i);
    RunsAreSound(title, lost + more);
    RunsAreSound(title, crashed + more);
    BelongingIsGot(After(title, lost + more), title, p, here.key, here.provenance, i);
    BelongingIsGot(After(title, crashed + more), title, p, here.key, here.provenance, i);
  }

  lemma CreationBelongs(w: World, title: Titles, q: nat, i: int)
    requires Sound(w, title) && Fresh(w) && At(w, q).Create? && Enabled(w, title, Created(q, i))
    ensures var here := At(w, q);
            && Belongs(Apply(w, title, CreatedButLost(q, i)), title, here.key, here.provenance, i)
            && Enabled(Apply(w, title, Created(q, i)), title, Raised(q))
            && Belongs(Apply(Apply(w, title, Created(q, i)), title, Raised(q)), title, here.key, here.provenance, i)
  {
    assert PlaceSound(w, title, w.places[q]) && PlaceFresh(w, w.places[q]);
    hide Sound, Fresh;
  }

  lemma OneStepAfter(title: Titles, steps: seq<Step>, s: Step)
    requires Enabled(After(title, steps), title, s)
    ensures After(title, steps + [s]) == Apply(After(title, steps), title, s)
  {
    assert (steps + [s])[..|steps + [s]| - 1] == steps;
  }
}
