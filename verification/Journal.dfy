/** The durable idempotency journal: one list of entries, looked up and rewritten by key. */
module Journal {
  import opened Prelude

  datatype Status = Intended | Unknown | Confirmed | Rejected | Compensated | Reconciled | NotDispatched

  datatype Kind = Action | Recovery

  /** A lifecycle entry carries a status, a recovery entry a state; results are kept as serialized documents. */
  datatype Entry = Entry(
    key: string, kind: Kind, operation: string, target: string,
    status: Option<Status>, result: Option<string>, error: Option<string>)

  /** What is written when an effect is recorded: it has no result and no error yet. */
  datatype NewEntry = NewEntry(key: string, kind: Kind, operation: string, target: string, status: Option<Status>)

  /** A field left out of an update stays; one that is given overwrites, an explicit null included. */
  datatype Change<+T> = Leave | Set(value: Option<T>)

  datatype Update = Update(status: Change<Status>, result: Change<string>, error: Change<string>)

  datatype Probe = Absent | Observed(entry: Entry) | Malformed

  // ---- the list as a value

  /** The first entry under a key, which is the one every operation reads or rewrites. */
  function Lookup(entries: seq<Entry>, key: string): Option<Entry> {
    if entries == [] then None
    else if entries[0].key == key then Some(entries[0])
    else Lookup(entries[1..], key)
  }

  function Fresh(e: NewEntry): Entry {
    Entry(e.key, e.kind, e.operation, e.target, e.status, None, None)
  }

  /** The old entry under the fields of the new one; fields the new one lacks survive. */
  function Merged(prior: Entry, e: NewEntry): Entry {
    prior.(kind := if e.kind.Recovery? then Recovery else prior.kind, operation := e.operation, target := e.target,
           status := if e.status.Some? then e.status else prior.status)
  }

  function Changed<T>(prior: Option<T>, c: Change<T>): Option<T> {
    if c.Set? then c.value else prior
  }

  function Updated(prior: Entry, u: Update): Entry {
    prior.(status := Changed(prior.status, u.status), result := Changed(prior.result, u.result),
           error := Changed(prior.error, u.error))
  }

  /** Rewrite the first entry under the key, or append. */
  function Upserted(entries: seq<Entry>, e: NewEntry): seq<Entry> {
    if entries == [] then [Fresh(e)]
    else if entries[0].key == e.key then [Merged(entries[0], e)] + entries[1..]
    else [entries[0]] + Upserted(entries[1..], e)
  }

  /** Rewrite the first entry under the key. */
  function Resolved(entries: seq<Entry>, key: string, u: Update): seq<Entry> {
    if entries == [] then []
    else if entries[0].key == key then [Updated(entries[0], u)] + entries[1..]
    else [entries[0]] + Resolved(entries[1..], key, u)
  }

  predicate UniqueKeys(entries: seq<Entry>) {
    forall i, j :: 0 <= i < j < |entries| ==> entries[i].key != entries[j].key
  }

  function Keys(entries: seq<Entry>): set<string> {
    set e | e in entries :: e.key
  }

  /** A key is on file exactly when it can be looked up. */
  lemma {:induction false} LookupFindsKeys(entries: seq<Entry>, key: string)
    ensures Lookup(entries, key).Some? <==> key in Keys(entries)
    ensures Lookup(entries, key).Some? ==> Lookup(entries, key).value in entries
                                           && Lookup(entries, key).value.key == key
  {
    if entries != [] {
      LookupFindsKeys(entries[1..], key);
      assert entries == [entries[0]] + entries[1..];
    }
  }

  /** With unique keys the lookup is the only entry under its key, wherever it stands. */
  lemma {:induction false} LookupIsTheOnlyEntry(entries: seq<Entry>, e: Entry)
    requires UniqueKeys(entries) && e in entries
    ensures Lookup(entries, e.key) == Some(e)
  {
    if entries[0] != e {
      assert e in entries[1..];
      assert entries[0].key != e.key;
      LookupIsTheOnlyEntry(entries[1..], e);
    }
  }

  /** An upsert changes what its own key looks up, and nothing else; keys stay unique. */
  lemma {:induction false} UpsertIsLocal(entries: seq<Entry>, e: NewEntry, other: string)
    ensures Lookup(Upserted(entries, e), e.key)
         == Some(match Lookup(entries, e.key) case Some(o) => Merged(o, e) case None => Fresh(e))
    ensures other != e.key ==> Lookup(Upserted(entries, e), other) == Lookup(entries, other)
  {
    if entries != [] && entries[0].key != e.key {
      UpsertIsLocal(entries[1..], e, other);
      assert Upserted(entries, e)[1..] == Upserted(entries[1..], e);
    }
  }

  /**
   Recording an effect again overwrites its operation and target, its status only when one is given, and never
   the result or the error an earlier resolution left; a recovery entry stays one.
   */
  lemma UpsertKeepsTheOutcome(entries: seq<Entry>, e: NewEntry)
    ensures var before, after := Lookup(entries, e.key), Lookup(Upserted(entries, e), e.key);
            && after.Some? && after.value.key == e.key
            && (after.value.operation, after.value.target) == (e.operation, e.target)
            && after.value.result == (if before.Some? then before.value.result else None)
            && after.value.error == (if before.Some? then before.value.error else None)
            && after.value.status == (if before.Some? && e.status.None? then before.value.status else e.status)
            && (after.value.kind.Recovery? <==> e.kind.Recovery? || (before.Some? && before.value.kind.Recovery?))
  {
    UpsertIsLocal(entries, e, e.key);
    LookupFindsKeys(entries, e.key);
    hide Upserted, Lookup;
  }

  /** A resolution sets exactly the fields it names, to nothing where it names them with null. */
  lemma ResolutionWrites(entries: seq<Entry>, key: string, u: Update)
    requires Lookup(entries, key).Some?
    ensures var before := Lookup(entries, key).value;
            var after := Lookup(Resolved(entries, key, u), key);
            && after.Some?
            && after.value.status == (if u.status.Leave? then before.status else u.status.value)
            && after.value.result == (if u.result.Leave? then before.result else u.result.value)
            && after.value.error == (if u.error.Leave? then before.error else u.error.value)
            && after.value == before.(status := after.value.status, result := after.value.result,
                                      error := after.value.error)
  {
    ResolveIsLocal(entries, key, u, key);
    hide Resolved, Lookup;
  }

  lemma KeysOf(first: Entry, rest: seq<Entry>)
    ensures Keys([first] + rest) == {first.key} + Keys(rest)
  {
  }

  lemma {:induction false} UpsertAddsKey(entries: seq<Entry>, e: NewEntry)
    ensures Keys(Upserted(entries, e)) == Keys(entries) + {e.key}
  {
    if entries != [] {
      assert entries == [entries[0]] + entries[1..];
      KeysOf(entries[0], entries[1..]);
      if entries[0].key == e.key {
        KeysOf(Merged(entries[0], e), entries[1..]);
      } else {
        UpsertAddsKey(entries[1..], e);
        KeysOf(entries[0], Upserted(entries[1..], e));
      }
    }
  }

  lemma UniqueMore(first: Entry, rest: seq<Entry>)
    requires UniqueKeys(rest) && first.key !in Keys(rest)
    ensures UniqueKeys([first] + rest)
  {
    forall j | 0 <= j < |rest| ensures rest[j].key != first.key { assert rest[j].key in Keys(rest); }
  }

  lemma UniqueLess(entries: seq<Entry>)
    requires UniqueKeys(entries) && entries != []
    ensures UniqueKeys(entries[1..]) && entries[0].key !in Keys(entries[1..])
  {
  }

  lemma {:induction false} UpsertKeepsUniqueKeys(entries: seq<Entry>, e: NewEntry)
    requires UniqueKeys(entries)
    ensures UniqueKeys(Upserted(entries, e))
  {
    if entries != [] {
      hide UniqueKeys, Keys;
      UniqueLess(entries);
      if entries[0].key == e.key {
        UniqueMore(Merged(entries[0], e), entries[1..]);
      } else {
        UpsertKeepsUniqueKeys(entries[1..], e);
        UpsertAddsKey(entries[1..], e);
        UniqueMore(entries[0], Upserted(entries[1..], e));
      }
    }
  }

  /** A resolution changes what its own key looks up, and nothing else; the keys stay the same, in order. */
  lemma {:induction false} ResolveIsLocal(entries: seq<Entry>, key: string, u: Update, other: string)
    ensures Lookup(entries, key).Some? ==>
              Lookup(Resolved(entries, key, u), key) == Some(Updated(Lookup(entries, key).value, u))
    ensures other != key ==> Lookup(Resolved(entries, key, u), other) == Lookup(entries, other)
    ensures |Resolved(entries, key, u)| == |entries|
    ensures forall i :: 0 <= i < |entries| ==> Resolved(entries, key, u)[i].key == entries[i].key
  {
    if entries != [] && entries[0].key != key {
      ResolveIsLocal(entries[1..], key, u, other);
      assert Resolved(entries, key, u)[1..] == Resolved(entries[1..], key, u);
    }
  }

  lemma UpsertedFirst(entries: seq<Entry>, e: NewEntry)
    requires entries != []
    ensures Upserted(entries, e)
         == if entries[0].key == e.key then [Merged(entries[0], e)] + entries[1..]
            else [entries[0]] + Upserted(entries[1..], e)
  {
    hide Merged, Fresh;
  }

  lemma Regroup(a: seq<Entry>, x: Entry, b: seq<Entry>)
    ensures a + ([x] + b) == a + [x] + b
  {
  }

  /** One entry of the scan: rewritten in place under its key, and passed over otherwise. */
  lemma UpsertedAt(entries: seq<Entry>, i: nat, e: NewEntry)
    requires i < |entries| && Upserted(entries, e) == entries[..i] + Upserted(entries[i..], e)
    ensures Upserted(entries, e)
         == if entries[i].key == e.key then entries[..i] + [Merged(entries[i], e)] + entries[i + 1..]
            else entries[..i + 1] + Upserted(entries[i + 1..], e)
  {
    hide Merged, Upserted;
    UpsertedFirst(entries[i..], e);
    assert entries[i..][0] == entries[i] && entries[i..][1..] == entries[i + 1..];
    if entries[i].key == e.key {
      Regroup(entries[..i], Merged(entries[i], e), entries[i + 1..]);
    } else {
      Regroup(entries[..i], entries[i], Upserted(entries[i + 1..], e));
      assert entries[..i + 1] == entries[..i] + [entries[i]];
    }
  }

  lemma UpsertedAtEnd(entries: seq<Entry>, e: NewEntry)
    requires Upserted(entries, e) == entries[..|entries|] + Upserted(entries[|entries|..], e)
    ensures Upserted(entries, e) == entries + [Fresh(e)]
  {
    hide Merged, Fresh;
    assert entries[|entries|..] == [] && entries[..|entries|] == entries;
  }

  // ---- the journal file

  class EffectJournal {
    var entries: seq<Entry>

    constructor ()
      ensures entries == []
    {
      entries := [];
    }

    /** The entry under a key; an empty key finds nothing. */
    method EntryByKey(key: string) returns (found: Option<Entry>)
      ensures found == if key == "" then None else Lookup(entries, key)
    {
      if key == "" { return None; }
      for i := 0 to |entries|
        invariant Lookup(entries, key) == Lookup(entries[i..], key)
      {
        if entries[i].key == key { return Some(entries[i]); }
        assert entries[i..][1..] == entries[i + 1..];
      }
      return None;
    }

    /** Read one effect outcome; an entry without a status, or a finished one without a result, is malformed. */
    method ProbeKey(key: string) returns (probe: Probe)
      requires key != ""
      ensures match Lookup(entries, key)
              case None => probe == Absent
              case Some(e) =>
                var finished := e.status == Some(Confirmed) || e.status == Some(Rejected);
                probe == if e.status.None? || (finished && e.result.None?) then Malformed else Observed(e)
    {
      var found := EntryByKey(key);
      match found
      case None => return Absent;
      case Some(e) =>
        if e.status.None? { return Malformed; }
        if (e.status == Some(Confirmed) || e.status == Some(Rejected)) && e.result.None? { return Malformed; }
        return Observed(e);
    }

    method Upsert(e: NewEntry)
      modifies this
      ensures entries == Upserted(old(entries), e)
    {
      hide Merged, Fresh, Upserted;
      for i := 0 to |entries|
        invariant entries == old(entries)
        invariant Upserted(entries, e) == entries[..i] + Upserted(entries[i..], e)
      {
        UpsertedAt(entries, i, e);
        if entries[i].key == e.key {
          entries := entries[..i] + [Merged(entries[i], e)] + entries[i + 1..];
          return;
        }
      }
      UpsertedAtEnd(entries, e);
      entries := entries + [Fresh(e)];
    }

    /** Refused when the key was never recorded. */
    method ResolveByKey(key: string, u: Update) returns (ok: bool)
      modifies this
      ensures ok <==> Lookup(old(entries), key).Some?
      ensures entries == Resolved(old(entries), key, u)
    {
      for i := 0 to |entries|
        invariant entries == old(entries)
        invariant Resolved(entries, key, u) == entries[..i] + Resolved(entries[i..], key, u)
        invariant Lookup(entries, key) == Lookup(entries[i..], key)
      {
        if entries[i].key == key {
          assert entries[i..][1..] == entries[i + 1..];
          entries := entries[..i] + [Updated(entries[i], u)] + entries[i + 1..];
          return true;
        }
        assert entries[i..][1..] == entries[i + 1..];
        assert entries[..i + 1] == entries[..i] + [entries[i]];
      }
      return false;
    }
  }

  // ---- every sequence of writes

  datatype Write = Put(entry: NewEntry) | Resolve(key: string, update: Update)

  function AfterWrites(writes: seq<Write>): seq<Entry> {
    if writes == [] then []
    else
      var before := AfterWrites(writes[..|writes| - 1]);
      match writes[|writes| - 1]
      case Put(e) => Upserted(before, e)
      case Resolve(key, u) => Resolved(before, key, u)
  }

  /** Keys stay unique, so one key always names one entry. */
  lemma {:induction false} KeysStayUnique(writes: seq<Write>)
    ensures UniqueKeys(AfterWrites(writes))
  {
    if writes != [] {
      var before := AfterWrites(writes[..|writes| - 1]);
      KeysStayUnique(writes[..|writes| - 1]);
      match writes[|writes| - 1]
      case Put(e) => UpsertKeepsUniqueKeys(before, e);
      case Resolve(key, u) => ResolveIsLocal(before, key, u, key);
    }
  }
}
