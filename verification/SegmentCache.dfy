/**
 The reader's segment cache: unchanged segments are not parsed again, and an index of finished
 invocations is rebuilt only when the cache changed.
 */
module SegmentCache {
  import opened Prelude

  /** What the index keeps of an `agent.invocation.finished` row. */
  datatype Match = Match(agent: Option<string>, slice: Option<string>, data: string)

  datatype Document = Document(body: string, finished: Option<Match>)

  datatype Content = Blank | Malformed | Record(document: Document)

  /** A physical line; only the last one of a file may lack its newline. */
  datatype Line = Line(content: Content, terminated: bool, length: nat)

  /** Segments are named by their rank in lexical order. */
  type Name = nat

  type Signature = (int, int)

  /** What a read meets when it gets to a listed segment. */
  datatype Fate = Present(signature: Signature, lines: seq<Line>) | Gone | Unreadable

  datatype File = File(name: Name, fate: Fate)

  datatype Row = Row(segment: Name, line: nat, document: Document)
  datatype Tail = Tail(segment: Name, line: nat, length: nat)
  datatype Parsed = Parsed(rows: seq<Row>, tail: Option<Tail>)
  datatype ReadError = BadLine(segment: Name, line: nat) | NoAccess(segment: Name)

  /** Rows and the newest segment's tail, or the first error. */
  type Answer = Result<Parsed, ReadError>

  datatype Entry = Entry(signature: Signature, parsed: Parsed, matches: seq<Match>)

  type Cache = map<Name, Entry>

  // ---- one segment

  /** What a parse adds after rows already found. */
  function Following(rows: seq<Row>, rest: Answer): Answer {
    match rest
    case Err(e) => Err(e)
    case Ok(p) => Ok(Parsed(rows + p.rows, p.tail))
  }

  /** Rows from line n on. Only an unterminated record of the newest segment is a tail; malformed lines are errors. */
  function Parse(name: Name, lines: seq<Line>, n: nat, newest: bool): Answer {
    if lines == [] then Ok(Parsed([], None))
    else
      var line := lines[0];
      if line.content.Blank? then Parse(name, lines[1..], n + 1, newest)
      else if newest && !line.terminated then Ok(Parsed([], Some(Tail(name, n, line.length))))
      else if line.content.Malformed? then Err(BadLine(name, n))
      else Following([Row(name, n, line.content.document)], Parse(name, lines[1..], n + 1, newest))
  }

  /** Line i is a committed record: the parse gets to it and reads it. */
  predicate Committed(lines: seq<Line>, newest: bool, i: nat)
    requires i < |lines|
  {
    lines[i].content.Record? && forall j :: 0 <= j <= i ==> !newest || lines[j].terminated || lines[j].content.Blank?
  }

  lemma CommittedShift(lines: seq<Line>, newest: bool, i: nat)
    requires 0 < i < |lines|
    ensures Committed(lines, newest, i) <==>
              (!newest || lines[0].terminated || lines[0].content.Blank?) && Committed(lines[1..], newest, i - 1)
  {
    assert forall j :: 1 <= j <= i ==> lines[j] == lines[1..][j - 1];
  }

  /** Every parsed row is a committed record, under its own line number. */
  lemma {:induction false} RowsAreCommitted(name: Name, lines: seq<Line>, n: nat, newest: bool, r: Row)
    requires Parse(name, lines, n, newest).Ok? && r in Parse(name, lines, n, newest).value.rows
    ensures r.segment == name && n <= r.line < n + |lines| && Committed(lines, newest, r.line - n)
    ensures lines[r.line - n].content.document == r.document
  {
    if lines[0].content.Record? && r == Row(name, n, lines[0].content.document) {
    } else {
      RowsAreCommitted(name, lines[1..], n + 1, newest, r);
      CommittedShift(lines, newest, r.line - n);
    }
  }

  /** Every committed record is parsed. */
  lemma {:induction false} CommittedAreRows(name: Name, lines: seq<Line>, n: nat, newest: bool, i: nat)
    requires Parse(name, lines, n, newest).Ok? && i < |lines| && Committed(lines, newest, i)
    ensures Row(name, n + i, lines[i].content.document) in Parse(name, lines, n, newest).value.rows
  {
    if i > 0 {
      CommittedShift(lines, newest, i);
      CommittedAreRows(name, lines[1..], n + 1, newest, i - 1);
      assert lines[1..][i - 1] == lines[i];
    }
  }

  lemma {:induction false} RowsAreInOrder(name: Name, lines: seq<Line>, n: nat, newest: bool)
    requires Parse(name, lines, n, newest).Ok?
    ensures var rows := Parse(name, lines, n, newest).value.rows;
            forall i, j :: 0 <= i < j < |rows| ==> rows[i].line < rows[j].line
  {
    if lines != [] && Parse(name, lines[1..], n + 1, newest).Ok? {
      RowsAreInOrder(name, lines[1..], n + 1, newest);
      var rest := Parse(name, lines[1..], n + 1, newest).value.rows;
      forall r | r in rest ensures r.line > n { RowsAreCommitted(name, lines[1..], n + 1, newest, r); }
    }
  }

  /** A successful parse yields exactly the committed records, each under its line number, in order. */
  lemma ParseMeans(name: Name, lines: seq<Line>, n: nat, newest: bool)
    requires Parse(name, lines, n, newest).Ok?
    ensures var rows := Parse(name, lines, n, newest).value.rows;
            && (forall r :: r in rows <==>
                  && r.segment == name && n <= r.line < n + |lines|
                  && Committed(lines, newest, r.line - n) && lines[r.line - n].content.document == r.document)
            && (forall i, j :: 0 <= i < j < |rows| ==> rows[i].line < rows[j].line)
  {
    hide Parse;
    RowsAreInOrder(name, lines, n, newest);
    forall r | r in Parse(name, lines, n, newest).value.rows
      ensures r.segment == name && n <= r.line < n + |lines|
      ensures Committed(lines, newest, r.line - n) && lines[r.line - n].content.document == r.document
    {
      RowsAreCommitted(name, lines, n, newest, r);
    }
    forall r: Row |
      r.segment == name && n <= r.line < n + |lines|
      && Committed(lines, newest, r.line - n) && lines[r.line - n].content.document == r.document
      ensures r in Parse(name, lines, n, newest).value.rows
    {
      CommittedAreRows(name, lines, n, newest, r.line - n);
    }
  }

  /** A line that is neither blank nor a record the parse may take. */
  predicate Stops(line: Line, newest: bool) {
    !line.content.Blank? && ((newest && !line.terminated) || line.content.Malformed?)
  }

  /**
   The first line a parse cannot take decides how it ends: an unterminated line of the newest segment is kept as
   the tail, under its number and length and without looking at its content; any other line is the error.
   */
  lemma {:induction false} FirstStopDecides(name: Name, lines: seq<Line>, n: nat, newest: bool, i: nat)
    requires i <= |lines| && forall j :: 0 <= j < i ==> !Stops(lines[j], newest)
    requires i < |lines| ==> Stops(lines[i], newest)
    ensures var r := Parse(name, lines, n, newest);
            if i == |lines| then r.Ok? && r.value.tail == None
            else if newest && !lines[i].terminated then
              r.Ok? && r.value.tail == Some(Tail(name, n + i, lines[i].length))
            else r == Err(BadLine(name, n + i))
  {
    if i > 0 {
      assert lines[0] == lines[..1][0] && forall j :: 0 <= j < |lines| - 1 ==> lines[1..][j] == lines[j + 1];
      FirstStopDecides(name, lines[1..], n + 1, newest, i - 1);
    }
  }

  /** Once its writer ends it, the tail of one read is the last row of the next, under the number the tail had. */
  lemma {:induction false} TailBecomesARow(name: Name, lines: seq<Line>, n: nat, last: Line, ended: Line)
    requires AllTerminated(lines) && !last.terminated && !last.content.Blank?
    requires ended.terminated && ended.content.Record?
    requires Parse(name, lines + [last], n, true).Ok?
    ensures var before := Parse(name, lines + [last], n, true).value;
            && before.tail == Some(Tail(name, n + |lines|, last.length))
            && Parse(name, lines + [ended], n, true)
               == Ok(Parsed(before.rows + [Row(name, n + |lines|, ended.content.document)], None))
  {
    if lines == [] {
      assert lines + [last] == [last] && lines + [ended] == [ended];
      assert [last][1..] == [] && [ended][1..] == [];
      var row := [Row(name, n, ended.content.document)];
      assert row + [] == row == [] + row;
    } else {
      assert (lines + [last])[1..] == lines[1..] + [last] && (lines + [ended])[1..] == lines[1..] + [ended];
      assert lines[0] in lines;
      TailBecomesARow(name, lines[1..], n + 1, last, ended);
      var rows := Parse(name, lines[1..] + [last], n + 1, true).value.rows;
      var ending := [Row(name, n + |lines|, ended.content.document)];
      if lines[0].content.Record? {
        var first := [Row(name, n, lines[0].content.document)];
        assert first + (rows + ending) == first + rows + ending;
      }
    }
  }

  predicate AllTerminated(lines: seq<Line>) {
    forall l :: l in lines ==> l.terminated
  }

  /** For a segment that ends in a newline it does not matter whether it was the newest when parsed. */
  lemma {:induction false} TerminatedParse(name: Name, lines: seq<Line>, n: nat)
    requires AllTerminated(lines)
    ensures Parse(name, lines, n, true) == Parse(name, lines, n, false)
    ensures Parse(name, lines, n, true).Ok? ==> Parse(name, lines, n, true).value.tail.None?
  {
    if lines != [] { TerminatedParse(name, lines[1..], n + 1); }
  }

  function MatchesOf(rows: seq<Row>): seq<Match> {
    if rows == [] then []
    else (if rows[0].document.finished.Some? then [rows[0].document.finished.value] else []) + MatchesOf(rows[1..])
  }

  lemma {:induction false} MatchesConcat(a: seq<Row>, b: seq<Row>)
    ensures MatchesOf(a + b) == MatchesOf(a) + MatchesOf(b)
  {
    if a == [] {
      assert a + b == b;
    } else {
      var head := if a[0].document.finished.Some? then [a[0].document.finished.value] else [];
      assert (a + b)[1..] == a[1..] + b;
      MatchesConcat(a[1..], b);
      assert MatchesOf(a + b) == head + MatchesOf(a[1..] + b);
      assert head + (MatchesOf(a[1..]) + MatchesOf(b)) == (head + MatchesOf(a[1..])) + MatchesOf(b);
    }
  }

  // ---- one read, from scratch

  function Joined(a: Answer, p: Parsed, newest: bool): Answer {
    match a
    case Err(e) => Err(e)
    case Ok(sofar) => Ok(Parsed(sofar.rows + p.rows, if newest then p.tail else sofar.tail))
  }

  /** Parse the first k listed segments, ignoring any cache. */
  function Scratch(dir: seq<File>, k: nat): Answer
    requires k <= |dir|
  {
    if k == 0 then Ok(Parsed([], None))
    else
      var before := Scratch(dir, k - 1);
      var file := dir[k - 1];
      if before.Err? then before
      else match file.fate
        case Gone => before
        case Unreadable => Err(NoAccess(file.name))
        case Present(_, lines) =>
          match Parse(file.name, lines, 1, k == |dir|)
          case Err(e) => Err(e)
          case Ok(p) => Joined(before, p, k == |dir|)
  }

  // ---- one read, through the cache

  datatype Scan = Scan(cache: Cache, changed: bool, answer: Answer)

  function Names(dir: seq<File>): set<Name> {
    set f | f in dir :: f.name
  }

  function Refreshed(name: Name, signature: Signature, p: Parsed): Entry {
    Entry(signature, p, MatchesOf(p.rows))
  }

  /** Visit one listed segment: a cached entry with the same signature is trusted. */
  function Visit(s: Scan, file: File, newest: bool): Scan {
    match file.fate
    case Gone => s
    case Unreadable => s.(answer := Err(NoAccess(file.name)))
    case Present(signature, lines) =>
      if file.name in s.cache && s.cache[file.name].signature == signature
      then s.(answer := Joined(s.answer, s.cache[file.name].parsed, newest))
      else match Parse(file.name, lines, 1, newest)
        case Err(e) => s.(answer := Err(e))
        case Ok(p) =>
          Scan(s.cache[file.name := Refreshed(file.name, signature, p)], true, Joined(s.answer, p, newest))
  }

  function Scanned(cache: Cache, dir: seq<File>, k: nat): Scan
    requires k <= |dir|
  {
    if k == 0 then Scan(cache, Names(dir) != cache.Keys, Ok(Parsed([], None)))
    else
      var before := Scanned(cache, dir, k - 1);
      if before.answer.Err? then before else Visit(before, dir[k - 1], k == |dir|)
  }

  /** The matches of the cached segments, in listing order. */
  function Collected(cache: Cache, dir: seq<File>): seq<Match> {
    if dir == [] then []
    else (if dir[0].name in cache then cache[dir[0].name].matches else []) + Collected(cache, dir[1..])
  }

  function Kept(cache: Cache, names: set<Name>): Cache {
    map n | n in cache && n in names :: cache[n]
  }

  datatype Reader = Reader(cache: Cache, index: seq<Match>)

  /** A read that fails keeps what it cached so far, and leaves pruning and the index for later. */
  function AfterRead(r: Reader, dir: seq<File>): Reader {
    var s := Scanned(r.cache, dir, |dir|);
    if s.answer.Err? then Reader(s.cache, r.index)
    else
      var cache := Kept(s.cache, Names(dir));
      Reader(cache, if s.changed then Collected(cache, dir) else r.index)
  }

  lemma FollowingNothing(rest: Answer)
    ensures Following([], rest) == rest
  {
    if rest.Ok? { assert [] + rest.value.rows == rest.value.rows; }
  }

  lemma FollowingTwice(a: seq<Row>, b: seq<Row>, rest: Answer)
    ensures Following(a, Following(b, rest)) == Following(a + b, rest)
  {
    if rest.Ok? { assert a + (b + rest.value.rows) == a + b + rest.value.rows; }
  }

  class LedgerReader {
    var cache: Cache
    var index: seq<Match>

    constructor ()
      ensures cache == map[] && index == []
    {
      cache, index := map[], [];
    }

    static method ReadSegment(name: Name, lines: seq<Line>, newest: bool) returns (r: Answer)
      ensures r == Parse(name, lines, 1, newest)
    {
      var rows: seq<Row> := [];
      FollowingNothing(Parse(name, lines, 1, newest));
      for i := 0 to |lines|
        invariant Parse(name, lines, 1, newest) == Following(rows, Parse(name, lines[i..], i + 1, newest))
      {
        var line := lines[i];
        assert lines[i..][1..] == lines[i + 1..];
        if line.content.Blank? { continue; }
        assert rows + [] == rows;
        if newest && !line.terminated { return Ok(Parsed(rows, Some(Tail(name, i + 1, line.length)))); }
        if line.content.Malformed? { return Err(BadLine(name, i + 1)); }
        var row := Row(name, i + 1, line.content.document);
        FollowingTwice(rows, [row], Parse(name, lines[i + 1..], i + 2, newest));
        rows := rows + [row];
      }
      assert rows + [] == rows;
      r := Ok(Parsed(rows, None));
    }

    method ReadRows(dir: seq<File>) returns (answer: Answer)
      modifies this
      ensures answer == Scanned(old(cache), dir, |dir|).answer
      ensures Reader(cache, index) == AfterRead(Reader(old(cache), old(index)), dir)
    {
      var names := set f | f in dir :: f.name;
      var changed := names != cache.Keys;
      var parsed := Parsed([], None);
      for i := 0 to |dir|
        invariant index == old(index)
        invariant Scanned(old(cache), dir, i) == Scan(cache, changed, Ok(parsed))
      {
        ghost var before := Scanned(old(cache), dir, i);
        var file := dir[i];
        var newest := i + 1 == |dir|;
        match file.fate {
          case Gone =>
            continue;
          case Unreadable =>
            ScanStopsAtError(old(cache), dir, i + 1, |dir|);
            return Err(NoAccess(file.name));
          case Present(signature, lines) =>
            if file.name !in cache || cache[file.name].signature != signature {
              var r := ReadSegment(file.name, lines, newest);
              if r.Err? {
                ScanStopsAtError(old(cache), dir, i + 1, |dir|);
                return r;
              }
              cache := cache[file.name := Refreshed(file.name, signature, r.value)];
              changed := true;
            }
            var p := cache[file.name].parsed;
            parsed := Parsed(parsed.rows + p.rows, if newest then p.tail else parsed.tail);
        }
      }
      cache := map n | n in cache && n in names :: cache[n];
      if changed { index := Collected(cache, dir); }
      answer := Ok(parsed);
    }
  }

  lemma {:induction false} ScanStopsAtError(cache: Cache, dir: seq<File>, k: nat, n: nat)
    requires k <= n <= |dir| && Scanned(cache, dir, k).answer.Err?
    ensures Scanned(cache, dir, n) == Scanned(cache, dir, k)
    decreases n
  {
    if k < n { ScanStopsAtError(cache, dir, k, n - 1); }
  }

  // ---- what the cache assumes of the directory

  /** Equal name and signature mean equal bytes. */
  type Bytes = (Name, Signature) -> seq<Line>

  /** The listing is sorted, signatures identify bytes, and a segment ends in a newline before a newer one appears. */
  ghost predicate Honest(dir: seq<File>, bytes: Bytes) {
    && (forall i, j :: 0 <= i < j < |dir| ==> dir[i].name < dir[j].name)
    && (forall i :: 0 <= i < |dir| && dir[i].fate.Present? ==>
          && dir[i].fate.lines == bytes(dir[i].name, dir[i].fate.signature)
          && (i < |dir| - 1 ==> AllTerminated(dir[i].fate.lines)))
  }

  /** Every cached entry is what parsing the bytes behind its signature gives. */
  ghost predicate CacheSound(cache: Cache, bytes: Bytes) {
    forall n :: n in cache ==>
      && Parse(n, bytes(n, cache[n].signature), 1, true) == Ok(cache[n].parsed)
      && cache[n].matches == MatchesOf(cache[n].parsed.rows)
  }

  /** Visiting a segment that is still there adds what parsing it now gives, and leaves the cache sound. */
  lemma VisitIsParse(s: Scan, file: File, bytes: Bytes, newest: bool)
    requires CacheSound(s.cache, bytes) && file.fate.Present? && s.answer.Ok?
    requires file.fate.lines == bytes(file.name, file.fate.signature)
    requires !newest ==> AllTerminated(file.fate.lines)
    ensures CacheSound(Visit(s, file, newest).cache, bytes)
    ensures var parsed := Parse(file.name, file.fate.lines, 1, newest);
            Visit(s, file, newest).answer == if parsed.Ok? then Joined(s.answer, parsed.value, newest) else parsed
  {
    if newest {
      NewestVisit(s, file, bytes);
    } else {
      TerminatedParse(file.name, file.fate.lines, 1);
      hide Parse, MatchesOf;
    }
  }

  lemma NewestVisit(s: Scan, file: File, bytes: Bytes)
    requires CacheSound(s.cache, bytes) && file.fate.Present? && s.answer.Ok?
    requires file.fate.lines == bytes(file.name, file.fate.signature)
    ensures CacheSound(Visit(s, file, true).cache, bytes)
    ensures var parsed := Parse(file.name, file.fate.lines, 1, true);
            Visit(s, file, true).answer == if parsed.Ok? then Joined(s.answer, parsed.value, true) else parsed
  {
    hide Parse, MatchesOf;
  }

  lemma {:induction false} ScanIsScratch(cache: Cache, dir: seq<File>, bytes: Bytes, k: nat)
    requires CacheSound(cache, bytes) && Honest(dir, bytes) && k <= |dir|
    ensures CacheSound(Scanned(cache, dir, k).cache, bytes)
    ensures Scanned(cache, dir, k).answer == Scratch(dir, k)
  {
    if k > 0 {
      ScanIsScratch(cache, dir, bytes, k - 1);
      var before, file := Scanned(cache, dir, k - 1), dir[k - 1];
      if before.answer.Ok? && file.fate.Present? { VisitIsParse(before, file, bytes, k == |dir|); }
      hide CacheSound, Parse;
    }
  }

  /** A read through the cache answers as a read from scratch would, and leaves the cache sound. */
  lemma CachedReadIsScratch(r: Reader, dir: seq<File>, bytes: Bytes)
    requires CacheSound(r.cache, bytes) && Honest(dir, bytes)
    ensures Scanned(r.cache, dir, |dir|).answer == Scratch(dir, |dir|)
    ensures CacheSound(AfterRead(r, dir).cache, bytes)
  {
    ScanIsScratch(r.cache, dir, bytes, |dir|);
  }

  // ---- the index

  /** The listed segments that were still there when the read got to them. */
  function Seen(dir: seq<File>): (r: seq<File>)
    ensures forall f :: f in r <==> f in dir && !f.fate.Gone?
  {
    if dir == [] then []
    else
      assert dir == [dir[0]] + dir[1..];
      (if dir[0].fate.Gone? then [] else [dir[0]]) + Seen(dir[1..])
  }

  lemma {:induction false} SeenConcat(a: seq<File>, b: seq<File>)
    ensures Seen(a + b) == Seen(a) + Seen(b)
  {
    if a == [] {
      assert a + b == b;
    } else {
      assert (a + b)[1..] == a[1..] + b;
      SeenConcat(a[1..], b);
    }
  }

  lemma SeenOneMore(dir: seq<File>, k: nat)
    requires 0 < k <= |dir|
    ensures Seen(dir[..k]) == Seen(dir[..k - 1]) + (if dir[k - 1].fate.Gone? then [] else [dir[k - 1]])
  {
    assert dir[..k] == dir[..k - 1] + [dir[k - 1]];
    SeenConcat(dir[..k - 1], [dir[k - 1]]);
    assert [dir[k - 1]][1..] == [];
    assert Seen([dir[k - 1]]) == (if dir[k - 1].fate.Gone? then [] else [dir[k - 1]]) + [];
  }

  /** The segments that vanished during the read had no finished invocation cached. */
  predicate GoneIsEmpty(cache: Cache, dir: seq<File>) {
    forall f :: f in dir && f.fate.Gone? && f.name in cache ==> cache[f.name].matches == []
  }

  /** A successful visit caches the segment's parse, changes no other entry, and adds its rows. */
  lemma VisitCaches(s: Scan, file: File, newest: bool)
    requires !file.fate.Gone? && s.answer.Ok? && Visit(s, file, newest).answer.Ok?
    ensures var v := Visit(s, file, newest);
            && v.cache.Keys == s.cache.Keys + {file.name}
            && (!v.changed ==> v.cache == s.cache)
            && v.answer.value.rows == s.answer.value.rows + v.cache[file.name].parsed.rows
            && (v.cache[file.name].matches == MatchesOf(v.cache[file.name].parsed.rows)
                || (file.name in s.cache && v.cache[file.name] == s.cache[file.name]))
            && forall n :: n in s.cache && n != file.name ==> v.cache[n] == s.cache[n]
  {
    hide Parse, MatchesOf;
  }

  /** Visiting one more segment extends the collected matches as it extends the rows. */
  lemma VisitCollects(s: Scan, prefix: seq<File>, file: File, newest: bool)
    requires !file.fate.Gone? && s.answer.Ok? && Visit(s, file, newest).answer.Ok?
    requires forall f :: f in prefix ==> f.name != file.name
    requires forall n :: n in s.cache ==> s.cache[n].matches == MatchesOf(s.cache[n].parsed.rows)
    requires Collected(s.cache, prefix) == MatchesOf(s.answer.value.rows)
    ensures var v := Visit(s, file, newest);
            Collected(v.cache, prefix + [file]) == MatchesOf(v.answer.value.rows)
  {
    var v := Visit(s, file, newest);
    VisitCaches(s, file, newest);
    hide Parse, Visit, MatchesOf;
    CollectedUnchanged(s.cache, v.cache, prefix, file.name);
    CollectedConcat(v.cache, prefix, [file]);
    MatchesConcat(s.answer.value.rows, v.cache[file.name].parsed.rows);
    assert Collected(v.cache, [file]) == v.cache[file.name].matches + Collected(v.cache, []);
  }

  lemma BeforeVisit(cache: Cache, dir: seq<File>, bytes: Bytes, k: nat)
    requires CacheSound(cache, bytes) && Honest(dir, bytes) && 0 < k <= |dir|
    ensures forall f :: f in dir[..k - 1] ==> f.name != dir[k - 1].name
    ensures var before := Scanned(cache, dir, k - 1).cache;
            forall n :: n in before ==> before[n].matches == MatchesOf(before[n].parsed.rows)
  {
    ScanIsScratch(cache, dir, bytes, k - 1);
    assert forall i :: 0 <= i < k - 1 ==> dir[i].name < dir[k - 1].name;
  }

  /** `b` is `a` except for the entries of `names`, which `b` all has. */
  ghost predicate Extends(a: Cache, b: Cache, names: set<Name>) {
    && b.Keys == a.Keys + names
    && forall n :: n in a && n !in names ==> b[n] == a[n]
  }

  /** What a successful scan leaves in the cache for the segments it saw. */
  ghost predicate Caught(cache: Cache, dir: seq<File>, k: nat, s: Scan)
    requires k <= |dir| && s.answer.Ok?
  {
    && Extends(cache, s.cache, Names(Seen(dir[..k])))
    && (!s.changed ==> s.cache == cache && Names(dir) == cache.Keys)
    && Collected(s.cache, Seen(dir[..k])) == MatchesOf(s.answer.value.rows)
  }

  lemma VisitExtends(cache: Cache, seen: seq<File>, s: Scan, file: File, newest: bool)
    requires Extends(cache, s.cache, Names(seen))
    requires !file.fate.Gone? && s.answer.Ok? && Visit(s, file, newest).answer.Ok?
    ensures Extends(cache, Visit(s, file, newest).cache, Names(seen + [file]))
  {
    VisitCaches(s, file, newest);
    hide Visit, Parse;
    assert Names(seen + [file]) == Names(seen) + {file.name};
  }

  lemma VisitCatches(cache: Cache, dir: seq<File>, k: nat, s: Scan)
    requires 0 < k <= |dir| && s.answer.Ok? && Caught(cache, dir, k - 1, s)
    requires Visit(s, dir[k - 1], k == |dir|).answer.Ok?
    requires forall f :: f in dir[..k - 1] ==> f.name != dir[k - 1].name
    requires forall n :: n in s.cache ==> s.cache[n].matches == MatchesOf(s.cache[n].parsed.rows)
    ensures Caught(cache, dir, k, Visit(s, dir[k - 1], k == |dir|))
  {
    var seen := Seen(dir[..k - 1]);
    SeenOneMore(dir, k);
    if dir[k - 1].fate.Gone? {
      assert seen + [] == seen;
    } else {
      VisitExtends(cache, seen, s, dir[k - 1], k == |dir|);
      VisitCollects(s, seen, dir[k - 1], k == |dir|);
      VisitCaches(s, dir[k - 1], k == |dir|);
      VisitKeepsChanged(s, dir[k - 1], k == |dir|);
      hide Parse, Visit, Names, Seen, Collected, MatchesOf, Extends;
    }
  }

  lemma {:induction false} ScanCaches(cache: Cache, dir: seq<File>, bytes: Bytes, k: nat)
    requires CacheSound(cache, bytes) && Honest(dir, bytes) && k <= |dir|
    requires Scanned(cache, dir, k).answer.Ok?
    ensures Caught(cache, dir, k, Scanned(cache, dir, k))
  {
    if k == 0 {
      assert dir[..0] == [];
    } else {
      ScanCaches(cache, dir, bytes, k - 1);
      BeforeVisit(cache, dir, bytes, k);
      hide Parse, Visit, Honest, CacheSound, Names, Seen, Collected, MatchesOf, Caught;
      VisitCatches(cache, dir, k, Scanned(cache, dir, k - 1));
    }
  }

  lemma VisitKeepsChanged(s: Scan, file: File, newest: bool)
    ensures s.changed ==> Visit(s, file, newest).changed
  {
  }

  lemma {:induction false} CollectedConcat(cache: Cache, a: seq<File>, b: seq<File>)
    ensures Collected(cache, a + b) == Collected(cache, a) + Collected(cache, b)
  {
    if a == [] {
      assert a + b == b;
    } else {
      assert (a + b)[1..] == a[1..] + b;
      CollectedConcat(cache, a[1..], b);
    }
  }

  lemma {:induction false} CollectedUnchanged(a: Cache, b: Cache, dir: seq<File>, except: Name)
    requires forall f :: f in dir ==> f.name != except
    requires forall n :: n != except ==> (n in a <==> n in b) && (n in a ==> a[n] == b[n])
    ensures Collected(a, dir) == Collected(b, dir)
  {
    if dir != [] { CollectedUnchanged(a, b, dir[1..], except); }
  }

  lemma {:induction false} CollectedKept(cache: Cache, dir: seq<File>, names: set<Name>)
    requires Names(dir) <= names
    ensures Collected(Kept(cache, names), dir) == Collected(cache, dir)
  {
    if dir != [] {
      assert dir == [dir[0]] + dir[1..];
      assert dir[0].name in Names(dir);
      CollectedKept(cache, dir[1..], names);
    }
  }

  lemma NoNames(a: seq<File>)
    ensures Names(a) == {} <==> a == []
  {
    if a != [] { assert a[0].name in Names(a); }
  }

  /** Two sorted listings of the same segments collect the same matches. */
  lemma {:induction false} CollectedBySet(cache: Cache, a: seq<File>, b: seq<File>)
    requires forall i, j :: 0 <= i < j < |a| ==> a[i].name < a[j].name
    requires forall i, j :: 0 <= i < j < |b| ==> b[i].name < b[j].name
    requires Names(a) == Names(b)
    ensures Collected(cache, a) == Collected(cache, b)
  {
    NoNames(a);
    NoNames(b);
    if a != [] && b != [] {
      SameFirst(a, b);
      SameFirst(b, a);
      assert a[0].name == b[0].name;
      NamesTail(a);
      NamesTail(b);
      CollectedBySet(cache, a[1..], b[1..]);
    }
  }

  lemma SameFirst(a: seq<File>, b: seq<File>)
    requires a != [] && b != [] && Names(a) == Names(b)
    requires forall i, j :: 0 <= i < j < |b| ==> b[i].name < b[j].name
    ensures b[0].name <= a[0].name
  {
    assert a[0].name in Names(b);
    var k :| 0 <= k < |b| && b[k].name == a[0].name;
  }

  lemma NamesTail(a: seq<File>)
    requires a != [] && forall i, j :: 0 <= i < j < |a| ==> a[i].name < a[j].name
    ensures Names(a[1..]) == Names(a) - {a[0].name}
  {
    assert a == [a[0]] + a[1..];
    forall f | f in a[1..] ensures f.name != a[0].name {
      var k :| 0 <= k < |a[1..]| && a[1..][k] == f;
      assert a[k + 1] == f;
    }
  }

  lemma {:induction false} CollectedWithout(cache: Cache, dir: seq<File>)
    ensures |Collected(cache, Seen(dir))| <= |Collected(cache, dir)|
    ensures Collected(cache, dir) == Collected(cache, Seen(dir)) <==> GoneIsEmpty(cache, dir)
  {
    if dir != [] {
      CollectedWithout(cache, dir[1..]);
      SeenFirst(dir);
      assert dir == [dir[0]] + dir[1..];
      var mine := if dir[0].name in cache then cache[dir[0].name].matches else [];
      var all, seen := Collected(cache, dir[1..]), Collected(cache, Seen(dir[1..]));
      assert Collected(cache, dir) == mine + all;
      if dir[0].fate.Gone? {
        LongerDiffers(mine, all, seen);
      } else {
        SamePrefix(mine, all, seen);
      }
    }
  }

  lemma SeenFirst(dir: seq<File>)
    requires dir != []
    ensures dir[0].fate.Gone? ==> Seen(dir) == Seen(dir[1..])
    ensures !dir[0].fate.Gone? ==> Seen(dir) != [] && Seen(dir)[0] == dir[0] && Seen(dir)[1..] == Seen(dir[1..])
  {
    assert [] + Seen(dir[1..]) == Seen(dir[1..]);
  }

  lemma LongerDiffers<T>(mine: seq<T>, all: seq<T>, seen: seq<T>)
    requires |seen| <= |all|
    ensures mine + all == seen <==> mine == [] && all == seen
  {
    if mine == [] { assert mine + all == all; }
  }

  lemma SamePrefix<T>(mine: seq<T>, all: seq<T>, seen: seq<T>)
    ensures mine + all == mine + seen <==> all == seen
  {
    assert (mine + all)[|mine|..] == all && (mine + seen)[|mine|..] == seen;
  }

  lemma SeenNames(dir: seq<File>, f: File)
    requires forall i, j :: 0 <= i < j < |dir| ==> dir[i].name < dir[j].name
    requires f in dir && f.fate.Gone?
    ensures f.name !in Names(Seen(dir))
  {
    var i :| 0 <= i < |dir| && dir[i] == f;
    forall g | g in Seen(dir) ensures g.name != f.name {
      var j :| 0 <= j < |dir| && dir[j] == g;
    }
  }

  /** A scan leaves the entries of vanished segments alone. */
  lemma GoneEntriesStay(cache: Cache, dir: seq<File>, after: Cache)
    requires forall i, j :: 0 <= i < j < |dir| ==> dir[i].name < dir[j].name
    requires Extends(cache, after, Names(Seen(dir)))
    ensures GoneIsEmpty(after, dir) <==> GoneIsEmpty(cache, dir)
  {
    forall f | f in dir && f.fate.Gone?
      ensures (f.name in after <==> f.name in cache) && (f.name in cache ==> after[f.name] == cache[f.name])
    {
      SeenNames(dir, f);
    }
  }

  /**
   After a successful read the index lists the finished invocations of the rows just read exactly when
   something changed in that read and the segments that vanished under it had none cached, or nothing
   changed and the index already was what the cache holds for the segments still there.
   */
  lemma IndexIsRightIff(r: Reader, dir: seq<File>, bytes: Bytes)
    requires CacheSound(r.cache, bytes) && Honest(dir, bytes)
    requires Scanned(r.cache, dir, |dir|).answer.Ok?
    ensures var s := Scanned(r.cache, dir, |dir|);
            AfterRead(r, dir).index == MatchesOf(s.answer.value.rows)
            <==> if s.changed then GoneIsEmpty(r.cache, dir) else r.index == Collected(r.cache, Seen(dir))
  {
    hide CacheSound, Scanned, Seen, GoneIsEmpty, Extends, Collected, MatchesOf, Names, Kept;
    var s := Scanned(r.cache, dir, |dir|);
    assert dir[..|dir|] == dir;
    ScanCaches(r.cache, dir, bytes, |dir|);
    assert Names(dir) <= Names(dir);
    CollectedKept(s.cache, dir, Names(dir));
    GoneEntriesStay(r.cache, dir, s.cache);
    CollectedWithout(s.cache, dir);
  }

  // ---- runs

  ghost predicate HonestRun(dirs: seq<seq<File>>, bytes: Bytes) {
    forall d :: d in dirs ==> Honest(d, bytes)
  }

  /** The reader after a sequence of reads, of whatever the directory held at each of them. */
  function AfterReads(dirs: seq<seq<File>>): Reader {
    if dirs == [] then Reader(map[], [])
    else AfterRead(AfterReads(dirs[..|dirs| - 1]), dirs[|dirs| - 1])
  }

  lemma {:induction false} CacheStaysSound(dirs: seq<seq<File>>, bytes: Bytes)
    requires HonestRun(dirs, bytes)
    ensures CacheSound(AfterReads(dirs).cache, bytes)
  {
    if dirs != [] {
      CacheStaysSound(dirs[..|dirs| - 1], bytes);
      CachedReadIsScratch(AfterReads(dirs[..|dirs| - 1]), dirs[|dirs| - 1], bytes);
    }
  }

  /** After any reads, failed ones included, the next read answers as a read from scratch. */
  lemma EveryReadIsScratch(dirs: seq<seq<File>>, next: seq<File>, bytes: Bytes)
    requires HonestRun(dirs, bytes) && Honest(next, bytes)
    ensures Scanned(AfterReads(dirs).cache, next, |next|).answer == Scratch(next, |next|)
  {
    CacheStaysSound(dirs, bytes);
    CachedReadIsScratch(AfterReads(dirs), next, bytes);
  }

  ghost predicate Sorted(dir: seq<File>) {
    forall i, j :: 0 <= i < j < |dir| ==> dir[i].name < dir[j].name
  }

  /** The index holds the matches of the cached segments, in their sorted order. */
  ghost predicate InStep(r: Reader) {
    forall dir: seq<File> :: Sorted(dir) && Names(dir) == r.cache.Keys ==> Collected(r.cache, dir) == r.index
  }

  /** The listed segments that have an entry. */
  function Cached(cache: Cache, dir: seq<File>): (r: seq<File>)
    ensures forall f :: f in r <==> f in dir && f.name in cache
  {
    if dir == [] then []
    else
      assert dir == [dir[0]] + dir[1..];
      (if dir[0].name in cache then [dir[0]] else []) + Cached(cache, dir[1..])
  }

  lemma {:induction false} CachedIsSorted(cache: Cache, dir: seq<File>)
    requires Sorted(dir)
    ensures Sorted(Cached(cache, dir))
  {
    if dir != [] {
      CachedIsSorted(cache, dir[1..]);
      var rest := Cached(cache, dir[1..]);
      forall f | f in rest ensures dir[0].name < f.name {
        var k :| 0 <= k < |dir[1..]| && dir[1..][k] == f;
        assert dir[k + 1] == f;
      }
      CachedFirst(cache, dir);
    }
  }

  lemma CachedFirst(cache: Cache, dir: seq<File>)
    requires dir != []
    ensures Cached(cache, dir)
         == if dir[0].name in cache then [dir[0]] + Cached(cache, dir[1..]) else Cached(cache, dir[1..])
  {
    assert [] + Cached(cache, dir[1..]) == Cached(cache, dir[1..]);
  }

  lemma {:induction false} CachedCollects(cache: Cache, dir: seq<File>)
    ensures Collected(cache, Cached(cache, dir)) == Collected(cache, dir)
  {
    if dir != [] {
      CachedCollects(cache, dir[1..]);
      CachedFirst(cache, dir);
      var rest := Cached(cache, dir[1..]);
      assert ([dir[0]] + rest)[1..] == rest;
      assert [] + Collected(cache, dir[1..]) == Collected(cache, dir[1..]);
    }
  }

  lemma CachedNames(cache: Cache, dir: seq<File>)
    requires cache.Keys <= Names(dir)
    ensures Names(Cached(cache, dir)) == cache.Keys
  {
    forall n | n in cache.Keys ensures n in Names(Cached(cache, dir)) {
      var f :| f in dir && f.name == n;
      assert f in Cached(cache, dir);
    }
  }

  /** An index collected along a listing that covers the cache is in step with it. */
  lemma CollectedIsInStep(cache: Cache, dir: seq<File>)
    requires Sorted(dir) && cache.Keys <= Names(dir)
    ensures InStep(Reader(cache, Collected(cache, dir)))
  {
    CachedIsSorted(cache, dir);
    CachedCollects(cache, dir);
    CachedNames(cache, dir);
    hide Cached, Collected, Names;
    forall other: seq<File> | Sorted(other) && Names(other) == cache.Keys
      ensures Collected(cache, other) == Collected(cache, dir)
    {
      CollectedBySet(cache, other, Cached(cache, dir));
    }
  }

  /** A read that does not fail keeps the index in step with the cache, whatever vanished under it. */
  lemma SuccessKeepsInStep(r: Reader, dir: seq<File>, bytes: Bytes)
    requires CacheSound(r.cache, bytes) && Honest(dir, bytes) && InStep(r)
    requires Scanned(r.cache, dir, |dir|).answer.Ok?
    ensures InStep(AfterRead(r, dir))
  {
    var s := Scanned(r.cache, dir, |dir|);
    ScanCaches(r.cache, dir, bytes, |dir|);
    hide Scanned, Collected, MatchesOf, Seen, CacheSound, InStep, Extends, Names, Kept;
    assert Sorted(dir);
    KeptIsCovered(s.cache, dir);
    CollectedIsInStep(Kept(s.cache, Names(dir)), dir);
    if !s.changed { KeepingAll(r.cache, Names(dir)); }
  }

  lemma KeptIsCovered(cache: Cache, dir: seq<File>)
    ensures Kept(cache, Names(dir)).Keys <= Names(dir)
  {
  }

  lemma KeepingAll(cache: Cache, names: set<Name>)
    requires names == cache.Keys
    ensures Kept(cache, names) == cache
  {
  }

  /** With the index in step, a read that does not fail leaves it right exactly when what vanished was empty. */
  lemma InStepIsRightIff(r: Reader, dir: seq<File>, bytes: Bytes)
    requires CacheSound(r.cache, bytes) && Honest(dir, bytes) && InStep(r)
    requires Scratch(dir, |dir|).Ok?
    ensures AfterRead(r, dir).index == MatchesOf(Scratch(dir, |dir|).value.rows) <==> GoneIsEmpty(r.cache, dir)
  {
    var s := Scanned(r.cache, dir, |dir|);
    assert dir[..|dir|] == dir;
    ScanIsScratch(r.cache, dir, bytes, |dir|);
    ScanCaches(r.cache, dir, bytes, |dir|);
    IndexIsRightIff(r, dir, bytes);
    assert Sorted(dir);
    CollectedWithout(r.cache, dir);
    hide Scanned, Scratch, AfterRead, GoneIsEmpty, Extends, Collected, MatchesOf, Seen, Names, CacheSound, Honest;
  }

  /**
   While no read fails, the index is in step with the cache, and after each read it is what a full parse
   would give exactly when the segments that vanished under that read had no finished invocation cached.
   */
  lemma {:induction false} IndexIsRightWithoutFailures(dirs: seq<seq<File>>, bytes: Bytes)
    requires HonestRun(dirs, bytes) && forall d :: d in dirs ==> Scratch(d, |d|).Ok?
    ensures InStep(AfterReads(dirs))
    ensures dirs != [] ==>
              var before, last := AfterReads(dirs[..|dirs| - 1]), dirs[|dirs| - 1];
              AfterReads(dirs).index == MatchesOf(Scratch(last, |last|).value.rows)
              <==> GoneIsEmpty(before.cache, last)
  {
    if dirs != [] {
      var before, last := dirs[..|dirs| - 1], dirs[|dirs| - 1];
      IndexIsRightWithoutFailures(before, bytes);
      CacheStaysSound(before, bytes);
      hide Scanned, Scratch, AfterRead, InStep, GoneIsEmpty, MatchesOf, CacheSound, Honest;
      CachedReadIsScratch(AfterReads(before), last, bytes);
      SuccessKeepsInStep(AfterReads(before), last, bytes);
      InStepIsRightIff(AfterReads(before), last, bytes);
    } else {
      forall dir: seq<File> | Names(dir) == {} ensures Collected(map[], dir) == [] {
        NoNames(dir);
      }
    }
  }

  lemma OneRecord(name: Name, document: Document, newest: bool)
    ensures Parse(name, [Line(Record(document), true, 1)], 1, newest)
         == Ok(Parsed([Row(name, 1, document)], None))
    ensures MatchesOf([Row(name, 1, document)])
         == if document.finished.Some? then [document.finished.value] else []
  {
    var lines := [Line(Record(document), true, 1)];
    assert lines[1..] == [];
    assert [Row(name, 1, document)] + [] == [Row(name, 1, document)];
    assert [Row(name, 1, document)][1..] == [];
  }

  /**
   A failed read can leave the index behind for good: it caches a finished invocation, fails on a later
   segment, and when that segment is gone nothing has changed, so the index is not rebuilt.
   */
  lemma FailedReadLosesAMatch(m: Match)
    ensures var good := File(0, Present((1, 1), [Line(Record(Document("", Some(m))), true, 1)]));
            var bad := File(1, Present((2, 2), [Line(Malformed, true, 1)]));
            && Scratch([good], 1).Ok? && MatchesOf(Scratch([good], 1).value.rows) == [m]
            && AfterReads([[good, bad], [good]]).index == []
            && Scanned(AfterReads([[good, bad]]).cache, [good], 1).answer == Scratch([good], 1)
  {
    var document := Document("", Some(m));
    var good := File(0, Present((1, 1), [Line(Record(document), true, 1)]));
    var bad := File(1, Present((2, 2), [Line(Malformed, true, 1)]));
    var p := Parsed([Row(0, 1, document)], None);
    var cached: Cache := map[0 := Refreshed(0, (1, 1), p)];
    OneRecord(0, document, false);
    OneRecord(0, document, true);
    assert [] + p.rows == p.rows;
    // The first read caches the good segment and fails on the bad one.
    assert Scanned(map[], [good, bad], 0).answer == Ok(Parsed([], None));
    assert Scanned(map[], [good, bad], 1) == Visit(Scanned(map[], [good, bad], 0), good, false);
    assert Scanned(map[], [good, bad], 2) == Visit(Scanned(map[], [good, bad], 1), bad, true);
    assert AfterReads([]) == Reader(map[], []) && [[good, bad]][..0] == [];
    assert AfterReads([[good, bad]]) == Reader(cached, []);
    // The second read finds nothing to do.
    assert [[good, bad], [good]][..1] == [[good, bad]];
    assert Names([good]) == {0} == cached.Keys;
    assert Scanned(cached, [good], 1) == Visit(Scanned(cached, [good], 0), good, true);
    assert Scanned(cached, [good], 1) == Scan(cached, false, Ok(p));
    assert Scratch([good], 1) == Joined(Scratch([good], 0), p, true);
  }

  /** A segment that vanishes between listing and stat leaves its finished invocation in the index alone. */
  lemma GoneSegmentKeepsItsMatch(m: Match)
    ensures var good := File(0, Present((1, 1), [Line(Record(Document("", Some(m))), true, 1)]));
            var gone := File(0, Gone);
            && Scratch([gone], 1) == Ok(Parsed([], None))
            && InStep(AfterReads([[good]])) && AfterReads([[good], [gone]]).index == [m]
  {
    var document := Document("", Some(m));
    var lines := [Line(Record(document), true, 1)];
    var good, gone := File(0, Present((1, 1), lines)), File(0, Gone);
    var p := Parsed([Row(0, 1, document)], None);
    var cached: Cache := map[0 := Refreshed(0, (1, 1), p)];
    OneRecord(0, document, true);
    assert [] + p.rows == p.rows;
    assert Scanned(map[], [good], 1) == Visit(Scanned(map[], [good], 0), good, true);
    assert AfterReads([]) == Reader(map[], []) && [[good]][..0] == [];
    assert Kept(cached, Names([good])) == cached;
    assert Collected(cached, [good]) == [m] + Collected(cached, [good][1..]);
    assert AfterReads([[good]]) == Reader(cached, [m]);
    assert [[good], [gone]][..1] == [[good]];
    assert Names([gone]) == {0} == cached.Keys;
    assert Scanned(cached, [gone], 1) == Visit(Scanned(cached, [gone], 0), gone, true);
    assert Scratch([gone], 1) == Scratch([gone], 0);
    CollectedIsInStep(cached, [good]);
  }
}
