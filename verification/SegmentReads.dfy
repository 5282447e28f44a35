/** What a read of the ledger answers, in the lines of the listed segments; whatever was cached before. */
module SegmentReads {
  import opened Prelude
  import opened SegmentCache

  predicate IsNewest(dir: seq<File>, i: int) {
    i + 1 == |dir|
  }

  /** Row r is a committed record of one of the first k listed segments that are still there. */
  predicate CommittedIn(dir: seq<File>, k: nat, r: Row) {
    exists i | 0 <= i < k && i < |dir| :: CommittedAt(dir, i, r)
  }

  predicate CommittedAt(dir: seq<File>, i: nat, r: Row)
    requires i < |dir|
  {
    && dir[i].fate.Present? && r.segment == dir[i].name && 1 <= r.line <= |dir[i].fate.lines|
    && Committed(dir[i].fate.lines, IsNewest(dir, i), r.line - 1)
    && dir[i].fate.lines[r.line - 1].content.document == r.document
  }

  /** A segment the read cannot get past: unreadable, or with a malformed committed line. */
  predicate Failing(dir: seq<File>, i: nat)
    requires i < |dir|
  {
    || dir[i].fate.Unreadable?
    || (dir[i].fate.Present? && Parse(dir[i].name, dir[i].fate.lines, 1, IsNewest(dir, i)).Err?)
  }

  /** The order of the ledger: by segment, and by line in a segment. */
  predicate Before(a: Row, b: Row) {
    a.segment < b.segment || (a.segment == b.segment && a.line < b.line)
  }

  predicate InOrder(rows: seq<Row>) {
    forall i, j :: 0 <= i < j < |rows| ==> Before(rows[i], rows[j])
  }

  lemma {:induction false} ScratchRows(dir: seq<File>, k: nat)
    requires k <= |dir| && Scratch(dir, k).Ok?
    ensures forall r :: r in Scratch(dir, k).value.rows <==> CommittedIn(dir, k, r)
  {
    if k > 0 {
      ScratchRows(dir, k - 1);
      var file := dir[k - 1];
      if file.fate.Present? {
        ParseMeans(file.name, file.fate.lines, 1, k == |dir|);
        hide Parse;
        var p := Parse(file.name, file.fate.lines, 1, k == |dir|).value;
        forall r ensures r in p.rows <==> CommittedAt(dir, k - 1, r) { }
      }
      hide Scratch, CommittedAt;
      forall r ensures CommittedIn(dir, k, r) <==> CommittedIn(dir, k - 1, r) || CommittedAt(dir, k - 1, r) { }
    }
  }

  lemma {:induction false} ScratchInOrder(dir: seq<File>, k: nat)
    requires Sorted(dir) && k <= |dir| && Scratch(dir, k).Ok?
    ensures InOrder(Scratch(dir, k).value.rows)
  {
    if k > 0 {
      ScratchInOrder(dir, k - 1);
      ScratchRows(dir, k - 1);
      var file := dir[k - 1];
      if file.fate.Present? {
        ParseMeans(file.name, file.fate.lines, 1, k == |dir|);
        hide Parse, Committed;
        var before := Scratch(dir, k - 1).value.rows;
        var p := Parse(file.name, file.fate.lines, 1, k == |dir|).value;
        forall r | r in before ensures r.segment < file.name { }
        assert Scratch(dir, k).value.rows == before + p.rows;
      }
    }
  }

  /** Only the newest listed segment has a tail, and only when the read found it there. */
  lemma {:induction false} ScratchTail(dir: seq<File>, k: nat)
    requires k <= |dir| && Scratch(dir, k).Ok?
    ensures Scratch(dir, k).value.tail
         == if k > 0 && k == |dir| && dir[k - 1].fate.Present?
            then Parse(dir[k - 1].name, dir[k - 1].fate.lines, 1, true).value.tail else None
  {
    hide Parse;
    if k > 0 { ScratchTail(dir, k - 1); }
  }

  lemma {:induction false} ScratchFails(dir: seq<File>, k: nat, i: nat)
    requires i <= k <= |dir| && forall j :: 0 <= j < i ==> !Failing(dir, j)
    requires i < k ==> Failing(dir, i)
    ensures if i == k then Scratch(dir, k).Ok?
            else Scratch(dir, k) == (if dir[i].fate.Unreadable? then Err(NoAccess(dir[i].name))
                                     else Parse(dir[i].name, dir[i].fate.lines, 1, IsNewest(dir, i)))
    decreases k
  {
    hide Parse;
    if i < k {
      ScratchFails(dir, k - 1, i);
    } else if k > 0 {
      ScratchFails(dir, k - 1, k - 1);
      assert !Failing(dir, k - 1);
    }
  }

  /** The answer of the next read, after any reads of whatever the directory held before. */
  ghost function NextAnswer(dirs: seq<seq<File>>, next: seq<File>): Answer {
    Scanned(AfterReads(dirs).cache, next, |next|).answer
  }

  /**
   Over every run of reads, a successful answer holds exactly the committed records of the segments still there,
   by segment and line; and its tail is the first unterminated line of the newest one, if that segment is there.
   */
  lemma EveryReadMeans(dirs: seq<seq<File>>, next: seq<File>, bytes: Bytes)
    requires HonestRun(dirs, bytes) && Honest(next, bytes) && NextAnswer(dirs, next).Ok?
    ensures var p := NextAnswer(dirs, next).value;
            && (forall r :: r in p.rows <==> CommittedIn(next, |next|, r))
            && InOrder(p.rows)
            && (p.tail.Some? <==> |next| > 0 && next[|next| - 1].fate.Present? && HasTail(next[|next| - 1].fate.lines))
            && (p.tail.Some? ==>
                  var i := FirstStop(next[|next| - 1].fate.lines);
                  p.tail.value == Tail(next[|next| - 1].name, i + 1, next[|next| - 1].fate.lines[i].length))
  {
    EveryReadIsScratch(dirs, next, bytes);
    ScratchRows(next, |next|);
    ScratchInOrder(next, |next|);
    ScratchTail(next, |next|);
    var n := |next|;
    if n > 0 && next[n - 1].fate.Present? {
      var lines := next[n - 1].fate.lines;
      FirstStopDecides(next[n - 1].name, lines, 1, true, FirstStop(lines));
      NewestIsParsed(next);
    }
    hide Scanned, Scratch, AfterReads, Parse, CommittedIn, Before, Honest;
  }

  /** The first line of the newest segment that is neither blank nor a committed record; its length if there is none. */
  function FirstStop(lines: seq<Line>): (i: nat)
    ensures i <= |lines| && (forall j :: 0 <= j < i ==> !Stops(lines[j], true))
    ensures i < |lines| ==> Stops(lines[i], true)
  {
    if lines == [] || Stops(lines[0], true) then 0 else 1 + FirstStop(lines[1..])
  }

  predicate HasTail(lines: seq<Line>) {
    FirstStop(lines) < |lines| && !lines[FirstStop(lines)].terminated
  }

  lemma NewestIsParsed(dir: seq<File>)
    requires dir != [] && dir[|dir| - 1].fate.Present? && Scratch(dir, |dir|).Ok?
    ensures Parse(dir[|dir| - 1].name, dir[|dir| - 1].fate.lines, 1, true).Ok?
  {
    hide Parse;
  }

  /** A read fails exactly on the first segment it cannot get past, with that segment's error. */
  lemma EveryReadFailsOnTheFirst(dirs: seq<seq<File>>, next: seq<File>, bytes: Bytes, i: nat)
    requires HonestRun(dirs, bytes) && Honest(next, bytes)
    requires i <= |next| && forall j :: 0 <= j < i ==> !Failing(next, j)
    requires i < |next| ==> Failing(next, i)
    ensures if i == |next| then NextAnswer(dirs, next).Ok?
            else NextAnswer(dirs, next) == (if next[i].fate.Unreadable? then Err(NoAccess(next[i].name))
                                            else Parse(next[i].name, next[i].fate.lines, 1, IsNewest(next, i)))
  {
    EveryReadIsScratch(dirs, next, bytes);
    ScratchFails(next, |next|, i);
  }
}
