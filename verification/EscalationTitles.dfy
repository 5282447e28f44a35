/** The escalation title spells out its whole identity, so distinct identities have distinct titles. */
module EscalationTitles {
  import opened Escalation

  /** The token of each run directory. */
  type Tokens = string -> string

  /** The tokens of these runs are sixteen characters long, and no two of the runs share one. */
  ghost predicate RunTokens(tokens: Tokens, runs: set<string>) {
    && (forall run :: run in runs ==> |tokens(run)| == 16)
    && (forall a, b :: a in runs && b in runs && tokens(a) == tokens(b) ==> a == b)
  }

  function Digit(d: nat): char
    requires d < 10
  {
    (d + '0' as int) as char
  }

  function Decimal(n: nat): string {
    if n < 10 then [Digit(n)] else Decimal(n / 10) + [Digit(n % 10)]
  }

  /** The pre-attempt title. */
  function Named(id: Identity): string {
    ("Escalate slice " + id.slice) + [':'] + (" " + id.cause)
  }

  /** Scoped to one attempt. */
  function Counted(id: Identity): string {
    (Named(id) + " (attempt") + [' '] + Decimal(id.attempt)
  }

  /** And to one run. */
  function Title(tokens: Tokens, id: Identity): string {
    Counted(id) + ") [run " + tokens(id.run) + "]"
  }

  function TitlesOf(tokens: Tokens, runs: set<string>): Titles {
    Titles(id => Title(tokens, id), runs)
  }

  /** The title, word for word. */
  lemma TitleReads(tokens: Tokens, id: Identity)
    ensures Title(tokens, id)
         == "Escalate slice " + id.slice + ": " + id.cause + " (attempt " + Decimal(id.attempt)
            + ") [run " + tokens(id.run) + "]"
  {
    var head := "Escalate slice " + id.slice;
    assert ": " == [':'] + " " && " (attempt " == " (attempt" + [' '];
    assert head + [':'] + (" " + id.cause) == head + ": " + id.cause;
    assert Counted(id) == head + ": " + id.cause + " (attempt " + Decimal(id.attempt);
  }

  /** The number a decimal numeral stands for. */
  function Value(digits: string): int {
    if digits == "" then 0 else Value(digits[..|digits| - 1]) * 10 + (digits[|digits| - 1] as int - '0' as int)
  }

  lemma {:induction false} DecimalStandsFor(n: nat)
    ensures Value(Decimal(n)) == n && forall c :: c in Decimal(n) ==> '0' <= c <= '9'
  {
    if n >= 10 {
      DecimalStandsFor(n / 10);
      assert Decimal(n)[..|Decimal(n)| - 1] == Decimal(n / 10);
    } else {
      assert Decimal(n)[..0] == "";
    }
  }

  lemma {:induction false} DecimalHasNoSpace(n: nat)
    ensures ' ' !in Decimal(n) && Decimal(n) != []
  {
    if n >= 10 { DecimalHasNoSpace(n / 10); }
  }

  lemma {:induction false} DecimalIsInjective(a: nat, b: nat)
    requires Decimal(a) == Decimal(b)
    ensures a == b
  {
    var s, t := Decimal(a), Decimal(b);
    assert s[|s| - 1] == Digit(a % 10) && t[|t| - 1] == Digit(b % 10);
    DecimalHasNoSpace(a / 10);
    DecimalHasNoSpace(b / 10);
    if a >= 10 && b >= 10 {
      assert s[..|s| - 1] == Decimal(a / 10) && t[..|t| - 1] == Decimal(b / 10);
      DecimalIsInjective(a / 10, b / 10);
    }
  }

  /** A separator that does not occur behind it can be found again from the end. */
  lemma LastSeparator(a: string, d: string, b: string, e: string, x: char)
    requires a + [x] + d == b + [x] + e && x !in d && x !in e
    ensures a == b && d == e
  {
    var s := a + [x] + d;
    assert s[|a|] == x && s[|b|] == x;
    assert forall k :: |a| < k < |s| ==> s[k] == d[k - |a| - 1];
    assert forall k :: |b| < k < |s| ==> s[k] == e[k - |b| - 1];
    if |a| < |b| || |b| < |a| { assert false; }
    assert a == s[..|a|] && b == s[..|a|];
    assert d == s[|a| + 1..] && e == s[|a| + 1..];
  }

  lemma SameTail(a: string, b: string, c: string, d: string)
    requires a + c == b + d && |c| == |d|
    ensures a == b && c == d
  {
    assert a == (a + c)[..|a|] && b == (b + d)[..|b|];
    assert c == (a + c)[|a|..] && d == (b + d)[|b|..];
  }

  /** Distinct escalations have distinct titles, so an exact title match identifies the escalation. */
  lemma TitlesAreDistinct(tokens: Tokens, runs: set<string>)
    requires RunTokens(tokens, runs)
    ensures Distinct(TitlesOf(tokens, runs))
  {
    var titles := TitlesOf(tokens, runs);
    forall a, b | Known(titles, a) && Known(titles, b) && titles.of(a) == titles.of(b) ensures a == b {
      TitleDetermines(tokens, a, b);
    }
  }

  lemma TitleDetermines(tokens: Tokens, a: Identity, b: Identity)
    requires RunTokens(tokens, {a.run, b.run}) && Title(tokens, a) == Title(tokens, b)
    ensures a == b
  {
    SameTail(Counted(a) + ") [run " + tokens(a.run), Counted(b) + ") [run " + tokens(b.run), "]", "]");
    SameTail(Counted(a) + ") [run ", Counted(b) + ") [run ", tokens(a.run), tokens(b.run));
    SameTail(Counted(a), Counted(b), ") [run ", ") [run ");
    DecimalHasNoSpace(a.attempt);
    DecimalHasNoSpace(b.attempt);
    LastSeparator(Named(a) + " (attempt", Decimal(a.attempt), Named(b) + " (attempt", Decimal(b.attempt), ' ');
    DecimalIsInjective(a.attempt, b.attempt);
    SameTail(Named(a), Named(b), " (attempt", " (attempt");
    LastSeparator("Escalate slice " + a.slice, " " + a.cause, "Escalate slice " + b.slice, " " + b.cause, ':');
    SameTail("", "", "Escalate slice " + a.slice, "Escalate slice " + b.slice);
    assert a.slice == ("Escalate slice " + a.slice)[15..] && b.slice == ("Escalate slice " + b.slice)[15..];
    assert a.cause == (" " + a.cause)[1..] && b.cause == (" " + b.cause)[1..];
  }

  /** With the titles the program writes: one issue per escalation over every interleaving with crashes. */
  lemma OneIssuePerEscalation(tokens: Tokens, runs: set<string>, steps: seq<Step>, key: Identity, i: int, j: int)
    requires RunTokens(tokens, runs) && key.run in runs
    requires IsIssue(After(TitlesOf(tokens, runs), steps), Title(tokens, key), i)
    requires IsIssue(After(TitlesOf(tokens, runs), steps), Title(tokens, key), j)
    ensures i == j
  {
    TitlesAreDistinct(tokens, runs);
    AtMostOneIssuePerTitle(TitlesOf(tokens, runs), steps, key, i, j);
  }

  // ---- tokens exist

  function HexDigit(d: nat): char
    requires d < 16
  {
    "0123456789abcdef"[d]
  }

  /** The last `width` hexadecimal digits of a number. */
  function Hex(n: nat, width: nat): (r: string)
    ensures |r| == width
  {
    if width == 0 then [] else Hex(n / 16, width - 1) + [HexDigit(n % 16)]
  }

  function PowerOf16(width: nat): nat {
    if width == 0 then 1 else 16 * PowerOf16(width - 1)
  }

  /** Numbers that fit the width are told apart by it. */
  lemma {:induction false} HexIsInjective(a: nat, b: nat, width: nat)
    requires a < PowerOf16(width) && b < PowerOf16(width) && Hex(a, width) == Hex(b, width)
    ensures a == b
  {
    if width > 0 {
      var s, t := Hex(a, width), Hex(b, width);
      assert s[width - 1] == HexDigit(a % 16) && t[width - 1] == HexDigit(b % 16);
      assert s[..width - 1] == Hex(a / 16, width - 1) && t[..width - 1] == Hex(b / 16, width - 1);
      HexIsInjective(a / 16, b / 16, width - 1);
    }
  }

  function Position(order: seq<string>, run: string): nat {
    if order == [] || order[0] == run then 0 else 1 + Position(order[1..], run)
  }

  lemma {:induction false} PositionFinds(order: seq<string>, run: string)
    requires run in order
    ensures Position(order, run) < |order| && order[Position(order, run)] == run
  {
    if order[0] != run { PositionFinds(order[1..], run); }
  }

  lemma {:induction false} SetIsListed(runs: set<string>) returns (order: seq<string>)
    ensures |order| == |runs| && forall run :: run in runs ==> run in order
  {
    if runs == {} {
      order := [];
    } else {
      var run :| run in runs;
      var rest := SetIsListed(runs - {run});
      order := [run] + rest;
    }
  }

  /** Any runs, as many as sixteen hexadecimal digits can number, can have such tokens: numbering them is one way. */
  lemma TokensExist(runs: set<string>) returns (tokens: Tokens)
    requires |runs| <= PowerOf16(16)
    ensures RunTokens(tokens, runs)
  {
    var order := SetIsListed(runs);
    tokens := run => Hex(Position(order, run), 16);
    forall a, b | a in runs && b in runs && tokens(a) == tokens(b) ensures a == b {
      PositionFinds(order, a);
      PositionFinds(order, b);
      HexIsInjective(Position(order, a), Position(order, b), 16);
    }
  }
}
