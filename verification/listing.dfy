/**
 * The `jobs` built-in: one line "<i>: <name> (background|stopped)" per
 * table entry, in table order, with i counting from 0. The reading functions
 * below recover index, name and status from a line, which pins down what
 * each line says.
 */
module Listing {

  import opened Wrappers
  import opened JobTable
  import opened Tokens

  predicate IsDigit(c: char)
  {
    '0' <= c <= '9'
  }

  function Digit(d: nat): (c: char)
    requires d < 10
    ensures IsDigit(c)
  {
    ('0' as int + d) as char
  }

  function DigitValue(c: char): nat
    requires IsDigit(c)
  {
    c as int - '0' as int
  }

  /** printf's %d for a non-negative int. */
  function Decimal(n: nat): (r: string)
    ensures |r| > 0
    ensures forall c :: c in r ==> IsDigit(c)
    ensures r[0] == '0' ==> n == 0
  {
    if n < 10 then [Digit(n)] else Decimal(n / 10) + [Digit(n % 10)]
  }

  function ParseDecimal(s: string): nat
    requires forall c :: c in s ==> IsDigit(c)
  {
    if s == [] then 0
    else
      assert s[|s| - 1] in s;
      assert forall c :: c in s[..|s| - 1] ==> c in s;
      10 * ParseDecimal(s[..|s| - 1]) + DigitValue(s[|s| - 1])
  }

  lemma {:induction false} ParseDecimalOfDecimal(n: nat)
    ensures ParseDecimal(Decimal(n)) == n
  {
    if n >= 10 {
      var s := Decimal(n);
      assert s[..|s| - 1] == Decimal(n / 10);
      ParseDecimalOfDecimal(n / 10);
    }
  }

  /** Length of the run of digits at the front of `s`. */
  function DigitRun(s: string): (n: nat)
    ensures n <= |s|
    ensures forall k :: 0 <= k < n ==> IsDigit(s[k])
    ensures n < |s| ==> !IsDigit(s[n])
  {
    if s == [] || !IsDigit(s[0]) then 0 else 1 + DigitRun(s[1..])
  }

  function Describe(st: Status): string
  {
    match st
    case Background => "background"
    case Stopped => "stopped"
  }

  /** The line printed for entry `i`. */
  function JobLine(i: nat, j: Job): string
  {
    Decimal(i) + ": " + j.name + " (" + Describe(j.status) + ")"
  }

  /** The lines `jobs` prints, in table order. */
  function JobsListing(t: Table): seq<string>
  {
    seq(|t|, k requires 0 <= k < |t| => JobLine(k, t[k]))
  }

  /** The index a line starts with. */
  function LineIndex(line: string): nat
  {
    var n := DigitRun(line);
    assert forall c :: c in line[..n] ==> IsDigit(c);
    ParseDecimal(line[..n])
  }

  /** The status a line ends with, if it ends with one. */
  function LineStatus(line: string): Option<Status>
  {
    if |line| >= 12 && line[|line| - 12..] == "(background)" then Some(Background)
    else if |line| >= 9 && line[|line| - 9..] == "(stopped)" then Some(Stopped)
    else None
  }

  /** The name: what lies between the first ": " and the next space. */
  function LineName(line: string): string
  {
    var n := DigitRun(line);
    if n + 2 <= |line| then
      var rest := line[n + 2..];
      rest[..RunLength(rest)]
    else []
  }

  lemma DigitRunOfDecimal(n: nat, rest: string)
    requires rest != [] && !IsDigit(rest[0])
    ensures DigitRun(Decimal(n) + rest) == |Decimal(n)|
  {
    var d := Decimal(n);
    var s := d + rest;
    assert forall k :: 0 <= k < |d| ==> s[k] == d[k] && d[k] in d;
    assert s[|d|] == rest[0];
  }

  lemma JobLineIndex(i: nat, j: Job)
    ensures LineIndex(JobLine(i, j)) == i
  {
    var d := Decimal(i);
    var tail := ": " + j.name + " (" + Describe(j.status) + ")";
    var line := JobLine(i, j);
    assert line == d + tail;
    DigitRunOfDecimal(i, tail);
    assert line[..|d|] == d;
    ParseDecimalOfDecimal(i);
  }

  lemma JobLineStatus(i: nat, j: Job)
    ensures LineStatus(JobLine(i, j)) == Some(j.status)
  {
    var line := JobLine(i, j);
    var desc := "(" + Describe(j.status) + ")";
    var pre := Decimal(i) + ": " + j.name + " ";
    assert line == pre + desc;
    assert line[|pre|..] == desc;
    if j.status == Stopped {
      assert line[|line| - 9..] == "(stopped)";
      if |line| >= 12 {
        assert line[|line| - 12..][3] == line[|line| - 9] == '(';
      }
    } else {
      assert line[|line| - 12..] == "(background)";
    }
  }

  /** In digits + ": " + name + after, with `after` starting with a space, the name is found again. */
  lemma NameAfterIndex(d: string, name: string, after: string)
    requires d != [] && forall c :: c in d ==> IsDigit(c)
    requires IsToken(name) && after != [] && after[0] == ' '
    ensures LineName(d + (": " + (name + after))) == name
  {
    var line := d + (": " + (name + after));
    assert forall k :: 0 <= k < |d| ==> line[k] == d[k] && d[k] in d;
    assert line[|d|] == ':';
    assert DigitRun(line) == |d|;
    var rest := line[|d| + 2..];
    assert rest == name + after;
    RunLengthOfWord(name, after);
    assert rest[..|name|] == name;
  }

  lemma JobLineName(i: nat, j: Job)
    requires IsToken(j.name)
    ensures LineName(JobLine(i, j)) == j.name
  {
    var after := " (" + Describe(j.status) + ")";
    assert JobLine(i, j) == Decimal(i) + (": " + (j.name + after));
    NameAfterIndex(Decimal(i), j.name, after);
  }

  /** Each printed line reads back as its index, the job's status and, for a token name, the name. */
  lemma JobLineReadsBack(i: nat, j: Job)
    ensures LineIndex(JobLine(i, j)) == i
    ensures LineStatus(JobLine(i, j)) == Some(j.status)
    ensures IsToken(j.name) ==> LineName(JobLine(i, j)) == j.name
  {
    JobLineIndex(i, j);
    JobLineStatus(i, j);
    if IsToken(j.name) {
      JobLineName(i, j);
    }
  }

  /** `jobs` prints exactly one line per entry, and line k reads back as entry k. */
  lemma JobsListingReadsBack(t: Table)
    ensures |JobsListing(t)| == |t|
    ensures forall k :: 0 <= k < |t| ==> LineIndex(JobsListing(t)[k]) == k
    ensures forall k :: 0 <= k < |t| ==> LineStatus(JobsListing(t)[k]) == Some(t[k].status)
    ensures forall k :: 0 <= k < |t| && IsToken(t[k].name) ==> LineName(JobsListing(t)[k]) == t[k].name
  {
    forall k | 0 <= k < |t|
      ensures LineIndex(JobsListing(t)[k]) == k
      ensures LineStatus(JobsListing(t)[k]) == Some(t[k].status)
      ensures IsToken(t[k].name) ==> LineName(JobsListing(t)[k]) == t[k].name
    {
      JobLineReadsBack(k, t[k]);
    }
  }
}
