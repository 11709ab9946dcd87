/**
 * Line handling and the string-vector operations the shell relies on:
 * cutting the input line at its newline, splitting it on spaces the way
 * repeated strtok(" ") calls do, and strvec_find.
 *
 * string_vector.c is not part of this model; strvec_find carries the contract
 * its call sites rely on.
 */
module Tokens {

  /** Nothing but spaces (the empty line included). */
  predicate Blank(s: string)
  {
    forall c :: c in s ==> c == ' '
  }

  /** A token as strtok(" ") delivers it: non-empty and free of spaces. */
  predicate IsToken(w: string)
  {
    |w| > 0 && ' ' !in w
  }

  /** Position of the first newline of the line read by fgets. */
  function NewlineAt(cmd: string): (i: nat)
    requires '\n' in cmd
    ensures i < |cmd| && cmd[i] == '\n' && '\n' !in cmd[..i]
  {
    if cmd[0] == '\n' then 0
    else
      1 + NewlineAt(cmd[1..])
  }

  /** The C string a buffer holds: everything before its first NUL byte. */
  function CString(buf: string): (r: string)
    ensures |r| <= |buf| && r == buf[..|r|]
    ensures '\0' !in r
    ensures |r| < |buf| ==> buf[|r|] == '\0'
  {
    if buf == [] || buf[0] == '\0' then []
    else
      var r := [buf[0]] + CString(buf[1..]);
      assert forall k :: 0 < k < |r| ==> r[k] == CString(buf[1..])[k - 1];
      r
  }

  /**
   * The command text: main overwrites the first newline with a NUL, and
   * strtok then sees the C string up to the first NUL, so the command ends
   * at whichever of the two comes first.
   */
  function StripNewline(cmd: string): (r: string)
    requires '\n' in cmd
    ensures |r| < |cmd| && r == cmd[..|r|]
    ensures '\n' !in r && '\0' !in r
    ensures cmd[|r|] == '\n' || cmd[|r|] == '\0'
  {
    var i := NewlineAt(cmd);
    var r := CString(cmd[..i]);
    assert r == cmd[..|r|];
    assert forall c :: c in r ==> c in cmd[..i];
    r
  }

  /** Length of the run of non-space characters at the front of `s`. */
  function RunLength(s: string): (n: nat)
    ensures n <= |s|
    ensures forall k :: 0 <= k < n ==> s[k] != ' '
    ensures n < |s| ==> s[n] == ' '
  {
    if s == [] || s[0] == ' ' then 0 else 1 + RunLength(s[1..])
  }

  /** The maximal space-free runs of `s`, left to right. */
  function Words(s: string): (ws: seq<string>)
    ensures forall w :: w in ws ==> IsToken(w)
    ensures ws == [] <==> Blank(s)
    decreases |s|
  {
    if s == [] then []
    else if s[0] == ' ' then
      assert Blank(s) <==> Blank(s[1..]) by {
        assert forall c :: c in s <==> c == s[0] || c in s[1..];
      }
      Words(s[1..])
    else
      var n := RunLength(s);
      assert !Blank(s) by { assert s[0] in s; }
      assert ' ' !in s[..n] by {
        forall k | 0 <= k < n ensures s[..n][k] != ' ' { }
      }
      [s[..n]] + Words(s[n..])
  }

  /** The tokens joined back with single spaces. */
  function Join(ws: seq<string>): string
  {
    if |ws| == 0 then []
    else if |ws| == 1 then ws[0]
    else ws[0] + " " + Join(ws[1..])
  }

  /** A space-free word followed by nothing or by a space is exactly one run. */
  lemma RunLengthOfWord(w: string, rest: string)
    requires ' ' !in w
    requires rest == [] || rest[0] == ' '
    ensures RunLength(w + rest) == |w|
  {
    var s := w + rest;
    assert forall k :: 0 <= k < |w| ==> s[k] == w[k];
    if rest != [] {
      assert s[|w|] == ' ';
    }
  }

  /** A token alone on the line is the only token. */
  lemma WordsOfToken(w: string)
    requires IsToken(w)
    ensures Words(w) == [w]
  {
    RunLengthOfWord(w, []);
    assert w + [] == w;
    assert w[|w|..] == [];
  }

  /** A token followed by a space contributes itself, then the rest is split. */
  lemma WordsOfTokenThenSpace(w: string, tail: string)
    requires IsToken(w)
    ensures Words(w + " " + tail) == [w] + Words(tail)
  {
    var s := w + " " + tail;
    assert s == w + (" " + tail);
    RunLengthOfWord(w, " " + tail);
    assert s[0] == w[0];
    assert s[..|w|] == w;
    assert s[|w|..] == " " + tail;
    assert (" " + tail)[1..] == tail;
  }

  /** Splitting undoes joining: tokens separated by single spaces come back unchanged. */
  lemma {:induction false} WordsOfJoin(ws: seq<string>)
    requires forall w :: w in ws ==> IsToken(w)
    ensures Words(Join(ws)) == ws
    decreases |ws|
  {
    if |ws| == 1 {
      assert ws[0] in ws;
      WordsOfToken(ws[0]);
    } else if |ws| > 1 {
      assert ws[0] in ws;
      assert forall x :: x in ws[1..] ==> x in ws;
      WordsOfTokenThenSpace(ws[0], Join(ws[1..]));
      WordsOfJoin(ws[1..]);
      assert ws == [ws[0]] + ws[1..];
    }
  }

  /** A space in front of the rest of the line contributes no token. */
  lemma WordsAtSpace(s: string, i: nat)
    requires i < |s| && s[i] == ' '
    ensures Words(s[i..]) == Words(s[i + 1..])
  {
  }

  /** A maximal run s[i..j] is the next token. */
  lemma WordsAtRun(s: string, i: nat, j: nat)
    requires i < j <= |s|
    requires forall k :: i <= k < j ==> s[k] != ' '
    requires j == |s| || s[j] == ' '
    ensures Words(s[i..]) == [s[i..j]] + Words(s[j..])
  {
    var w := s[i..j];
    assert ' ' !in w by {
      forall k | 0 <= k < |w| ensures w[k] != ' ' { assert w[k] == s[i + k]; }
    }
    assert s[i..] == w + s[j..];
    RunLengthOfWord(w, s[j..]);
    assert s[i..][..j - i] == w;
    assert s[i..][j - i..] == s[j..];
  }

  /** Where the run of non-space characters starting at `i` ends: the next strtok delimiter. */
  method RunEnd(s: string, i: nat) returns (j: nat)
    requires i < |s|
    ensures i <= j <= |s|
    ensures s[i] != ' ' ==> i < j
    ensures forall k :: i <= k < j ==> s[k] != ' '
    ensures j == |s| || s[j] == ' '
  {
    j := i;
    while j < |s| && s[j] != ' '
      invariant i <= j <= |s|
      invariant forall k :: i <= k < j ==> s[k] != ' '
    {
      j := j + 1;
    }
  }

  /**
   * tokenize: the strtok(" ") loop. Returns -1 and no tokens when the line
   * holds no token at all; otherwise 0 and the maximal space-free runs.
   */
  method Tokenize(s: string) returns (rc: int, tokens: seq<string>)
    ensures rc == -1 || rc == 0
    ensures rc == -1 <==> Blank(s)
    ensures rc == -1 ==> tokens == []
    ensures rc == 0 ==> tokens == Words(s) && |tokens| > 0
  {
    tokens := [];
    var i := 0;
    while i < |s|
      invariant 0 <= i <= |s|
      invariant tokens + Words(s[i..]) == Words(s)
    {
      if s[i] == ' ' {
        SkipSpace(s, i, tokens);
        i := i + 1;
      } else {
        var j := RunEnd(s, i);
        TakeRun(s, i, j, tokens);
        tokens := tokens + [s[i..j]];
        i := j;
      }
    }
    WordsAtEnd(s, tokens);
    if tokens == [] {
      rc := -1;
    } else {
      rc := 0;
    }
  }

  lemma SkipSpace(s: string, i: nat, tokens: seq<string>)
    requires i < |s| && s[i] == ' '
    requires tokens + Words(s[i..]) == Words(s)
    ensures tokens + Words(s[i + 1..]) == Words(s)
  {
  }

  lemma TakeRun(s: string, i: nat, j: nat, tokens: seq<string>)
    requires i < j <= |s|
    requires forall k :: i <= k < j ==> s[k] != ' '
    requires j == |s| || s[j] == ' '
    requires tokens + Words(s[i..]) == Words(s)
    ensures (tokens + [s[i..j]]) + Words(s[j..]) == Words(s)
  {
    WordsAtRun(s, i, j);
    assert tokens + ([s[i..j]] + Words(s[j..])) == (tokens + [s[i..j]]) + Words(s[j..]);
  }

  lemma WordsAtEnd(s: string, tokens: seq<string>)
    requires tokens + Words(s[|s|..]) == Words(s)
    ensures tokens == Words(s)
  {
  }

  /** strvec_find: index of the first token equal to `x`, or -1. */
  function Find(ts: seq<string>, x: string): (r: int)
    ensures -1 <= r < |ts|
    ensures r == -1 <==> x !in ts
    ensures 0 <= r < |ts| ==> ts[r] == x && x !in ts[..r]
  {
    if ts == [] then -1
    else if ts[0] == x then 0
    else
      var k := Find(ts[1..], x);
      if k == -1 then -1 else k + 1
  }

  /** `i` is the position of the first token equal to `x`. */
  ghost predicate FirstAt(ts: seq<string>, x: string, i: int)
  {
    0 <= i < |ts| && ts[i] == x && x !in ts[..i]
  }

  /** strvec_find finds exactly the first occurrence. */
  lemma FindIsFirst(ts: seq<string>, x: string, i: int)
    requires FirstAt(ts, x, i)
    ensures Find(ts, x) == i
  {
  }
}
