/**
 * The part of run_command that a child performs between fork and exec:
 * choosing the input file, the output file and its mode, and the argument
 * vector that reaches execvp.
 */
module Redirect {

  import opened Wrappers
  import opened Os
  import opened Tokens

  datatype OutMode = Truncate | Append

  datatype Output = Output(path: string, mode: OutMode)

  /** What the child sets up before exec: a new stdin, a new stdout, the argument vector. */
  datatype Plan = Plan(input: Option<string>, output: Option<Output>, argv: seq<string>)

  /** Which redirection failed to open (or to be installed with dup2). */
  datatype Stage = InputStage | OutputStage

  /** The child either reaches exec with a plan or gives up and returns -1. */
  datatype Launch = Exec(plan: Plan) | RedirectFailed(stage: Stage)

  predicate IsOperator(w: string)
  {
    w == "<" || w == ">" || w == ">>"
  }

  /**
   * The operand token after each operator run_command acts on exists: the
   * source reads it without a bounds check. The `>>` operand is only read
   * when there is no `>`.
   */
  predicate OperandsPresent(ts: seq<string>)
  {
    && (Find(ts, "<") == -1 || Find(ts, "<") + 1 < |ts|)
    && (Find(ts, ">") == -1 || Find(ts, ">") + 1 < |ts|)
    && (Find(ts, ">") != -1 || Find(ts, ">>") == -1 || Find(ts, ">>") + 1 < |ts|)
  }

  /** The input file: the token after the first `<`. */
  function InputFile(ts: seq<string>): (r: Option<string>)
    requires OperandsPresent(ts)
    ensures r.None? <==> "<" !in ts
    ensures forall i :: FirstAt(ts, "<", i) ==> r == Some(ts[i + 1])
  {
    var i := Find(ts, "<");
    if i != -1 then
      assert forall k :: FirstAt(ts, "<", k) ==> k == i by {
        forall k | FirstAt(ts, "<", k) ensures k == i { FindIsFirst(ts, "<", k); }
      }
      Some(ts[i + 1])
    else None
  }

  /**
   * The output file: the token after the first `>`, truncated; only when
   * there is no `>` at all, the token after the first `>>`, appended to.
   */
  function OutputFile(ts: seq<string>): (r: Option<Output>)
    requires OperandsPresent(ts)
    ensures r.None? <==> ">" !in ts && ">>" !in ts
    ensures forall i :: FirstAt(ts, ">", i) ==> r == Some(Output(ts[i + 1], Truncate))
    ensures ">" !in ts ==> forall i :: FirstAt(ts, ">>", i) ==> r == Some(Output(ts[i + 1], Append))
  {
    var i := Find(ts, ">");
    var j := Find(ts, ">>");
    if i != -1 then
      assert forall k :: FirstAt(ts, ">", k) ==> k == i by {
        forall k | FirstAt(ts, ">", k) ensures k == i { FindIsFirst(ts, ">", k); }
      }
      Some(Output(ts[i + 1], Truncate))
    else if j != -1 then
      assert forall k :: FirstAt(ts, ">>", k) ==> k == j by {
        forall k | FirstAt(ts, ">>", k) ensures k == j { FindIsFirst(ts, ">>", k); }
      }
      Some(Output(ts[j + 1], Append))
    else None
  }

  /**
   * The argument vector as the source builds it: the tokens before the first
   * `<` if there is one, otherwise before the first `>`, otherwise before the
   * first `>>`, otherwise all of them. The preference ignores where the
   * operators stand.
   */
  function ExecArgv(ts: seq<string>): (argv: seq<string>)
    ensures forall i :: FirstAt(ts, "<", i) ==> argv == ts[..i]
    ensures "<" !in ts ==> forall i :: FirstAt(ts, ">", i) ==> argv == ts[..i]
    ensures "<" !in ts && ">" !in ts ==> forall i :: FirstAt(ts, ">>", i) ==> argv == ts[..i]
    ensures !("<" in ts || ">" in ts || ">>" in ts) ==> argv == ts
    ensures |argv| <= |ts| && argv == ts[..|argv|]
    ensures |argv| < |ts| ==> IsOperator(ts[|argv|])
  {
    var i1 := Find(ts, "<");
    var i2 := Find(ts, ">");
    var i3 := Find(ts, ">>");
    FirstAtUnique(ts, "<", i1);
    FirstAtUnique(ts, ">", i2);
    FirstAtUnique(ts, ">>", i3);
    if i1 != -1 then ts[..i1]
    else if i2 != -1 then ts[..i2]
    else if i3 != -1 then ts[..i3]
    else ts
  }

  /** Only the position strvec_find reports is a first occurrence. */
  lemma FirstAtUnique(ts: seq<string>, x: string, r: int)
    requires r == Find(ts, x)
    ensures forall k :: FirstAt(ts, x, k) ==> k == r
  {
  }

  /** Everything run_command decides before exec. */
  function PlanCommand(ts: seq<string>): Plan
    requires OperandsPresent(ts)
  {
    Plan(InputFile(ts), OutputFile(ts), ExecArgv(ts))
  }

  /**
   * run_command from the redirections on: the input file is opened first and
   * its failure ends the child before the output file is touched; any failure
   * to open or dup2 returns -1 instead of reaching exec.
   */
  function RunCommand(ts: seq<string>, inputOpens: Sys, outputOpens: Sys): (r: Launch)
    requires OperandsPresent(ts)
    ensures r.RedirectFailed? <==>
      ("<" in ts && inputOpens.Fail?) || ((">" in ts || ">>" in ts) && outputOpens.Fail?)
    ensures r.RedirectFailed? ==> (r.stage == InputStage <==> "<" in ts && inputOpens.Fail?)
    ensures r.Exec? ==> r.plan.input.None? == ("<" !in ts) && r.plan.argv == ExecArgv(ts)
    ensures r.Exec? ==> r.plan == PlanCommand(ts)
  {
    var plan := PlanCommand(ts);
    if plan.input.Some? && inputOpens.Fail? then RedirectFailed(InputStage)
    else if plan.output.Some? && outputOpens.Fail? then RedirectFailed(OutputStage)
    else Exec(plan)
  }

  /**
   * The argument vector the operator-removal step evidently means: every
   * token before the first redirection operator, wherever it stands.
   */
  function ArgvBeforeFirstOperator(ts: seq<string>): (argv: seq<string>)
    ensures |argv| <= |ts| && argv == ts[..|argv|]
    ensures forall w :: w in argv ==> !IsOperator(w)
    ensures |argv| < |ts| ==> IsOperator(ts[|argv|])
  {
    if ts == [] || IsOperator(ts[0]) then []
    else
      var rest := ArgvBeforeFirstOperator(ts[1..]);
      assert ts[..|rest| + 1] == [ts[0]] + ts[1..][..|rest|];
      [ts[0]] + rest
  }

  /** A prefix free of operators that stops at an operator (or the end) is the one before the first operator. */
  lemma OperatorFreePrefixIsUnique(ts: seq<string>, p: seq<string>)
    requires |p| <= |ts| && p == ts[..|p|]
    requires forall w :: w in p ==> !IsOperator(w)
    requires |p| < |ts| ==> IsOperator(ts[|p|])
    ensures p == ArgvBeforeFirstOperator(ts)
  {
  }

  /**
   * The source's argument vector is the intended one exactly when it holds no
   * operator, which is when the preferred operator is also the leftmost one.
   */
  lemma ExecArgvIntendedIff(ts: seq<string>)
    ensures ExecArgv(ts) == ArgvBeforeFirstOperator(ts) <==> forall w :: w in ExecArgv(ts) ==> !IsOperator(w)
  {
  }

  /** `cat > out < in`: the input operator wins, so `>` and its operand reach cat as arguments. */
  lemma ExecArgvKeepsEarlierOutputOperator()
    ensures ExecArgv(["cat", ">", "out", "<", "in"]) == ["cat", ">", "out"]
    ensures ArgvBeforeFirstOperator(["cat", ">", "out", "<", "in"]) == ["cat"]
  {
  }
}
