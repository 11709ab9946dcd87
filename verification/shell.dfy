/**
 * One turn of main's read-eval loop: strip the newline, tokenize, dispatch
 * on the first token, and for an external command launch it in the
 * background (trailing `&`) or in the foreground with the terminal handed
 * over. The loop as a whole ends with 0 on `exit` or end of input and with
 * 1 on a line that holds no token.
 */
module Shell {

  import opened Os
  import opened JobTable
  import opened Tokens
  import opened JobControl
  import opened Listing
  import Redirect

  datatype Command = Pwd | Cd | Exit | Jobs | Fg | Bg | WaitFor | WaitAll | External

  /** The built-in names, in the order main compares against them. */
  const Builtins: seq<string> := ["pwd", "cd", "exit", "jobs", "fg", "bg", "wait-for", "wait-all"]

  function Keyword(c: Command): string
    requires !c.External?
  {
    match c
    case Pwd => "pwd"
    case Cd => "cd"
    case Exit => "exit"
    case Jobs => "jobs"
    case Fg => "fg"
    case Bg => "bg"
    case WaitFor => "wait-for"
    case WaitAll => "wait-all"
  }

  /** main's strcmp chain: a built-in exactly when the first token is one of the names. */
  function Classify(first: string): (c: Command)
    ensures c.External? <==> first !in Builtins
    ensures !c.External? ==> Keyword(c) == first
  {
    if first == "pwd" then Pwd
    else if first == "cd" then Cd
    else if first == "exit" then Exit
    else if first == "jobs" then Jobs
    else if first == "fg" then Fg
    else if first == "bg" then Bg
    else if first == "wait-for" then WaitFor
    else if first == "wait-all" then WaitAll
    else External
  }

  /** The tokens of one line as main sees them. */
  function LineTokens(cmd: string): seq<string>
    requires '\n' in cmd
  {
    Words(StripNewline(cmd))
  }

  /** The command is exactly the text before the first newline or NUL byte, whatever follows. */
  lemma StripNewlineOf(text: string, stop: char, rest: string)
    requires '\n' !in text && '\0' !in text
    requires stop == '\n' || (stop == '\0' && '\n' in rest)
    ensures StripNewline(text + [stop] + rest) == text
  {
    var cmd := text + [stop] + rest;
    assert cmd[|text|] == stop;
    assert forall k :: 0 <= k < |text| ==> cmd[k] == text[k] && text[k] in text;
    assert cmd[..|text|] == text;
  }

  predicate RunsInBackground(ts: seq<string>)
  {
    |ts| > 0 && ts[|ts| - 1] == "&"
  }

  /** The tokens the forked child hands to run_command: a trailing `&` is dropped. */
  function ChildTokens(ts: seq<string>): (r: seq<string>)
    ensures RunsInBackground(ts) ==> r + ["&"] == ts
    ensures !RunsInBackground(ts) ==> r == ts
  {
    if RunsInBackground(ts) then ts[..|ts| - 1] else ts
  }

  /**
   * Background launch, parent side: a new BACKGROUND entry named after the
   * first token at the tail, no wait, terminal untouched; nothing on a
   * failed fork.
   */
  function LaunchBackground(s: State, first: string, fork: Fork): (r: State)
    ensures r.owner == s.owner
    ensures fork.ForkFailed? ==> r == s
    ensures fork.Forked? ==> |r.jobs| == |s.jobs| + 1 && r.jobs[..|s.jobs|] == s.jobs
    ensures fork.Forked? ==> r.jobs[|s.jobs|] == Job(fork.pid, first, Background)
  {
    match fork
    case ForkFailed => s
    case Forked(pid) => s.(jobs := Add(s.jobs, pid, first, Background))
  }

  /**
   * Foreground launch, parent side: the terminal goes to the child, the
   * shell waits, a stopped child becomes a STOPPED entry, and the shell asks
   * for the terminal back. A failed handoff skips the wait; a failed wait
   * leaves the terminal with the child.
   */
  function LaunchForeground(s: State, first: string, fork: Fork, handoff: Sys, wait: WaitResult, reclaim: Sys): (r: State)
    ensures fork.ForkFailed? || handoff.Fail? ==> r == s
    ensures |r.jobs| == |s.jobs| + 1 <==> fork.Forked? && handoff.Ok? && wait.ChildStopped?
    ensures r.jobs == s.jobs || r.jobs == s.jobs + [Job(fork.pid, first, Stopped)]
    ensures fork.Forked? && handoff.Ok? && wait.WaitError? ==> r == State(s.jobs, Group(fork.pid))
    ensures fork.Forked? && handoff.Ok? && !wait.WaitError? ==>
      r.owner == (if reclaim.Ok? then Shell else Group(fork.pid))
  {
    match fork
    case ForkFailed => s
    case Forked(pid) =>
      if handoff.Fail? then s
      else if wait.WaitError? then State(s.jobs, Group(pid))
      else
        var jobs := if wait.ChildStopped? then Add(s.jobs, pid, first, Stopped) else s.jobs;
        State(jobs, if reclaim.Ok? then Shell else Group(pid))
  }

  /**
   * The outcomes of the OS calls one line may make, and the index sscanf
   * would read from the second token of `fg`, `bg` and `wait-for`.
   * `scan(k)` is what waitpid reports for entry k during `wait-all`.
   */
  datatype Env = Env(
    index: int,
    fork: Fork,
    handoff: Sys,
    cont: Sys,
    wait: WaitResult,
    reclaim: Sys,
    scan: int -> WaitResult)

  /** What main does next: go on with a new state and some printed lines, or return an exit code. */
  datatype Next = Continue(state: State, output: seq<string>) | Quit(code: int)

  /** A built-in's reply: its state, and the failure message printed exactly when it returned -1. */
  function Report(r: Reply, failure: string): (n: Next)
    ensures n.Continue? && n.state == r.state
    ensures n.output != [] <==> r.rc == -1
    ensures n.output != [] ==> n.output == [failure]
  {
    Continue(r.state, if r.rc == -1 then [failure] else [])
  }

  function WaitAllReply(s: State, scan: int -> WaitResult): Reply
  {
    var waits := seq(|s.jobs|, k => scan(k));
    var (rc, jobs) := AwaitAllOutcome(s.jobs, waits);
    Reply(rc, s.(jobs := jobs))
  }

  /**
   * What the forked child does with the tokens of an external command:
   * run_command on them after a trailing `&` is taken off. A failed
   * redirection ends the child with status 1 instead of an exec.
   */
  function ChildLaunch(ts: seq<string>, inputOpens: Sys, outputOpens: Sys): (r: Redirect.Launch)
    requires Redirect.OperandsPresent(ChildTokens(ts))
    ensures r.Exec? ==> |r.plan.argv| <= |ts| && r.plan.argv == ts[..|r.plan.argv|]
    ensures r.Exec? && RunsInBackground(ts) ==> |r.plan.argv| < |ts|
    ensures r.Exec? && !RunsInBackground(ts) && !(exists k | 0 <= k < |ts| :: Redirect.IsOperator(ts[k])) ==>
      r.plan.argv == ts
  {
    Redirect.RunCommand(ChildTokens(ts), inputOpens, outputOpens)
  }

  /**
   * A background line's child plans exactly the line without its `&`, so the
   * `&` never reaches exec; a foreground line's child plans the whole line.
   */
  lemma ChildPlansLine(ts: seq<string>, inputOpens: Sys, outputOpens: Sys)
    requires Redirect.OperandsPresent(ChildTokens(ts))
    ensures RunsInBackground(ts) ==>
      ChildLaunch(ts, inputOpens, outputOpens) == Redirect.RunCommand(ts[..|ts| - 1], inputOpens, outputOpens)
    ensures RunsInBackground(ts) && ChildLaunch(ts, inputOpens, outputOpens).Exec? ==>
      ChildLaunch(ts, inputOpens, outputOpens).plan.argv == Redirect.ExecArgv(ts[..|ts| - 1])
    ensures (RunsInBackground(ts) && ChildLaunch(ts, inputOpens, outputOpens).Exec? &&
             !(exists k | 0 <= k < |ts| - 1 :: Redirect.IsOperator(ts[k]))) ==>
      ChildLaunch(ts, inputOpens, outputOpens).plan.argv == ts[..|ts| - 1]
    ensures !RunsInBackground(ts) ==>
      ChildLaunch(ts, inputOpens, outputOpens) == Redirect.RunCommand(ts, inputOpens, outputOpens)
  {
  }

  /**
   * The parent's side of an external command: a failed fork prints
   * `error in fork!` and changes nothing; otherwise a trailing `&` selects the
   * background launch and anything else the foreground launch.
   */
  function ExternalCommand(s: State, ts: seq<string>, env: Env): (r: Next)
    requires |ts| > 0
    ensures r.Continue?
    ensures env.fork.ForkFailed? ==> r == Continue(s, ["error in fork!"])
    ensures env.fork.Forked? ==> r.output == []
    ensures RunsInBackground(ts) ==> r.state == LaunchBackground(s, ts[0], env.fork)
    ensures !RunsInBackground(ts) ==>
      r.state == LaunchForeground(s, ts[0], env.fork, env.handoff, env.wait, env.reclaim)
  {
    var state :=
      if RunsInBackground(ts) then LaunchBackground(s, ts[0], env.fork)
      else LaunchForeground(s, ts[0], env.fork, env.handoff, env.wait, env.reclaim);
    Continue(state, if env.fork.ForkFailed? then ["error in fork!"] else [])
  }

  /** One iteration of main's loop on the line `cmd` read by fgets. */
  function Step(s: State, cmd: string, env: Env): (r: Next)
    requires '\n' in cmd
    ensures r.Quit? <==> LineTokens(cmd) == [] || LineTokens(cmd)[0] == "exit"
    ensures r.Quit? ==> r.code == (if LineTokens(cmd) == [] then 1 else 0)
    ensures LineTokens(cmd) != [] && LineTokens(cmd)[0] in ["pwd", "cd", "jobs"] ==> r.Continue? && r.state == s
    ensures LineTokens(cmd) != [] && LineTokens(cmd)[0] == "jobs" ==> r.output == JobsListing(s.jobs)
    ensures r.Continue? && LineTokens(cmd)[0] in Builtins ==> |r.state.jobs| <= |s.jobs|
    ensures r.Continue? && LineTokens(cmd)[0] !in Builtins && RunsInBackground(LineTokens(cmd)) ==>
      r.state.owner == s.owner
  {
    var ts := LineTokens(cmd);
    if ts == [] then Quit(1)
    else
      match Classify(ts[0])
      case Pwd => Continue(s, [])
      case Cd => Continue(s, [])
      case Exit => Quit(0)
      case Jobs => Continue(s, JobsListing(s.jobs))
      case Fg => Report(ResumeJob(s, env.index, true, env.handoff, env.cont, env.wait, env.reclaim),
                        "Failed to resume job in foreground")
      case Bg => Report(ResumeJob(s, env.index, false, env.handoff, env.cont, env.wait, env.reclaim),
                        "Failed to resume job in background")
      case WaitFor => Report(AwaitJob(s, env.index, env.wait), "Failed to wait for background job")
      case WaitAll => Report(WaitAllReply(s, env.scan), "Failed to wait for all background jobs")
      case External => ExternalCommand(s, ts, env)
  }

  /**
   * `fg`, `bg`, `wait-for` and `wait-all` run resume_job, await_background_job
   * and await_all_background_jobs on the current state, and print their
   * failure message exactly when the operation returns -1.
   */
  lemma StepJobControl(s: State, cmd: string, env: Env)
    requires '\n' in cmd && LineTokens(cmd) != []
    ensures LineTokens(cmd)[0] == "fg" ==>
      Step(s, cmd, env) == Report(ResumeJob(s, env.index, true, env.handoff, env.cont, env.wait, env.reclaim),
                                  "Failed to resume job in foreground")
    ensures LineTokens(cmd)[0] == "bg" ==>
      Step(s, cmd, env) == Report(ResumeJob(s, env.index, false, env.handoff, env.cont, env.wait, env.reclaim),
                                  "Failed to resume job in background")
    ensures LineTokens(cmd)[0] == "wait-for" ==>
      Step(s, cmd, env) == Report(AwaitJob(s, env.index, env.wait), "Failed to wait for background job")
    ensures LineTokens(cmd)[0] == "wait-all" ==>
      Step(s, cmd, env) == Report(WaitAllReply(s, env.scan), "Failed to wait for all background jobs")
  {
  }

  /** A built-in looks at its first token only, so a trailing `&` on its line changes nothing. */
  lemma BuiltinIgnoresAmpersand(s: State, cmd: string, cmd': string, env: Env)
    requires '\n' in cmd && '\n' in cmd'
    requires LineTokens(cmd) != [] && LineTokens(cmd)[0] in Builtins
    requires LineTokens(cmd') == LineTokens(cmd) + ["&"]
    ensures Step(s, cmd', env) == Step(s, cmd, env)
  {
    assert LineTokens(cmd')[0] == LineTokens(cmd)[0];
  }

  /** A NUL byte ends the command early: `\0pwd` holds no token, so main returns 1. */
  lemma LeadingNulEndsShell(s: State, env: Env)
    ensures Step(s, "\0pwd\n", env) == Quit(1)
  {
    assert StripNewline("\0pwd\n") == "";
  }

  /** main's loop over the lines read until end of input; the result is main's return value. */
  function Run(s: State, cmds: seq<string>, envs: seq<Env>): int
    requires |envs| == |cmds|
    requires forall c :: c in cmds ==> '\n' in c
    decreases |cmds|
  {
    if cmds == [] then 0
    else
      assert cmds[0] in cmds;
      assert forall c :: c in cmds[1..] ==> c in cmds;
      match Step(s, cmds[0], envs[0])
      case Quit(code) => code
      case Continue(next, _) => Run(next, cmds[1..], envs[1..])
  }

  /** The exit status read off the lines alone: 1 if a token-less line comes before any `exit`, else 0. */
  function ExpectedExit(cmds: seq<string>): int
    requires forall c :: c in cmds ==> '\n' in c
    decreases |cmds|
  {
    if cmds == [] then 0
    else
      assert cmds[0] in cmds;
      assert forall c :: c in cmds[1..] ==> c in cmds;
      var ts := LineTokens(cmds[0]);
      if ts == [] then 1
      else if ts[0] == "exit" then 0
      else ExpectedExit(cmds[1..])
  }

  /** main's exit status depends on the lines only, never on the jobs or on any OS outcome. */
  lemma {:induction false} RunExitCode(s: State, cmds: seq<string>, envs: seq<Env>)
    requires |envs| == |cmds|
    requires forall c :: c in cmds ==> '\n' in c
    ensures Run(s, cmds, envs) == ExpectedExit(cmds)
    decreases |cmds|
  {
    if cmds != [] {
      assert cmds[0] in cmds;
      assert forall c :: c in cmds[1..] ==> c in cmds;
      match Step(s, cmds[0], envs[0])
      case Quit(code) =>
      case Continue(next, _) => RunExitCode(next, cmds[1..], envs[1..]);
    }
  }

  /** What every reachable state satisfies: pids are distinct and names are tokens. */
  ghost predicate Wf(s: State)
  {
    DistinctPids(s.jobs) && forall j :: j in s.jobs ==> IsToken(j.name)
  }

  /** fork hands the parent a pid no tracked job has. */
  ghost predicate ForkIsFresh(s: State, env: Env)
  {
    env.fork.Forked? ==> env.fork.pid !in Pids(s.jobs)
  }

  /** Every line keeps the table well formed, provided fork returns a pid not already tracked. */
  lemma StepPreservesWf(s: State, cmd: string, env: Env)
    requires '\n' in cmd
    requires Wf(s) && ForkIsFresh(s, env)
    ensures Step(s, cmd, env).Continue? ==> Wf(Step(s, cmd, env).state)
  {
    var ts := LineTokens(cmd);
    if ts != [] {
      assert ts[0] in ts;
      match Classify(ts[0])
      case Fg =>
        if 0 <= env.index < |s.jobs| {
          RemoveStaysWf(s, env.index);
        }
      case Bg =>
        if 0 <= env.index < |s.jobs| {
          var t := s.jobs[env.index := s.jobs[env.index].(status := Background)];
          assert forall k :: 0 <= k < |t| ==> t[k].pid == s.jobs[k].pid && t[k].name == s.jobs[k].name;
          assert forall j :: j in t ==> IsToken(j.name) by {
            forall j | j in t ensures IsToken(j.name) {
              var k :| 0 <= k < |t| && t[k] == j;
              assert s.jobs[k] in s.jobs;
            }
          }
        }
      case WaitFor =>
        if 0 <= env.index < |s.jobs| {
          RemoveStaysWf(s, env.index);
        }
      case WaitAll =>
        WaitAllStaysWf(s, env.scan);
      case External =>
        if env.fork.Forked? {
          AddFreshKeepsDistinct(s.jobs, env.fork.pid, ts[0], Background);
          AddFreshKeepsDistinct(s.jobs, env.fork.pid, ts[0], Stopped);
        }
      case _ =>
    }
  }

  lemma RemoveStaysWf(s: State, i: int)
    requires Wf(s) && 0 <= i < |s.jobs|
    ensures Wf(s.(jobs := Remove(s.jobs, i).value))
  {
  }

  lemma WaitAllStaysWf(s: State, scan: int -> WaitResult)
    requires Wf(s)
    ensures Wf(WaitAllReply(s, scan).state)
  {
    var waits := seq(|s.jobs|, k => scan(k));
    var k := FirstErrorAt(s.jobs, waits);
    var flipped := FlipUpTo(s.jobs, waits, k);
    assert forall i :: 0 <= i < |s.jobs| ==> flipped[i].pid == s.jobs[i].pid && flipped[i].name == s.jobs[i].name;
    assert forall j :: j in flipped ==> IsToken(j.name) by {
      forall j | j in flipped ensures IsToken(j.name) {
        var i :| 0 <= i < |flipped| && flipped[i] == j;
        assert s.jobs[i] in s.jobs;
      }
    }
    assert DistinctPids(flipped);
    if k == |s.jobs| {
      RemoveByStatusKeepsDistinct(flipped, Background);
    }
  }

  lemma LineTokensOf(text: string, ws: seq<string>)
    requires '\n' !in text && '\0' !in text
    requires forall w :: w in ws ==> IsToken(w)
    requires Join(ws) == text
    ensures LineTokens(text + "\n") == ws
  {
    StripNewlineOf(text, '\n', "");
    assert text + ['\n'] + "" == text + "\n";
    WordsOfJoin(ws);
  }

  /** An external command line goes to the launcher with all its tokens. */
  lemma StepExternal(s: State, cmd: string, env: Env)
    requires '\n' in cmd && LineTokens(cmd) != [] && LineTokens(cmd)[0] !in Builtins
    ensures Step(s, cmd, env) == ExternalCommand(s, LineTokens(cmd), env)
  {
  }

  lemma SleepLineTokens()
    ensures LineTokens("sleep 5 &\n") == ["sleep", "5", "&"]
  {
    var ts := ["sleep", "5", "&"];
    assert ts[1..] == ["5", "&"] && ts[1..][1..] == ["&"];
    assert Join(["&"]) == "&";
    assert Join(["5", "&"]) == "5 &";
    assert "sleep 5 &" + "\n" == "sleep 5 &\n";
    LineTokensOf("sleep 5 &", ts);
  }

  /** `sleep 5 &` on an empty table records one background job named sleep and leaves the terminal alone. */
  lemma SleepInBackground(pid: Pid, env: Env)
    requires env.fork == Forked(pid)
    ensures Step(State([], Shell), "sleep 5 &\n", env) == Continue(State([Job(pid, "sleep", Background)], Shell), [])
  {
    SleepLineTokens();
    assert Classify("sleep") == External;
    StepExternal(State([], Shell), "sleep 5 &\n", env);
    assert RunsInBackground(["sleep", "5", "&"]);
  }

  lemma JobsLineTokens()
    ensures LineTokens("jobs\n") == ["jobs"]
  {
    assert Join(["jobs"]) == "jobs";
    assert "jobs" + "\n" == "jobs\n";
    LineTokensOf("jobs", ["jobs"]);
  }

  lemma SleepJobLine(pid: Pid)
    ensures JobsListing([Job(pid, "sleep", Background)]) == ["0: sleep (background)"]
  {
    assert Decimal(0) == "0";
    assert JobLine(0, Job(pid, "sleep", Background)) == "0: sleep (background)";
  }

  /** `jobs` then prints that job as entry 0. */
  lemma SleepListed(pid: Pid, env: Env)
    ensures Step(State([Job(pid, "sleep", Background)], Shell), "jobs\n", env).output == ["0: sleep (background)"]
  {
    JobsLineTokens();
    SleepJobLine(pid);
  }
}
