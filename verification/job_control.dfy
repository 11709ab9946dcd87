/**
 * resume_job, await_background_job and await_all_background_jobs as
 * transitions of the shell state: the job table and the foreground process
 * group of the controlling terminal. Each OS call is an input.
 */
module JobControl {

  import opened Wrappers
  import opened Os
  import opened JobTable

  datatype State = State(jobs: Table, owner: Owner)

  /** The C return code (0 or -1) and the state afterwards. */
  datatype Reply = Reply(rc: int, state: State)

  /**
   * resume_job with is_foreground set: hand the terminal to the job, send
   * SIGCONT, wait; a terminated job leaves the table; the shell takes the
   * terminal back only when every earlier step succeeded.
   */
  function ResumeForeground(s: State, index: int, handoff: Sys, cont: Sys, wait: WaitResult, reclaim: Sys): (r: Reply)
    requires 0 <= index < |s.jobs|
    ensures handoff.Fail? ==> r == Reply(-1, s)
    ensures r.rc == 0 || r.rc == -1
    ensures r.rc == 0 <==> handoff.Ok? && cont.Ok? && !wait.WaitError? && reclaim.Ok?
    ensures r.rc == 0 ==> r.state.owner == Shell
    ensures handoff.Ok? && (cont.Fail? || wait.WaitError?) ==>
      r.state == State(s.jobs, Group(s.jobs[index].pid))
    ensures handoff.Ok? && cont.Ok? && wait.ChildTerminated? ==> ShiftedOut(s.jobs, index, r.state.jobs)
    ensures wait.ChildStopped? ==> r.state.jobs == s.jobs
    ensures handoff.Ok? && cont.Ok? && !wait.WaitError? && reclaim.Fail? ==>
      r.rc == -1 && r.state.owner == Group(s.jobs[index].pid)
  {
    var job := s.jobs[index];
    if handoff.Fail? then Reply(-1, s)
    else
      var handed := s.(owner := Group(job.pid));
      if cont.Fail? || wait.WaitError? then Reply(-1, handed)
      else
        var remaining := if wait.ChildTerminated? then Remove(s.jobs, index) else Some(s.jobs);
        match remaining
        case None => Reply(-1, handed)
        case Some(t) =>
          if reclaim.Fail? then Reply(-1, State(t, Group(job.pid)))
          else Reply(0, State(t, Shell))
  }

  /**
   * resume_job with is_foreground clear: SIGCONT, then the entry is tagged
   * BACKGROUND; no wait and no terminal change.
   */
  function ResumeBackground(s: State, index: int, cont: Sys): (r: Reply)
    requires 0 <= index < |s.jobs|
    ensures cont.Fail? ==> r == Reply(-1, s)
    ensures cont.Ok? ==> r.rc == 0
    ensures r.state.owner == s.owner && |r.state.jobs| == |s.jobs|
    ensures cont.Ok? ==> r.state.jobs[index] == s.jobs[index].(status := Background)
    ensures forall k :: 0 <= k < |s.jobs| && k != index ==> r.state.jobs[k] == s.jobs[k]
  {
    if cont.Fail? then Reply(-1, s)
    else
      var job := s.jobs[index];
      Reply(0, s.(jobs := s.jobs[index := job.(status := Background)]))
  }

  /** resume_job: an index outside the table fails with nothing changed. */
  function ResumeJob(s: State, index: int, foreground: bool, handoff: Sys, cont: Sys, wait: WaitResult, reclaim: Sys): (r: Reply)
    ensures !(0 <= index < |s.jobs|) ==> r == Reply(-1, s)
    ensures 0 <= index < |s.jobs| && foreground ==> r == ResumeForeground(s, index, handoff, cont, wait, reclaim)
    ensures 0 <= index < |s.jobs| && !foreground ==> r == ResumeBackground(s, index, cont)
  {
    match Get(s.jobs, index)
    case None => Reply(-1, s)
    case Some(_) =>
      if foreground then ResumeForeground(s, index, handoff, cont, wait, reclaim)
      else ResumeBackground(s, index, cont)
  }

  /**
   * await_background_job: only a BACKGROUND entry may be waited for; a
   * terminated job leaves the table, a stopped one stays tagged BACKGROUND.
   * The terminal is never touched.
   */
  function AwaitJob(s: State, index: int, wait: WaitResult): (r: Reply)
    ensures r.state.owner == s.owner
    ensures r.rc == 0 || r.rc == -1
    ensures !(0 <= index < |s.jobs|) ==> r == Reply(-1, s)
    ensures 0 <= index < |s.jobs| && s.jobs[index].status == Stopped ==> r == Reply(-1, s)
    ensures r.rc == 0 <==> 0 <= index < |s.jobs| && s.jobs[index].status == Background && !wait.WaitError?
    ensures wait.WaitError? ==> r.state == s
    ensures r.rc == 0 && wait.ChildTerminated? ==> ShiftedOut(s.jobs, index, r.state.jobs)
    ensures wait.ChildStopped? ==> r.state == s
  {
    match Get(s.jobs, index)
    case None => Reply(-1, s)
    case Some(job) =>
      assert job == s.jobs[index];
      if job.status == Stopped then Reply(-1, s)
      else if wait.WaitError? then Reply(-1, s)
      else if wait.ChildTerminated? then
        match Remove(s.jobs, index)
        case None => Reply(0, s)
        case Some(t) =>
          assert 0 <= index < |s.jobs|;
          assert s.jobs[index].status == Background;
          assert !wait.WaitError?;
          Reply(0, s.(jobs := t))
      else Reply(0, s)
  }

  /** After wait-for reports a stop, `jobs` still calls the job background. */
  lemma AwaitJobLeavesStoppedJobBackground(s: State, index: int)
    requires 0 <= index < |s.jobs| && s.jobs[index].status == Background
    ensures AwaitJob(s, index, ChildStopped) == Reply(0, s)
    ensures AwaitJob(s, index, ChildStopped).state.jobs[index].status == Background
  {
  }

  /** What the scan of wait-all does to one entry: a background job that reported a stop becomes STOPPED. */
  function Flip(j: Job, w: WaitResult): Job
  {
    if j.status == Background && w == ChildStopped then j.(status := Stopped) else j
  }

  /**
   * The table a successful wait-all should leave, entry by entry: STOPPED
   * entries stay as they are, background entries that stopped stay as
   * STOPPED, background entries that terminated are gone.
   */
  function Survivors(t: Table, waits: seq<WaitResult>): (r: Table)
    requires |waits| == |t|
    ensures forall j :: j in r ==> j.status == Stopped
    ensures |r| <= |t|
  {
    if t == [] then []
    else
      var head := if t[0].status == Stopped || waits[0] == ChildStopped then [Flip(t[0], waits[0])] else [];
      head + Survivors(t[1..], waits[1..])
  }

  /** Flipping every entry and then purging BACKGROUND entries yields the survivors. */
  lemma {:induction false} PurgeAfterScanIsSurvivors(t: Table, waits: seq<WaitResult>, scanned: Table)
    requires |waits| == |t| && |scanned| == |t|
    requires forall k :: 0 <= k < |t| ==> scanned[k] == Flip(t[k], waits[k])
    ensures RemoveByStatus(scanned, Background) == Survivors(t, waits)
    decreases |t|
  {
    if t != [] {
      assert forall k :: 0 <= k < |t| - 1 ==> scanned[1..][k] == Flip(t[1..][k], waits[1..][k]);
      PurgeAfterScanIsSurvivors(t[1..], waits[1..], scanned[1..]);
    }
  }

  /** No BACKGROUND entry's wait failed. */
  ghost predicate NoWaitError(t: Table, waits: seq<WaitResult>)
    requires |waits| == |t|
  {
    forall k :: 0 <= k < |t| && t[k].status == Background ==> waits[k] != WaitError
  }

  /** `k` is the first BACKGROUND entry whose wait failed. */
  ghost predicate FirstWaitError(t: Table, waits: seq<WaitResult>, k: int)
    requires |waits| == |t|
  {
    && 0 <= k < |t| && t[k].status == Background && waits[k] == WaitError
    && forall i :: 0 <= i < k && t[i].status == Background ==> waits[i] != WaitError
  }

  /** Position of the first BACKGROUND entry whose wait failed, or the table length if none did. */
  function FirstErrorAt(t: Table, waits: seq<WaitResult>): (k: nat)
    requires |waits| == |t|
    ensures k <= |t|
    ensures k < |t| ==> FirstWaitError(t, waits, k)
    ensures k == |t| ==> NoWaitError(t, waits)
  {
    if t == [] then 0
    else if t[0].status == Background && waits[0] == WaitError then 0
    else
      var k := FirstErrorAt(t[1..], waits[1..]);
      assert forall i :: 1 <= i < |t| ==> t[1..][i - 1] == t[i] && waits[1..][i - 1] == waits[i];
      1 + k
  }

  /** The table with the entries before position `k` put through the scan. */
  function FlipUpTo(t: Table, waits: seq<WaitResult>, k: nat): Table
    requires |waits| == |t|
  {
    seq(|t|, i requires 0 <= i < |t| => if i < k then Flip(t[i], waits[i]) else t[i])
  }

  /** The return code and table await_all_background_jobs produces. */
  function AwaitAllOutcome(t: Table, waits: seq<WaitResult>): (int, Table)
    requires |waits| == |t|
  {
    var k := FirstErrorAt(t, waits);
    if k < |t| then (-1, FlipUpTo(t, waits, k))
    else (0, RemoveByStatus(FlipUpTo(t, waits, |t|), Background))
  }

  /**
   * await_all_background_jobs: wait for every BACKGROUND entry in table
   * order, tagging stopped ones STOPPED in place; then drop every entry still
   * tagged BACKGROUND. A failed wait returns -1 at once, keeping the flips
   * made so far and removing nothing. `waits[k]` is what waitpid reports for
   * entry k (it is only consulted for BACKGROUND entries).
   */
  method AwaitAll(t: Table, waits: seq<WaitResult>) returns (rc: int, after: Table)
    requires |waits| == |t|
    ensures (rc, after) == AwaitAllOutcome(t, waits)
    ensures rc == 0 || rc == -1
    ensures rc == 0 <==> NoWaitError(t, waits)
    ensures rc == 0 ==> after == Survivors(t, waits)
    ensures rc == 0 ==> forall j :: j in after ==> j.status == Stopped
    ensures rc == -1 ==> |after| == |t| && exists k :: (FirstWaitError(t, waits, k) &&
      forall i :: 0 <= i < |t| ==> after[i] == (if i < k then Flip(t[i], waits[i]) else t[i]))
  {
    var jobs := t;
    var i := 0;
    while i < |jobs|
      invariant |jobs| == |t| && 0 <= i <= |t|
      invariant forall k :: 0 <= k < i ==> jobs[k] == Flip(t[k], waits[k])
      invariant forall k :: i <= k < |t| ==> jobs[k] == t[k]
      invariant forall k :: 0 <= k < i && t[k].status == Background ==> waits[k] != WaitError
    {
      if jobs[i].status == Background {
        if waits[i] == WaitError {
          assert FirstWaitError(t, waits, i);
          assert jobs == FlipUpTo(t, waits, i);
          return -1, jobs;
        }
        if waits[i] == ChildStopped {
          jobs := jobs[i := jobs[i].(status := Stopped)];
        }
      }
      i := i + 1;
    }
    assert jobs == FlipUpTo(t, waits, |t|);
    PurgeAfterScanIsSurvivors(t, waits, jobs);
    rc, after := 0, RemoveByStatus(jobs, Background);
  }

  /** Two background jobs, the first stops and the second exits: only the first remains, now STOPPED. */
  lemma AwaitAllOneStopsOneExits(a: Job, b: Job)
    requires a.status == Background && b.status == Background
    ensures AwaitAllOutcome([a, b], [ChildStopped, ChildTerminated]) == (0, [a.(status := Stopped)])
  {
    var t, w := [a, b], [ChildStopped, ChildTerminated];
    assert !FirstWaitError(t, w, 0) && !FirstWaitError(t, w, 1);
    assert FirstErrorAt(t, w) == 2;
    PurgeAfterScanIsSurvivors(t, w, FlipUpTo(t, w, |t|));
    assert t[1..] == [b] && w[1..] == [ChildTerminated];
    assert [b][1..] == [] && [ChildTerminated][1..] == [];
    assert Survivors([b], [ChildTerminated]) == [];
    assert Survivors(t, w) == [a.(status := Stopped)];
  }
}
