/**
 * The job table: an ordered sequence of jobs whose positions are the indices
 * the user types after `fg`, `bg` and `wait-for`. Positions are not stable:
 * removing an entry moves every later entry down by one.
 *
 * job_list.c is not part of this model. Removal carries as a contract what
 * its call sites rely on; get and add are plain definitions.
 */
module JobTable {

  import opened Wrappers
  import opened Os

  datatype Status = Background | Stopped

  datatype Job = Job(pid: Pid, name: string, status: Status)

  type Table = seq<Job>

  /** job_list_get: the entry at position `i`, or nothing when `i` is out of range. */
  function Get(t: Table, i: int): Option<Job>
  {
    if 0 <= i < |t| then Some(t[i]) else None
  }

  /** job_list_add: append at the tail. */
  function Add(t: Table, pid: Pid, name: string, status: Status): Table
  {
    t + [Job(pid, name, status)]
  }

  /** `u` is `t` with position `i` deleted: earlier entries stay put, later ones move down by one. */
  ghost predicate ShiftedOut(t: Table, i: int, u: Table)
  {
    && 0 <= i < |t|
    && |u| == |t| - 1
    && (forall k :: 0 <= k < i ==> u[k] == t[k])
    && (forall k :: i <= k < |u| ==> u[k] == t[k + 1])
  }

  /** job_list_remove: delete position `i`; fails exactly when `i` is out of range. */
  function Remove(t: Table, i: int): (r: Option<Table>)
    ensures r.Some? <==> 0 <= i < |t|
    ensures r.Some? ==> ShiftedOut(t, i, r.value)
  {
    if 0 <= i < |t| then Some(t[..i] + t[i + 1..]) else None
  }

  /** Putting the removed entry back at its position restores the table. */
  lemma RemoveThenReinsert(t: Table, i: int)
    requires 0 <= i < |t|
    ensures var u := Remove(t, i).value; u[..i] + [t[i]] + u[i..] == t
  {
  }

  /** job_list_remove_by_status: drop every entry with status `s`, survivors in order. */
  function RemoveByStatus(t: Table, s: Status): (r: Table)
    ensures |r| <= |t|
    ensures forall j :: j in r <==> j in t && j.status != s
  {
    if t == [] then []
    else if t[0].status == s then RemoveByStatus(t[1..], s)
    else [t[0]] + RemoveByStatus(t[1..], s)
  }

  /** Removal by status works piecewise, so survivors keep their relative order. */
  lemma {:induction false} RemoveByStatusAppend(a: Table, b: Table, s: Status)
    ensures RemoveByStatus(a + b, s) == RemoveByStatus(a, s) + RemoveByStatus(b, s)
    decreases |a|
  {
    if a == [] {
      assert a + b == b;
    } else {
      assert (a + b)[0] == a[0];
      assert (a + b)[1..] == a[1..] + b;
      RemoveByStatusAppend(a[1..], b, s);
    }
  }

  function Pids(t: Table): set<Pid>
  {
    set j | j in t :: j.pid
  }

  /** No two entries share a pid. */
  ghost predicate DistinctPids(t: Table)
  {
    forall i, j :: 0 <= i < j < |t| ==> t[i].pid != t[j].pid
  }

  lemma AddFreshKeepsDistinct(t: Table, pid: Pid, name: string, status: Status)
    requires DistinctPids(t) && pid !in Pids(t)
    ensures DistinctPids(Add(t, pid, name, status))
  {
  }

  lemma RemoveKeepsDistinct(t: Table, i: int)
    requires DistinctPids(t) && 0 <= i < |t|
    ensures DistinctPids(Remove(t, i).value)
  {
  }

  /** A table is distinct exactly when its head's pid is new to a distinct tail. */
  lemma DistinctCons(h: Job, t: Table)
    ensures DistinctPids([h] + t) <==> DistinctPids(t) && h.pid !in Pids(t)
  {
    var u := [h] + t;
    assert forall k :: 0 <= k < |t| ==> u[k + 1] == t[k];
    if DistinctPids(u) {
      assert h.pid !in Pids(t) by {
        forall j | j in t ensures j.pid != h.pid {
          var k :| 0 <= k < |t| && t[k] == j;
          assert u[0].pid != u[k + 1].pid;
        }
      }
    }
    if DistinctPids(t) && h.pid !in Pids(t) {
      forall a, b | 0 <= a < b < |u| ensures u[a].pid != u[b].pid {
        if a == 0 {
          assert u[b] in t;
        } else {
          assert u[a] == t[a - 1] && u[b] == t[b - 1];
        }
      }
    }
  }

  lemma {:induction false} RemoveByStatusKeepsDistinct(t: Table, s: Status)
    requires DistinctPids(t)
    ensures DistinctPids(RemoveByStatus(t, s))
    decreases |t|
  {
    if t != [] {
      assert t == [t[0]] + t[1..];
      DistinctCons(t[0], t[1..]);
      RemoveByStatusKeepsDistinct(t[1..], s);
      DistinctCons(t[0], RemoveByStatus(t[1..], s));
    }
  }
}
