/** The table of query locks that cleans itself (lsfmgr/monitor.py): an entry is created by the
    first user of a jobset and deleted by the last, and queries of one jobset never overlap. */
module LockTable {
  datatype Thread =
    | Outside
    | Waiting(jobset: string, entry: nat)   // counted as a user, lock not yet taken
    | Querying(jobset: string, entry: nat)  // inside, lock held
    | Leaving(jobset: string, entry: nat)   // lock released, still counted
  {
    predicate Uses(e: nat) {
      !Outside? && entry == e
    }
  }

  /** table: jobset to lock entry; users: the count inside each entry object ever made. */
  datatype System = System(table: map<string, nat>, users: map<nat, int>, held: map<nat, nat>, threads: seq<Thread>,
                           next: nat)

  datatype Action = Spawn | Enter(t: nat, jobset: string) | Acquire(t: nat) | Finish(t: nat) | Leave(t: nat)

  function DoEnter(s: System, t: nat, jobset: string): System {
    if t < |s.threads| && s.threads[t].Outside? then
      var e := if jobset in s.table then s.table[jobset] else s.next;
      s.(table := s.table[jobset := e],
         users := s.users[e := (if jobset in s.table && e in s.users then s.users[e] else 0) + 1],
         next := if jobset in s.table then s.next else s.next + 1,
         threads := s.threads[t := Waiting(jobset, e)])
    else s
  }

  function DoAcquire(s: System, t: nat): System {
    if t < |s.threads| && s.threads[t].Waiting? && s.threads[t].entry !in s.held then
      s.(held := s.held[s.threads[t].entry := t],
         threads := s.threads[t := Querying(s.threads[t].jobset, s.threads[t].entry)])
    else s
  }

  function DoFinish(s: System, t: nat): System {
    if t < |s.threads| && s.threads[t].Querying? then
      s.(held := s.held - {s.threads[t].entry},
         threads := s.threads[t := Leaving(s.threads[t].jobset, s.threads[t].entry)])
    else s
  }

  /** The entry goes only with its last user, and only if the table still names it. */
  function DoLeave(s: System, t: nat): System {
    if t < |s.threads| && s.threads[t].Leaving? then
      var js, e := s.threads[t].jobset, s.threads[t].entry;
      var n := (if e in s.users then s.users[e] else 0) - 1;
      s.(users := s.users[e := n],
         table := if n <= 0 && js in s.table && s.table[js] == e then s.table - {js} else s.table,
         threads := s.threads[t := Outside])
    else s
  }

  function Next(s: System, a: Action): System {
    match a
    case Spawn => s.(threads := s.threads + [Outside])
    case Enter(t, jobset) => DoEnter(s, t, jobset)
    case Acquire(t) => DoAcquire(s, t)
    case Finish(t) => DoFinish(s, t)
    case Leave(t) => DoLeave(s, t)
  }

  function After(actions: seq<Action>): System {
    if actions == [] then System(map[], map[], map[], [], 0)
    else Next(After(actions[..|actions| - 1]), actions[|actions| - 1])
  }

  function CountUsers(threads: seq<Thread>, e: nat): nat {
    if threads == [] then 0
    else CountUsers(threads[..|threads| - 1], e) + (if threads[|threads| - 1].Uses(e) then 1 else 0)
  }

  lemma {:induction false} CountChange(threads: seq<Thread>, t: nat, to: Thread, e: nat)
    requires t < |threads|
    ensures CountUsers(threads[t := to], e) + (if threads[t].Uses(e) then 1 else 0)
         == CountUsers(threads, e) + (if to.Uses(e) then 1 else 0)
  {
    var n := |threads| - 1;
    if t == n {
      assert threads[t := to][..n] == threads[..n];
    } else {
      CountChange(threads[..n], t, to, e);
      assert threads[t := to][..n] == threads[..n][t := to];
    }
  }

  lemma {:induction false} NobodyCounts(threads: seq<Thread>, e: nat)
    requires forall t :: 0 <= t < |threads| ==> !threads[t].Uses(e)
    ensures CountUsers(threads, e) == 0
  {
    if threads == [] {
    } else {
      NobodyCounts(threads[..|threads| - 1], e);
    }
  }

  lemma SomebodyCounts(threads: seq<Thread>, t: nat)
    requires t < |threads| && !threads[t].Outside?
    ensures CountUsers(threads, threads[t].entry) > 0
  {
    CountChange(threads, t, Outside, threads[t].entry);
  }

  ghost predicate TableAgrees(s: System) {
    && (forall js <- s.table :: s.table[js] < s.next && s.table[js] in s.users
                                && s.users[s.table[js]] == CountUsers(s.threads, s.table[js]) > 0)
    && (forall a, b :: a in s.table && b in s.table && a != b ==> s.table[a] != s.table[b])
  }

  ghost predicate ThreadsAgree(s: System) {
    && (forall t :: 0 <= t < |s.threads| && !s.threads[t].Outside? ==>
          s.threads[t].jobset in s.table && s.table[s.threads[t].jobset] == s.threads[t].entry)
    && (forall t: nat :: t < |s.threads| && s.threads[t].Querying? ==>
          s.threads[t].entry in s.held && s.held[s.threads[t].entry] == t)
    && (forall e <- s.held ::
          s.held[e] < |s.threads| && s.threads[s.held[e]].Querying? && s.threads[s.held[e]].entry == e)
  }

  ghost predicate Inv(s: System) {
    TableAgrees(s) && ThreadsAgree(s)
  }

  lemma SpawnKeeps(s: System)
    requires Inv(s)
    ensures Inv(Next(s, Spawn))
  {
    assert forall e :: CountUsers(s.threads + [Outside], e) == CountUsers(s.threads, e) by {
      assert (s.threads + [Outside])[..|s.threads|] == s.threads;
    }
  }

  lemma EnterKeeps(s: System, t: nat, jobset: string)
    requires Inv(s)
    ensures Inv(DoEnter(s, t, jobset))
  {
    EnterKeepsTable(s, t, jobset);
    EnterKeepsThreads(s, t, jobset);
  }

  lemma EnterKeepsThreads(s: System, t: nat, jobset: string)
    requires ThreadsAgree(s)
    ensures ThreadsAgree(DoEnter(s, t, jobset))
  {
  }

  lemma EnterKeepsTable(s: System, t: nat, jobset: string)
    requires Inv(s)
    ensures TableAgrees(DoEnter(s, t, jobset))
  {
    if t < |s.threads| && s.threads[t].Outside? {
      var u := DoEnter(s, t, jobset);
      var e := u.table[jobset];
      forall x ensures CountUsers(u.threads, x) == CountUsers(s.threads, x) + (if x == e then 1 else 0) {
        CountChange(s.threads, t, Waiting(jobset, e), x);
      }
      if jobset !in s.table {
        NobodyCounts(s.threads, e);
      }
    }
  }

  lemma SameEntryKeeps(s: System, t: nat, to: Thread, held: map<nat, nat>)
    requires Inv(s) && t < |s.threads| && !s.threads[t].Outside? && !to.Outside?
    requires to.entry == s.threads[t].entry && to.jobset == s.threads[t].jobset
    ensures TableAgrees(s.(threads := s.threads[t := to], held := held))
  {
    forall e ensures CountUsers(s.threads[t := to], e) == CountUsers(s.threads, e) {
      CountChange(s.threads, t, to, e);
    }
  }

  lemma AcquireKeeps(s: System, t: nat)
    requires Inv(s)
    ensures Inv(DoAcquire(s, t))
  {
    if t < |s.threads| && s.threads[t].Waiting? {
      SameEntryKeeps(s, t, Querying(s.threads[t].jobset, s.threads[t].entry), DoAcquire(s, t).held);
    }
  }

  lemma FinishKeeps(s: System, t: nat)
    requires Inv(s)
    ensures Inv(DoFinish(s, t))
  {
    if t < |s.threads| && s.threads[t].Querying? {
      SameEntryKeeps(s, t, Leaving(s.threads[t].jobset, s.threads[t].entry), DoFinish(s, t).held);
    }
  }

  lemma LeaveKeeps(s: System, t: nat)
    requires Inv(s)
    ensures Inv(DoLeave(s, t))
  {
    if t < |s.threads| && s.threads[t].Leaving? {
      var e := s.threads[t].entry;
      forall x ensures CountUsers(s.threads[t := Outside], x) + (if x == e then 1 else 0) == CountUsers(s.threads, x) {
        CountChange(s.threads, t, Outside, x);
      }
      forall u: nat | u < |s.threads| && u != t && s.threads[u].Uses(e) ensures s.users[e] > 1 {
        SomebodyCounts(s.threads[t := Outside], u);
      }
    }
  }

  lemma {:induction false} RunKeeps(actions: seq<Action>)
    ensures Inv(After(actions))
    decreases |actions|
  {
    if actions == [] {
    } else {
      var s, a := After(actions[..|actions| - 1]), actions[|actions| - 1];
      RunKeeps(actions[..|actions| - 1]);
      match a
      case Spawn => SpawnKeeps(s);
      case Enter(t, jobset) => EnterKeeps(s, t, jobset);
      case Acquire(t) => AcquireKeeps(s, t);
      case Finish(t) => FinishKeeps(s, t);
      case Leave(t) => LeaveKeeps(s, t);
    }
  }

  /** Two queries of one jobset never overlap, although their lock may have been deleted and
      made anew any number of times. */
  lemma {:induction false} QueriesNeverOverlap(actions: seq<Action>, t: nat, u: nat)
    requires var s := After(actions);
             t < |s.threads| && u < |s.threads| && s.threads[t].Querying? && s.threads[u].Querying?
             && s.threads[t].jobset == s.threads[u].jobset
    ensures t == u
  {
    RunKeeps(actions);
  }

  /** An entry is in the table exactly while a query of its jobset is under way, and all of
      them hold the same lock. */
  lemma {:induction false} EntryExactlyWhileUsed(actions: seq<Action>, jobset: string)
    ensures var s := After(actions);
            && (jobset in s.table
                <==> exists t :: 0 <= t < |s.threads| && !s.threads[t].Outside? && s.threads[t].jobset == jobset)
            && (forall t :: 0 <= t < |s.threads| && !s.threads[t].Outside? && s.threads[t].jobset == jobset ==>
                  jobset in s.table && s.threads[t].entry == s.table[jobset])
  {
    var s := After(actions);
    RunKeeps(actions);
    if jobset in s.table {
      if forall t :: 0 <= t < |s.threads| ==> !s.threads[t].Uses(s.table[jobset]) {
        NobodyCounts(s.threads, s.table[jobset]);
        assert false;
      }
      var t :| 0 <= t < |s.threads| && s.threads[t].Uses(s.table[jobset]);
      assert s.threads[t].jobset == jobset;
    }
  }
}
