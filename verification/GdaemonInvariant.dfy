/** What every step of the scheduler keeps: the queue, the admission set and the two resource maps
    of `GdaemonTasks` stay in step. */
module GdaemonInvariant {
  import opened Commands
  import opened GdaemonModel

  function Ids(q: seq<Task>): set<nat> {
    set t | t in q :: t.id
  }

  function WorkingIds(q: seq<Task>): set<nat> {
    set t | t in q && t.status == WORKING :: t.id
  }

  predicate DistinctIds(q: seq<Task>) {
    forall i, j :: 0 <= i < j < |q| ==> q[i].id != q[j].id
  }

  predicate Open(q: seq<Task>) {
    forall t :: t in q ==> t.status == WAITING || t.status == WORKING
  }

  predicate Inv(s: State) {
    && DistinctIds(s.queue)
    && Open(s.queue)
    && Ids(s.queue) == s.admitted
    && s.cmds.Keys == WorkingIds(s.queue)
    && s.pids.Keys == WorkingIds(s.queue)
  }

  // ---------------------------------------------------------------- popping and pushing

  lemma PopFront(q: seq<Task>)
    requires q != [] && DistinctIds(q)
    ensures DistinctIds(q[1..]) && (Open(q) ==> Open(q[1..]))
    ensures q[0].id !in Ids(q[1..])
    ensures Ids(q) == Ids(q[1..]) + {q[0].id}
    ensures WorkingIds(q) == WorkingIds(q[1..]) + if q[0].status == WORKING then {q[0].id} else {}
  {
    var rest := q[1..];
    assert forall t :: t in q <==> t == q[0] || t in rest;
    assert q[0] in q;
    forall t | t in rest ensures t.id != q[0].id {
      var i :| 0 <= i < |rest| && rest[i] == t;
      assert q[i + 1] == t;
    }
  }

  lemma PushBack(q: seq<Task>, t: Task)
    requires DistinctIds(q) && t.id !in Ids(q)
    ensures DistinctIds(q + [t])
    ensures Open(q) && (t.status == WAITING || t.status == WORKING) ==> Open(q + [t])
    ensures Ids(q + [t]) == Ids(q) + {t.id}
    ensures WorkingIds(q + [t]) == WorkingIds(q) + if t.status == WORKING then {t.id} else {}
  {
    var r := q + [t];
    assert forall u :: u in r <==> u in q || u == t;
    forall i, j | 0 <= i < j < |r| ensures r[i].id != r[j].id {
      if j == |q| { assert q[i] in q; }
    }
  }

  // ---------------------------------------------------------------- every step keeps Inv

  lemma AdmitKeepsInv(s: State, j: PanelTask, wanted: nat)
    requires Inv(s)
    ensures Inv(Admit(s, j, wanted))
  {
    if Admits(s.admitted, j, wanted) { PushBack(s.queue, NewTask(j)); }
  }

  lemma {:induction false} AdmitAllKeepsInv(s: State, js: seq<PanelTask>, wanted: nat)
    requires Inv(s)
    ensures Inv(AdmitAll(s, js, wanted))
    decreases js
  {
    if js != [] {
      AdmitAllKeepsInv(s, js[..|js| - 1], wanted);
      AdmitKeepsInv(AdmitAll(s, js[..|js| - 1], wanted), js[|js| - 1], wanted);
    }
  }

  /** Running the popped task touches no other task's entries. */
  lemma RunTaskEffect(s: State, t: Task, shown: Poll)
    requires t.status == WAITING || t.status == WORKING
    requires t.status == WORKING <==> t.id in s.cmds
    requires t.status == WORKING <==> t.id in s.pids
    ensures var (s', t') := RunTask(s, t, shown);
            && s'.queue == s.queue && s'.admitted == s.admitted
            && t' == t.(status := t'.status)
            && (t'.status == WORKING || t'.status == ERROR || t'.status == SUCCESS)
            && s'.cmds.Keys == s.cmds.Keys - {t.id} + (if t'.status == WORKING then {t.id} else {})
            && s'.pids.Keys == s.pids.Keys - {t.id} + (if t'.status == WORKING then {t.id} else {})
  {
  }

  lemma RequeueKeepsInv(s: State, t: Task)
    requires DistinctIds(s.queue) && Open(s.queue) && t.id !in Ids(s.queue)
    requires t.status == WORKING || t.status == ERROR || t.status == SUCCESS
    requires s.admitted == Ids(s.queue) + {t.id}
    requires s.cmds.Keys == WorkingIds(s.queue) + if t.status == WORKING then {t.id} else {}
    requires s.pids.Keys == WorkingIds(s.queue) + if t.status == WORKING then {t.id} else {}
    ensures Inv(Requeue(s, t))
  {
    assert WorkingIds(s.queue) <= Ids(s.queue);
    if t.status == WORKING { PushBack(s.queue, t); }
  }

  lemma RotateKeepsInv(s: State, rest: seq<Task>, t: Task)
    requires Inv(s) && s.queue == [t] + rest
    ensures Inv(s.(queue := rest + [t]))
  {
    PopFront(s.queue);
    assert s.queue[1..] == rest && t in s.queue;
    PushBack(rest, t);
  }

  lemma RunNextKeepsInv(s: State, shown: Poll)
    requires Inv(s) && s.queue != []
    ensures Inv(RunNext(s, shown))
  {
    var t, rest := s.queue[0], s.queue[1..];
    if Blocked(t, s.admitted) {
      RotateKeepsInv(s, rest, t);
    } else {
      FrontRuns(s);
      RunTaskEffect(s.(queue := rest), t, shown);
      var r := RunTask(s.(queue := rest), t, shown);
      RequeueKeepsInv(r.0, r.1);
    }
  }

  lemma FrontRuns(s: State)
    requires Inv(s) && s.queue != []
    ensures var t, rest := s.queue[0], s.queue[1..];
            && DistinctIds(rest) && Open(rest) && t.id !in Ids(rest)
            && (t.status == WAITING || t.status == WORKING)
            && (t.status == WORKING <==> t.id in s.cmds)
            && (t.status == WORKING <==> t.id in s.pids)
            && s.admitted == Ids(rest) + {t.id}
            && s.cmds.Keys - {t.id} == WorkingIds(rest) == s.pids.Keys - {t.id}
  {
    PopFront(s.queue);
    assert s.queue[0] in s.queue;
    assert WorkingIds(s.queue[1..]) <= Ids(s.queue[1..]);
  }

  lemma NextKeepsInv(s: State, step: Step)
    requires Inv(s)
    ensures Inv(Next(s, step))
  {
    match step
    case Update(reply) => if reply.Some? { AdmitAllKeepsInv(s, reply.value, TASK_WAITING); }
    case CheckAfterCrash(reply) => if reply.Some? { AdmitAllKeepsInv(s, reply.value, TASK_WORKING); }
    case Tick(shown) => if s.queue != [] { RunNextKeepsInv(s, shown); }
  }

  lemma {:induction false} RunKeepsInv(s: State, steps: seq<Step>)
    requires Inv(s)
    ensures Inv(Run(s, steps))
    decreases steps
  {
    if steps != [] {
      RunKeepsInv(s, steps[..|steps| - 1]);
      NextKeepsInv(Run(s, steps[..|steps| - 1]), steps[|steps| - 1]);
    }
  }

  /** The "Fail" return and the missing-pid branch of `proceed`, and the case of a queued task
      that is neither waiting nor working, are never taken. */
  lemma DeadBranches(steps: seq<Step>, t: Task)
    requires t in Run(INITIAL, steps).queue
    ensures t.status == WAITING || t.status == WORKING
    ensures t.status == WORKING <==> t.id in Run(INITIAL, steps).cmds
    ensures t.status == WORKING <==> t.id in Run(INITIAL, steps).pids
  {
    RunKeepsInv(INITIAL, steps);
    var s := Run(INITIAL, steps);
    if t.id in s.cmds || t.id in s.pids {
      var u :| u in s.queue && u.status == WORKING && u.id == t.id;
      SameId(s.queue, t, u);
    }
  }

  lemma SameId(q: seq<Task>, t: Task, u: Task)
    requires DistinctIds(q) && t in q && u in q && t.id == u.id
    ensures t == u
  {
    var i :| 0 <= i < |q| && q[i] == t;
    var j :| 0 <= j < |q| && q[j] == u;
  }

  // ---------------------------------------------------------------- stats

  function CountStatus(q: seq<Task>, status: Status): nat {
    if q == [] then 0 else (if q[0].status == status then 1 else 0) + CountStatus(q[1..], status)
  }

  lemma {:induction false} CountWorking(q: seq<Task>)
    requires DistinctIds(q)
    ensures CountStatus(q, WORKING) == |WorkingIds(q)|
    decreases q
  {
    if q != [] {
      PopFront(q);
      CountWorking(q[1..]);
      assert q[0].id !in WorkingIds(q[1..]);
    }
  }

  lemma {:induction false} CountBoth(q: seq<Task>)
    requires Open(q)
    ensures CountStatus(q, WAITING) + CountStatus(q, WORKING) == |q|
    decreases q
  {
    if q != [] {
      assert q[0] in q;
      assert Open(q[1..]) by { assert forall t :: t in q[1..] ==> t in q; }
      CountBoth(q[1..]);
    }
  }

  lemma SizesCount(s: State)
    requires Inv(s)
    ensures |s.cmds| == CountStatus(s.queue, WORKING)
    ensures |s.queue| == CountStatus(s.queue, WAITING) + CountStatus(s.queue, WORKING)
  {
    CountWorking(s.queue);
    CountBoth(s.queue);
    assert |s.cmds| == |s.cmds.Keys|;
  }

  /** `stats` on every reachable state: the first number counts exactly the working tasks, the
      second, named for the waiting ones, counts both. */
  lemma StatsCount(steps: seq<Step>)
    ensures var s := Run(INITIAL, steps);
            && |s.cmds| == CountStatus(s.queue, WORKING)
            && |s.queue| == CountStatus(s.queue, WAITING) + CountStatus(s.queue, WORKING)
  {
    RunKeepsInv(INITIAL, steps);
    SizesCount(Run(INITIAL, steps));
  }

  /** With one working task and no waiting one the second number is 1. */
  lemma WorkingCountsAsWaiting()
    ensures var j := PanelTask(1, TASK_WAITING, 0, false, 0, "gsstart", None);
            var s := Run(INITIAL, [Update(Some([j])), Tick(Poll("", PROCESS_WORKING, false, false))]);
            |s.queue| == 1 && CountStatus(s.queue, WAITING) == 0
  {
    var j := PanelTask(1, TASK_WAITING, 0, false, 0, "gsstart", None);
    var update, tick := Update(Some([j])), Tick(Poll("", PROCESS_WORKING, false, false));
    AdmitSingle(INITIAL, j);
    assert [update, tick][..1] == [update];
    var s := Admit(INITIAL, j, TASK_WAITING);
    assert s.queue == [NewTask(j)] && NewTask(j).kind == GAME_SERVER_START;
    assert RunNext(s, tick.shown).queue == [NewTask(j).(status := WORKING)];
  }
}
