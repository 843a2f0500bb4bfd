/** Which calls of `run_next` reach a working task of `ServersTasks`: WAITING sorts before WORKING, so
    a waiting head holds up the working tasks behind it. */
module ServersBlocking {
  import opened Commands
  import opened ServersHeap
  import opened ServersInvariant
  import opened ServersModel

  /** The head waits for a date not before `d`. */
  predicate HeadWaits(q: seq<Task>, d: int) {
    q != [] && q[0].status == WAITING && q[0].executeDate >= d
  }

  /** Nothing ran from `s` to `s'`. */
  predicate NothingRan(s: State, s': State) {
    && s'.log == s.log && s'.cmds == s.cmds && s'.pids == s.pids && s'.panel == s.panel
    && s.exist <= s'.exist
  }

  /** No call is later than `d`, and no task due before `d` is admitted. */
  predicate NotBefore(s: State, step: Step, d: int) {
    match step
    case AdmitStep(id, _) => id in s.exist || id !in s.panel || s.panel[id].date >= d
    case RunStep(now, _, _, _, _, _) => now <= d
  }

  lemma WaitingFirst(q: seq<Task>, i: nat, d: int)
    requires HeapOrdered(q) && i < |q| && HeadWaits(q, d) && q[i].status == WAITING
    ensures q[i].executeDate >= d
  {
    HeadIsFirst(q, i);
  }

  /** A waiting element makes the head a waiting one. */
  lemma HeadOfPushed(q: seq<Task>, t: Task, q': seq<Task>, d: int)
    requires HeapOrdered(q) && HeadWaits(q, d) && Pushed(q, t, q') && t.status == WAITING && t.executeDate >= d
    ensures HeadWaits(q', d)
  {
    assert t in multiset(q');
    var i :| 0 <= i < |q'| && q'[i] == t;
    HeadIsFirst(q', i);
    assert q'[0] in multiset(q');
    if q'[0] != t {
      assert q'[0] in multiset(q);
      var k :| 0 <= k < |q| && q[k] == q'[0];
      WaitingFirst(q, k, d);
    }
  }

  lemma AdmitHeldUp(s: State, id: nat, pushed: seq<Task>, d: int)
    requires SInv(s) && HeadWaits(s.heap, d)
    requires Allowed(s, AdmitStep(id, pushed)) && NotBefore(s, AdmitStep(id, pushed), d)
    ensures HeadWaits(Admit(s, id, pushed).heap, d) && NothingRan(s, Admit(s, id, pushed))
  {
    if id !in s.exist && id in s.panel { HeadOfPushed(s.heap, TaskOf(id, s.panel[id]), pushed, d); }
  }

  lemma WaitingHeadNotDue(s: State, step: Step, d: int)
    requires SInv(s) && step.RunStep? && HeadWaits(s.heap, d) && s.clock <= step.now <= d
    ensures Synced(s, step.now, step.reachable).heap == s.heap && !Due(s, step)
  {
    SyncedHead(s, step.now, step.reachable);
  }

  lemma RunHeldUp(s: State, step: Step, d: int)
    requires SInv(s) && step.RunStep? && HeadWaits(s.heap, d) && s.clock <= step.now <= d
    ensures HeadWaits(RunNext(s, step).heap, d) && NothingRan(s, RunNext(s, step))
  {
    WaitingHeadNotDue(s, step, d);
  }

  /** While the head waits for `d`, no call up to `d` starts, polls or ends any task, working ones
      with an earlier date included: status comes before date in `CompareTask`. */
  lemma {:induction false} HeldUp(s: State, steps: seq<Step>, d: int)
    requires SInv(s) && AllowedRun(s, steps) && HeadWaits(s.heap, d)
    requires forall step :: step in steps ==> NotBefore(s, step, d)
    ensures HeadWaits(Run(s, steps).heap, d) && NothingRan(s, Run(s, steps))
    decreases steps
  {
    if steps != [] {
      var init, last := steps[..|steps| - 1], steps[|steps| - 1];
      var before := Run(s, init);
      HeldUp(s, init, d);
      RunKeepsSInv(s, init);
      assert last in steps && NotBefore(before, last, d);
      if last.AdmitStep? {
        AdmitHeldUp(before, last.id, last.pushed, d);
      } else {
        RunHeldUp(before, last, d);
      }
    }
  }

  // ---------------------------------------------------------------- a held-up task

  const PANEL := map[1 := Rec(0, 0, 0, 10, 0, 0), 2 := Rec(0, 0, 0, 10, 0, 1000)]

  const IDLE := Poll("", PROCESS_WORKING, false, false)

  /** Task 1 is started at 1 and is to be polled after 31; task 2 joins and waits for 1000. */
  function Held(): Task {
    TaskOf(1, PANEL[1]).(status := WORKING, executeDate := 31)
  }

  function HeldUpSteps(): seq<Step> {
    [AdmitStep(1, [TaskOf(1, PANEL[1])]),
     RunStep(1, 1, false, IDLE, [], [Held()]),
     AdmitStep(2, [TaskOf(2, PANEL[2]), Held()])]
  }

  lemma FirstSteps()
    ensures var s, steps := Initial(PANEL, 0), HeldUpSteps();
            && AllowedRun(s, [steps[0]]) && AllowedRun(Run(s, [steps[0]]), [steps[1]])
            && var s2 := Run(Run(s, [steps[0]]), [steps[1]]);
               s2.heap == [Held()] && s2.exist == {1} && s2.panel == PANEL && 1 in s2.cmds
  {
    var s, steps := Initial(PANEL, 0), HeldUpSteps();
    var t := TaskOf(1, PANEL[1]);
    RunOne(s, steps[0]);
    var s1 := Next(s, steps[0]);
    assert multiset([t]) == multiset([]) + multiset{t};
    assert s1.heap == [t] && s1.exist == {1} && s1.cmds == map[];
    RunOne(s1, steps[1]);
    assert [t][1..] == [];
    assert multiset([Held()]) == multiset([]) + multiset{Held()};
  }

  /** A run from the start in which a working task is due and held up. */
  lemma HeldUpReachable()
    ensures var s, steps := Initial(PANEL, 0), HeldUpSteps();
            && AllowedRun(s, steps) && HeadWaits(Run(s, steps).heap, 1000)
            && Held() in Run(s, steps).heap && Held().status == WORKING && Held().executeDate == 31
            && Held().id in Run(s, steps).cmds
  {
    var s, steps := Initial(PANEL, 0), HeldUpSteps();
    FirstSteps();
    RunConcat(s, [steps[0]], [steps[1]]);
    var s2, t := Run(s, [steps[0]] + [steps[1]]), TaskOf(2, PANEL[2]);
    RunOne(s2, steps[2]);
    assert multiset([t, Held()]) == multiset([Held()]) + multiset{t};
    RunConcat(s, [steps[0]] + [steps[1]], [steps[2]]);
    assert [steps[0]] + [steps[1]] + [steps[2]] == steps;
  }

  // ---------------------------------------------------------------- when a working task is polled

  /** A poll was made between `log` and `log'`. */
  ghost predicate Polls(log: seq<Event>, log': seq<Event>) {
    exists i :: |log| <= i < |log'| && log'[i].Polled?
  }

  predicate NoneWaits(q: seq<Task>) {
    forall t :: t in q ==> t.status != WAITING
  }

  /** The head's record is read again in this call. */
  predicate Refreshed(s: State, step: Step)
    requires s.heap != [] && step.RunStep?
  {
    SyncDue(s, s.heap[0].id, step.now) && step.reachable
  }

  lemma WaitingNotPolled(s: State, t: Task, shown: Poll, now: int, later: int, pushed: seq<Task>)
    requires t.status == WAITING
    ensures !Polls(s.log, Handle(s, t, shown, now, later, pushed).log)
  {
    if !Exhausted(t) {
      var es := StartEvents(t, now, s.blocks, s.procs);
      assert forall e :: e in es ==> !e.Polled?;
      assert Handle(s, t, shown, now, later, pushed).log == s.log + es;
      forall i | |s.log| <= i < |s.log + es| ensures !(s.log + es)[i].Polled? {
        assert (s.log + es)[i] == es[i - |s.log|];
      }
    }
  }

  lemma WorkingPolled(s: State, t: Task, shown: Poll, now: int, later: int, pushed: seq<Task>)
    requires t.status == WORKING && !Exhausted(t) && t.id in s.cmds && t.id in s.pids
    ensures Polls(s.log, Handle(s, t, shown, now, later, pushed).log)
  {
    var polled := s.log + [Polled(t.id, s.pids[t.id], shown)];
    ProceedLog(s, t, shown, later);
    var r := Proceed(s, t, shown, later);
    EndingLog(r.0, r.1, pushed);
    var log' := Handle(s, t, shown, now, later, pushed).log;
    assert polled <= log';
    assert log'[|s.log|] == polled[|s.log|];
  }

  lemma ProceedLog(s: State, t: Task, shown: Poll, later: int)
    requires t.id in s.cmds && t.id in s.pids
    ensures s.log + [Polled(t.id, s.pids[t.id], shown)] <= Proceed(s, t, shown, later).0.log
  {
  }

  lemma EndingLog(s: State, t: Task, pushed: seq<Task>)
    ensures s.log <= Ending(s, t, pushed).log
  {
  }

  lemma AllWorking(s: State)
    requires SInv(s) && NoneWaits(s.heap)
    ensures forall t :: t in s.heap ==> t.status == WORKING
  {
    forall t | t in s.heap ensures t.status == WORKING {
      assert t in multiset(s.heap);
    }
  }

  /** The head tells for the whole queue. */
  lemma HeadTells(s: State, now: int)
    requires SInv(s) && s.heap != []
    ensures NoneWaits(s.heap) <==> s.heap[0].status == WORKING
    ensures NoneWaits(s.heap) ==> (s.heap[0].executeDate < now <==> exists t :: t in s.heap && t.executeDate < now)
  {
    assert s.heap[0] in s.heap && s.heap[0] in multiset(s.heap);
    forall i | 0 <= i < |s.heap| ensures !After(s.heap[0], s.heap[i]) { HeadIsFirst(s.heap, i); }
    if NoneWaits(s.heap) { AllWorking(s); }
  }

  lemma WorkingHeadDue(s: State, step: Step)
    requires SInv(s) && s.heap != [] && step.RunStep? && s.clock <= step.now && s.heap[0].status == WORKING
    ensures Due(s, step) <==> s.heap[0].executeDate < step.now || Refreshed(s, step)
  {
    assert s.heap[0] in multiset(s.heap);
  }

  lemma DuePolls(s: State, step: Step)
    requires SInv(s) && s.heap != [] && step.RunStep? && s.clock <= step.now && Due(s, step)
    ensures Polls(s.log, RunNext(s, step).log) <==> s.heap[0].status == WORKING
  {
    var synced := Synced(s, step.now, step.reachable);
    HeadPopping(s, step);
    var s1, t := synced.(heap := step.popped, clock := step.later), synced.heap[0];
    if t.status == WAITING {
      WaitingNotPolled(s1, t, step.shown, step.now, step.later, step.pushed);
    } else {
      WorkingPolled(s1, t, step.shown, step.now, step.later, step.pushed);
    }
  }

  /** A call polls a working task exactly if no task of the queue is waiting and some date lies before
      now, or the head's record is read again, which moves its date back. */
  lemma PolledIff(s: State, step: Step)
    requires SInv(s) && s.heap != [] && step.RunStep? && s.clock <= step.now
    ensures Polls(s.log, RunNext(s, step).log)
       <==> NoneWaits(s.heap)
            && ((exists t :: t in s.heap && t.executeDate < step.now) || Refreshed(s, step))
  {
    HeadTells(s, step.now);
    if s.heap[0].status == WORKING { WorkingHeadDue(s, step); }
    if Due(s, step) { DuePolls(s, step); }
  }
}
