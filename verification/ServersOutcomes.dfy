/** Over whole runs of `ServersTasks`, in the terms of the polls and of the panel's first records: how
    the result of a run is told, and when a task leaves the scheduler. */
module ServersOutcomes {
  import opened Commands
  import opened ServersHeap
  import opened ServersModel
  import opened ServersInvariant
  import opened ServersCalls
  import opened ServersHistory

  // ---------------------------------------------------------------- when a task leaves

  /** The poll is due. */
  predicate PollDue(s: State, step: Step)
    requires s.heap != [] && step.RunStep?
  {
    || s.heap[0].executeDate < step.now
    || ((s.heap[0].id !in s.lastSync || s.lastSync[s.heap[0].id] < step.now - 300) && step.reachable)
  }

  lemma RecordedLeaves(s: State, s': State, t: Task, r: Rec, later: int, id: nat)
    requires t.id in s.panel && r == s.panel[t.id] && Recorded(s, s', t, r, later)
    requires r.repeat % 0x1_0000 != 0 ==> r.counter < r.repeat % 0x1_0000
    requires Leaves(s, s', id)
    ensures AtLimit(s', id)
  {
    var limit, count := r.repeat % 0x1_0000, (r.counter + 1) % 0x1_0000_0000;
    var again := Task(WAITING, t.id, r.command, r.serverId, limit, r.repeatPeriod, count, later + r.repeatPeriod);
    if limit == 0 || count < limit {
      if Queued(s.heap, id) { QueuedInMultiset(s.heap, s'.heap, t, again, id); }
    } else if t.id != id && Queued(s.heap, id) {
      QueuedWithout(s.heap, s'.heap, t, id);
    }
  }

  lemma WorkingLeaves(s: State, step: Step, id: nat)
    requires SInv(s) && s.heap != [] && step.RunStep? && Allowed(s, step) && s.heap[0].status == WORKING
    requires Leaves(s, Next(s, step), id)
    ensures AtLimit(Next(s, step), id)
  {
    var t := s.heap[0];
    if !PollDue(s, step) {
      WaitsForPoll(s, step);
    } else if !step.shown.complete && step.shown.child == PROCESS_WORKING {
      PolledOnly(s, step);
      if Queued(s.heap, id) {
        QueuedInMultiset(s.heap, Next(s, step).heap, t, t.(executeDate := step.later + 30), id);
      }
    } else {
      CompletedState(s, step);
      WorkingBelowLimit(s);
      RecordedLeaves(s, Next(s, step), t, s.panel[t.id], step.later, id);
    }
  }

  lemma WorkingBelowLimit(s: State)
    requires SInv(s) && s.heap != [] && s.heap[0].status == WORKING
    ensures s.heap[0].id in s.panel
    ensures var r := s.panel[s.heap[0].id]; r.repeat % 0x1_0000 != 0 ==> r.counter < r.repeat % 0x1_0000
  {
    HeadRecord(s);
  }

  lemma QueuedMore(q: seq<Task>, q': seq<Task>, id: nat)
    requires multiset(q) <= multiset(q') && Queued(q, id)
    ensures Queued(q', id)
  {
    var t :| t in q && t.id == id;
    assert t in multiset(q) && t in multiset(q');
  }

  lemma StepLeaves(s: State, step: Step, id: nat)
    requires SInv(s) && Allowed(s, step) && Leaves(s, Next(s, step), id)
    ensures AtLimit(Next(s, step), id)
  {
    if step.AdmitStep? {
      CallsOfAdmit(s, step.id, step.pushed);
      if Queued(s.heap, id) { QueuedMore(s.heap, Next(s, step).heap, id); }
    } else if s.heap != [] {
      HeadRecord(s);
      if s.heap[0].status == WAITING { WaitingLeaves(s, step, id); } else { WorkingLeaves(s, step, id); }
    }
  }

  /** In every run a task leaves the queue, or `exists_tasks`, only when its completions and the
      counter the panel first held reach its number of repetitions. */
  lemma LeavesOnlyAtLimit(p0: map<nat, Rec>, clock: int, steps: seq<Step>, step: Step, id: nat)
    requires AllowedRun(Initial(p0, clock), steps + [step])
    requires var s, s' := Run(Initial(p0, clock), steps), Run(Initial(p0, clock), steps + [step]);
             || ((exists t :: t in s.heap && t.id == id) && !(exists t :: t in s'.heap && t.id == id))
             || (id in s.exist && id !in s'.exist)
    ensures id in p0 && p0[id].repeat % 0x1_0000 > 0
    ensures CountCompleted(Run(Initial(p0, clock), steps + [step]).log, id) + p0[id].counter >= p0[id].repeat % 0x1_0000
  {
    var s0, all := Initial(p0, clock), steps + [step];
    var s, s' := Run(s0, steps), Run(s0, all);
    assert all[..|all| - 1] == steps && all[|all| - 1] == step;
    RunKeepsHInv(p0, clock, steps);
    RunKeepsHInv(p0, clock, all);
    StepLeaves(s, step, id);
    DoneCounts(s'.log, id);
    assert RowOk(s', p0, Summary(s'.log), id);
  }

  // ---------------------------------------------------------------- how a result is told

  /** The calls of a completed run, put together. */
  predicate EndCalls(log: seq<Event>, log': seq<Event>, p: Event, marks: seq<Event>, fails: seq<Event>,
                     c: Event, u: Event)
  {
    && log' == log + [p] + marks + fails + [c, u]
    && p.Polled? && c.Completed? && u.Unmapped? && p.id == c.id
    && (marks == [] || (|marks| == 1 && marks[0].InstallSet?))
    && (fails == [] || fails == [FailSaved(c.id, p.poll.output)])
  }

  lemma EndInLog(log: seq<Event>, all: seq<Event>, p: Event, marks: seq<Event>, fails: seq<Event>, c: Event, u: Event)
    requires EndCalls(log, all, p, marks, fails, c, u)
    ensures var b := |log| + 1 + |marks|;
            && |all| == b + |fails| + 2 && log <= all
            && all[|log|] == p && (|marks| == 1 ==> all[|log| + 1] == marks[0])
            && (|fails| == 1 ==> all[b] == fails[0]) && all[b + |fails|] == c && all[b + |fails| + 1] == u
  {
  }

  /** What the log says of the poll at `k` and the completion at `i`. */
  predicate Told(log: seq<Event>, k: nat, i: nat)
    requires k < i < |log| && log[k].Polled? && log[i].Completed?
  {
    var poll, id := log[k].poll, log[i].id;
    && (poll.complete || poll.child != PROCESS_WORKING)
    && (poll.result && poll.child == PROCESS_SUCCESS ==> forall m :: k < m < i ==> !log[m].FailSaved?)
    && (!(poll.result && poll.child == PROCESS_SUCCESS) ==> log[i - 1] == FailSaved(id, poll.output))
  }

  /** `k` is the last poll of the task before its completion at `i`. */
  predicate LastPoll(log: seq<Event>, k: nat, i: nat) {
    && k < i < |log| && log[k].Polled? && log[i].Completed? && log[k].id == log[i].id
    && forall m :: k < m < i && log[m].Polled? ==> log[m].id != log[i].id
  }

  lemma CallsTell(log: seq<Event>, all: seq<Event>, p: Event, marks: seq<Event>, fails: seq<Event>, c: Event, u: Event,
                  k: nat, i: nat)
    requires EndCalls(log, all, p, marks, fails, c, u) && |log| <= i && LastPoll(all, k, i)
    requires p.poll.complete || p.poll.child != PROCESS_WORKING
    requires fails == [] <==> p.poll.result && p.poll.child == PROCESS_SUCCESS
    ensures Told(all, k, i)
  {
    EndInLog(log, all, p, marks, fails, c, u);
  }

  lemma CompletedShape(s: State, step: Step)
    returns (p: Event, marks: seq<Event>, fails: seq<Event>, c: Event, u: Event)
    requires SInv(s) && s.heap != [] && step.RunStep? && Allowed(s, step) && s.heap[0].status == WORKING
    requires PollDue(s, step) && (step.shown.complete || step.shown.child != PROCESS_WORKING)
    ensures EndCalls(s.log, Next(s, step).log, p, marks, fails, c, u) && p.poll == step.shown
    ensures fails == [] <==> step.shown.result && step.shown.child == PROCESS_SUCCESS
  {
    CompletedCalls(s, step);
    var id, shown := s.heap[0].id, step.shown;
    var r, ok := s.panel[id], shown.result && shown.child == PROCESS_SUCCESS;
    p, c, u := Polled(id, s.pids[id], shown), Completed(id, step.later), Unmapped(id, s.cmds[id]);
    marks := if r.command == 8 || r.command == 9 then
               [InstallSet(id, r.serverId, if ok then SERVER_INSTALLED else SERVER_NOT_INSTALLED)]
             else if r.command == 11 && ok then [InstallSet(id, r.serverId, SERVER_NOT_INSTALLED)]
             else [];
    fails := if ok then [] else [FailSaved(id, shown.output)];
  }

  /** The step completes a run. */
  predicate Completes(s: State, step: Step) {
    && step.RunStep? && s.heap != [] && s.heap[0].status == WORKING && PollDue(s, step)
    && (step.shown.complete || step.shown.child != PROCESS_WORKING)
  }

  lemma WaitingCompletesNothing(s: State, step: Step)
    requires SInv(s) && s.heap != [] && step.RunStep? && Allowed(s, step) && s.heap[0].status == WAITING
    ensures s.log <= Next(s, step).log
    ensures forall i :: |s.log| <= i < |Next(s, step).log| ==> !Next(s, step).log[i].Completed?
  {
    WaitingLog(s, step);
    StartCompletesNothing(s.log, s.heap[0], step.now, s.blocks, s.procs);
  }

  lemma StartCompletesNothing(log: seq<Event>, t: Task, now: int, block: nat, pid: nat)
    ensures var all := log + StartEvents(t, now, block, pid);
            forall i :: |log| <= i < |all| ==> !all[i].Completed?
  {
    var es := StartEvents(t, now, block, pid);
    forall i | |log| <= i < |log + es| ensures !(log + es)[i].Completed? {
      assert (log + es)[i] == es[i - |log|];
    }
  }

  /** Any other step completes nothing. */
  lemma CompletesNothing(s: State, step: Step)
    requires SInv(s) && Allowed(s, step) && !Completes(s, step)
    ensures s.log <= Next(s, step).log
    ensures forall i :: |s.log| <= i < |Next(s, step).log| ==> !Next(s, step).log[i].Completed?
  {
    if step.AdmitStep? {
      CallsOfAdmit(s, step.id, step.pushed);
    } else if s.heap != [] {
      HeadRecord(s);
      if s.heap[0].status == WAITING {
        WaitingCompletesNothing(s, step);
      } else if !PollDue(s, step) {
        WaitsForPoll(s, step);
      } else {
        PolledOnly(s, step);
      }
    }
  }

  lemma StepTells(s: State, step: Step)
    requires SInv(s) && Allowed(s, step)
    ensures s.log <= Next(s, step).log
    ensures forall k, i :: |s.log| <= i && LastPoll(Next(s, step).log, k, i) ==> Told(Next(s, step).log, k, i)
  {
    if Completes(s, step) {
      var p, marks, fails, c, u := CompletedShape(s, step);
      EndInLog(s.log, Next(s, step).log, p, marks, fails, c, u);
      forall k: nat, i: nat | |s.log| <= i && LastPoll(Next(s, step).log, k, i) ensures Told(Next(s, step).log, k, i) {
        CallsTell(s.log, Next(s, step).log, p, marks, fails, c, u, k, i);
      }
    } else {
      CompletesNothing(s, step);
    }
  }

  lemma ToldLater(log: seq<Event>, log': seq<Event>, k: nat, i: nat)
    requires log <= log' && i < |log|
    ensures LastPoll(log, k, i) <==> LastPoll(log', k, i)
    ensures LastPoll(log, k, i) && Told(log, k, i) ==> Told(log', k, i)
  {
  }

  /** In every run, for a completion and the last poll of the task before it: the poll saw the command
      complete or the process ended, and a failure with the command's output stands before the
      completion exactly unless the poll saw a true result and a normal exit. */
  lemma {:induction false} FailureTold(p0: map<nat, Rec>, clock: int, steps: seq<Step>, k: nat, i: nat)
    requires AllowedRun(Initial(p0, clock), steps) && LastPoll(Run(Initial(p0, clock), steps).log, k, i)
    ensures Told(Run(Initial(p0, clock), steps).log, k, i)
    decreases steps
  {
    var s0, init, step := Initial(p0, clock), steps[..|steps| - 1], steps[|steps| - 1];
    var s, log := Run(s0, init), Run(s0, steps).log;
    InitialSInv(p0, clock);
    RunKeepsSInv(s0, init);
    StepTells(s, step);
    if i < |s.log| {
      ToldLater(s.log, log, k, i);
      FailureTold(p0, clock, init, k, i);
    }
  }
}
