/** Safety over whole runs of `GdaemonTasks`: every task's log follows its life, a task starts only
    after the task it waits for ended, command blocks are conserved, and no process is polled
    after its end. */
module GdaemonSafety {
  import opened Commands
  import opened GdaemonModel
  import opened GdaemonInvariant
  import opened GdaemonTrace

  // ---------------------------------------------------------------- events in their place

  /** The blocks unmapped in the log. */
  function Freed(log: seq<Event>): set<nat> {
    set e | e in log && e.Unmapped? :: e.block
  }

  /** The processes whose end a poll has shown. */
  function Retired(log: seq<Event>): set<nat> {
    set e | e in log && e.Polled? && Ends(e.poll) :: e.pid
  }

  function CountMapped(log: seq<Event>): nat {
    if log == [] then 0 else CountMapped(log[..|log| - 1]) + if log[|log| - 1].Mapped? then 1 else 0
  }

  function CountUnmapped(log: seq<Event>): nat {
    if log == [] then 0 else CountUnmapped(log[..|log| - 1]) + if log[|log| - 1].Unmapped? then 1 else 0
  }

  /** The task is waiting and the task it has to follow, if any, is not alive. */
  predicate MayStart(before: seq<Event>, id: nat) {
    var p := PhaseOf(before, id);
    p.Queued? && (p.t.runAftId > 0 ==> PhaseOf(before, p.t.runAftId) == Absent)
  }

  predicate Fits(before: seq<Event>, e: Event) {
    && (e.Unmapped? ==> e.block !in Freed(before))
    && (e.Polled? ==> e.pid !in Retired(before))
  }

  predicate AllFit(log: seq<Event>) {
    log == [] || (AllFit(log[..|log| - 1]) && Fits(log[..|log| - 1], log[|log| - 1]))
  }

  /** Every start in the log was allowed when it happened. */
  predicate StartsFit(log: seq<Event>) {
    log == []
    || (StartsFit(log[..|log| - 1])
        && (log[|log| - 1].Started? ==> MayStart(log[..|log| - 1], log[|log| - 1].id)))
  }

  lemma AddFitting(log: seq<Event>, e: Event)
    requires StartsFit(log) && (e.Started? ==> MayStart(log, e.id))
    ensures StartsFit(log + [e])
  {
    assert (log + [e])[..|log|] == log;
  }

  lemma {:induction false} AddNoStart(log: seq<Event>, es: seq<Event>)
    requires StartsFit(log) && forall e :: e in es ==> !e.Started?
    ensures StartsFit(log + es)
    decreases es
  {
    if es == [] {
      assert log + es == log;
    } else {
      assert es[0] in es;
      AddFitting(log, es[0]);
      AddNoStart(log + [es[0]], es[1..]);
      assert log + [es[0]] + es[1..] == log + es;
    }
  }

  predicate Neutral(e: Event) {
    !e.Mapped? && !e.Unmapped? && !e.Polled?
  }

  lemma AddOne(log: seq<Event>, e: Event)
    ensures AllFit(log) && Fits(log, e) ==> AllFit(log + [e])
    ensures Freed(log + [e]) == Freed(log) + if e.Unmapped? then {e.block} else {}
    ensures Retired(log + [e]) == Retired(log) + if e.Polled? && Ends(e.poll) then {e.pid} else {}
    ensures CountMapped(log + [e]) == CountMapped(log) + if e.Mapped? then 1 else 0
    ensures CountUnmapped(log + [e]) == CountUnmapped(log) + if e.Unmapped? then 1 else 0
  {
    var all := log + [e];
    assert all[..|all| - 1] == log;
    assert forall x :: x in all <==> x in log || x == e;
  }

  lemma {:induction false} AddNeutral(log: seq<Event>, es: seq<Event>)
    requires forall e :: e in es ==> Neutral(e)
    ensures AllFit(log) ==> AllFit(log + es)
    ensures Freed(log + es) == Freed(log) && Retired(log + es) == Retired(log)
    ensures CountMapped(log + es) == CountMapped(log) && CountUnmapped(log + es) == CountUnmapped(log)
    decreases es
  {
    if es == [] {
      assert log + es == log;
    } else {
      assert es[0] in es;
      AddOne(log, es[0]);
      AddNeutral(log + [es[0]], es[1..]);
      assert log + [es[0]] + es[1..] == log + es;
    }
  }

  // ---------------------------------------------------------------- blocks and processes

  predicate Owned(s: State) {
    && Holds(s.cmds, Freed(s.log), s.blocks)
    && Holds(s.pids, Retired(s.log), s.procs)
    && CountMapped(s.log) == CountUnmapped(s.log) + |s.cmds|
  }

  predicate Safe(s: State) {
    Owned(s) && AllFit(s.log)
  }

  lemma StartLog(log: seq<Event>, t: Task, block: nat, pid: nat)
    requires AllFit(log)
    ensures var all := log + StartEvents(t, block, pid);
            && AllFit(all) && Freed(all) == Freed(log) && Retired(all) == Retired(log)
            && CountMapped(all) == CountMapped(log) + (if HasCommand(t.kind) then 1 else 0)
            && CountUnmapped(all) == CountUnmapped(log)
  {
    var first, es := Started(t.id), CommandEvents(t, block, pid);
    AddOne(log, first);
    CommandLog(log + [first], t, block, pid);
    assert log + [first] + es == log + StartEvents(t, block, pid);
  }

  lemma CommandLog(log: seq<Event>, t: Task, block: nat, pid: nat)
    requires AllFit(log)
    ensures var all := log + CommandEvents(t, block, pid);
            && AllFit(all) && Freed(all) == Freed(log) && Retired(all) == Retired(log)
            && CountMapped(all) == CountMapped(log) + (if HasCommand(t.kind) then 1 else 0)
            && CountUnmapped(all) == CountUnmapped(log)
  {
    var es := CommandEvents(t, block, pid);
    if HasCommand(t.kind) {
      var m := Mapped(t.id, block, CmdOf(t));
      AddOne(log, m);
      AddNeutral(log + [m], es[1..]);
      assert log + [m] + es[1..] == log + es;
    } else {
      AddNeutral(log, es);
    }
  }

  lemma StartKeepsSafe(s: State, t: Task)
    requires Safe(s) && t.id !in s.cmds && t.id !in s.pids
    ensures Safe(Start(s, t).0)
  {
    StartLog(s.log, t, s.blocks, s.procs);
    if HasCommand(t.kind) {
      HoldsMore(s.cmds, Freed(s.log), s.blocks, t.id);
      HoldsMore(s.pids, Retired(s.log), s.procs, t.id);
    }
  }

  lemma PollLog(log: seq<Event>, id: nat, pid: nat, poll: Poll, tail: seq<Event>)
    requires AllFit(log) && pid !in Retired(log) && forall e :: e in tail ==> Neutral(e)
    ensures var all := log + ([Polled(id, pid, poll)] + tail);
            && AllFit(all) && Freed(all) == Freed(log)
            && Retired(all) == Retired(log) + (if Ends(poll) then {pid} else {})
            && CountMapped(all) == CountMapped(log) && CountUnmapped(all) == CountUnmapped(log)
  {
    var e := Polled(id, pid, poll);
    AddOne(log, e);
    AddNeutral(log + [e], tail);
    assert log + [e] + tail == log + ([e] + tail);
  }

  lemma VerdictLog(log: seq<Event>, t: Task, block: nat, poll: Poll)
    requires AllFit(log) && block !in Freed(log)
    ensures var all := log + VerdictEvents(t, block, poll);
            && AllFit(all) && Freed(all) == Freed(log) + {block} && Retired(all) == Retired(log)
            && CountMapped(all) == CountMapped(log) && CountUnmapped(all) == CountUnmapped(log) + 1
  {
    var a, u, r := AfterCmd(t.(status := Verdict(poll))), Unmapped(t.id, block), Reported(t.id, Verdict(poll));
    AddNeutral(log, a);
    AddUnmap(log + a, u, r);
    assert log + a + [u, r] == log + VerdictEvents(t, block, poll);
  }

  lemma AddUnmap(log: seq<Event>, u: Event, r: Event)
    requires AllFit(log) && u.Unmapped? && u.block !in Freed(log) && Neutral(r)
    ensures var all := log + [u, r];
            && AllFit(all) && Freed(all) == Freed(log) + {u.block} && Retired(all) == Retired(log)
            && CountMapped(all) == CountMapped(log) && CountUnmapped(all) == CountUnmapped(log) + 1
  {
    AddOne(log, u);
    AddNeutral(log + [u], [r]);
    assert log + [u] + [r] == log + [u, r];
  }

  lemma EndLog(log: seq<Event>, t: Task, block: nat, poll: Poll)
    requires AllFit(log) && block !in Freed(log)
    ensures var all := log + EndEvents(t, block, poll);
            && AllFit(all) && Freed(all) == Freed(log) + {block} && Retired(all) == Retired(log)
            && CountMapped(all) == CountMapped(log) && CountUnmapped(all) == CountUnmapped(log) + 1
  {
    var o := Sent(t.id, LastOutput(poll));
    VerdictLog(log, t, block, poll);
    AddNeutral(log + VerdictEvents(t, block, poll), o);
    assert log + VerdictEvents(t, block, poll) + o == log + EndEvents(t, block, poll);
  }

  lemma LastPollLog(log: seq<Event>, t: Task, block: nat, pid: nat, poll: Poll)
    requires AllFit(log) && block !in Freed(log) && pid !in Retired(log) && Ends(poll)
    ensures var all := log + [Polled(t.id, pid, poll)] + EndEvents(t, block, poll);
            && AllFit(all) && Freed(all) == Freed(log) + {block} && Retired(all) == Retired(log) + {pid}
            && CountMapped(all) == CountMapped(log) && CountUnmapped(all) == CountUnmapped(log) + 1
  {
    PollLog(log, t.id, pid, poll, []);
    assert [Polled(t.id, pid, poll)] + [] == [Polled(t.id, pid, poll)];
    EndLog(log + [Polled(t.id, pid, poll)], t, block, poll);
  }

  lemma LastPollKeepsSafe(s: State, t: Task, shown: Poll)
    requires Safe(s) && t.id in s.cmds && t.id in s.pids && Ends(shown)
    ensures Safe(Proceed(s, t, shown).0)
  {
    var pid, block := s.pids[t.id], s.cmds[t.id];
    LastPollLog(s.log, t, block, pid, shown);
    HoldsLess(s.cmds, Freed(s.log), s.blocks, t.id);
    HoldsLess(s.pids, Retired(s.log), s.procs, t.id);
  }

  lemma ProceedKeepsSafe(s: State, t: Task, shown: Poll)
    requires Safe(s) && t.status == WORKING && t.id in s.cmds && t.id in s.pids
    ensures Safe(Proceed(s, t, shown).0)
  {
    if Ends(shown) {
      LastPollKeepsSafe(s, t, shown);
    } else {
      var polled, sent := [Polled(t.id, s.pids[t.id], shown)], Sent(t.id, shown.output);
      PollLog(s.log, t.id, s.pids[t.id], shown, sent);
      assert s.log + polled + sent == s.log + (polled + sent);
    }
  }

  lemma MayStartFront(s: State)
    requires Inv(s) && Traced(s) && s.queue != [] && s.queue[0].status == WAITING
    requires !Blocked(s.queue[0], s.admitted)
    ensures MayStart(s.log, s.queue[0].id)
  {
    assert s.queue[0] in s.queue;
  }

  lemma SafeElsewhere(s: State, s': State)
    requires Safe(s) && s'.log == s.log && s'.cmds == s.cmds && s'.pids == s.pids
    requires s'.blocks == s.blocks && s'.procs == s.procs
    ensures Safe(s')
  {
  }

  lemma RequeueKeepsSafe(s: State, t: Task)
    requires Safe(s) && (Terminal(t.status) ==> t.id !in s.cmds)
    ensures Safe(Requeue(s, t))
  {
    if Terminal(t.status) {
      var cmds := s.cmds - {t.id};
      assert cmds == s.cmds;
    }
    SafeElsewhere(s, Requeue(s, t));
  }

  lemma RunTaskKeepsSafe(s: State, t: Task, shown: Poll)
    requires Safe(s) && (t.status == WAITING || t.status == WORKING)
    requires t.status == WORKING <==> t.id in s.cmds
    requires t.status == WORKING <==> t.id in s.pids
    ensures Safe(RunTask(s, t, shown).0)
  {
    if t.status == WAITING {
      StartKeepsSafe(s, t);
    } else {
      ProceedKeepsSafe(s, t, shown);
    }
  }

  lemma EndedHasNoCmd(s: State, t: Task, shown: Poll)
    requires t.status == WAITING || t.status == WORKING
    requires t.status == WORKING <==> t.id in s.cmds
    requires t.status == WORKING <==> t.id in s.pids
    ensures var r := RunTask(s, t, shown); Terminal(r.1.status) ==> r.1.id !in r.0.cmds
  {
    RunTaskEffect(s, t, shown);
  }

  lemma FrontRanSafe(s: State, shown: Poll)
    requires Inv(s) && Safe(s) && s.queue != []
    ensures var r := RunTask(s.(queue := s.queue[1..]), s.queue[0], shown);
            Safe(r.0) && (Terminal(r.1.status) ==> r.1.id !in r.0.cmds)
  {
    var popped := s.(queue := s.queue[1..]);
    FrontRuns(s);
    SafeElsewhere(s, popped);
    RunTaskKeepsSafe(popped, s.queue[0], shown);
    EndedHasNoCmd(popped, s.queue[0], shown);
  }

  lemma StartEventsFit(log: seq<Event>, t: Task, block: nat, pid: nat)
    requires StartsFit(log) && MayStart(log, t.id)
    ensures StartsFit(log + StartEvents(t, block, pid))
  {
    var first, es := Started(t.id), CommandEvents(t, block, pid);
    AddFitting(log, first);
    AddNoStart(log + [first], es);
    assert log + [first] + es == log + StartEvents(t, block, pid);
  }

  lemma RunEventsFit(s: State, t: Task, shown: Poll)
    requires t.status == WORKING ==> t.id in s.cmds && t.id in s.pids
    requires StartsFit(s.log) && (t.status == WAITING ==> MayStart(s.log, t.id))
    ensures StartsFit(s.log + RunEvents(s, t, shown))
  {
    if t.status == WAITING {
      StartEventsFit(s.log, t, s.blocks, s.procs);
    } else {
      AddNoStart(s.log, RunEvents(s, t, shown));
    }
  }

  lemma RunTaskFits(s: State, t: Task, shown: Poll)
    requires t.status == WAITING || t.status == WORKING
    requires t.status == WORKING ==> t.id in s.cmds && t.id in s.pids
    requires StartsFit(s.log) && (t.status == WAITING ==> MayStart(s.log, t.id))
    ensures StartsFit(RunTask(s, t, shown).0.log)
  {
    RunEventsLogged(s, t, shown);
    RunEventsFit(s, t, shown);
  }

  lemma RunNextKeepsStarts(s: State, shown: Poll)
    requires Inv(s) && Traced(s) && StartsFit(s.log) && s.queue != []
    ensures StartsFit(RunNext(s, shown).log)
  {
    var t, popped := s.queue[0], s.(queue := s.queue[1..]);
    if !Blocked(t, s.admitted) {
      FrontRuns(s);
      if t.status == WAITING { MayStartFront(s); }
      RunTaskFits(popped, t, shown);
      var r := RunTask(popped, t, shown);
      RequeueLog(r.0, r.1);
    }
  }

  lemma RequeueLog(s: State, t: Task)
    ensures Requeue(s, t).log == s.log
  {
  }

  lemma RunNextKeepsSafe(s: State, shown: Poll)
    requires Inv(s) && Safe(s) && s.queue != []
    ensures Safe(RunNext(s, shown))
  {
    var t, popped := s.queue[0], s.(queue := s.queue[1..]);
    if !Blocked(t, s.admitted) {
      FrontRanSafe(s, shown);
      var r := RunTask(popped, t, shown);
      RequeueKeepsSafe(r.0, r.1);
    }
  }

  lemma AdmitKeepsSafe(s: State, j: PanelTask, wanted: nat)
    requires Safe(s) && StartsFit(s.log)
    ensures Safe(Admit(s, j, wanted)) && StartsFit(Admit(s, j, wanted).log)
  {
    if Admits(s.admitted, j, wanted) {
      AddNeutral(s.log, [Admitted(NewTask(j), j)]);
      AddFitting(s.log, Admitted(NewTask(j), j));
    }
  }

  // ---------------------------------------------------------------- every reachable state

  ghost predicate Good(s: State) {
    Inv(s) && Traced(s) && Safe(s) && StartsFit(s.log)
  }

  lemma {:induction false} AdmitAllKeepsGood(s: State, js: seq<PanelTask>, wanted: nat)
    requires Good(s)
    ensures Good(AdmitAll(s, js, wanted))
    decreases js
  {
    if js != [] {
      var before := AdmitAll(s, js[..|js| - 1], wanted);
      AdmitAllKeepsGood(s, js[..|js| - 1], wanted);
      AdmitKeepsInv(before, js[|js| - 1], wanted);
      AdmitKeepsTraced(before, js[|js| - 1], wanted);
      AdmitKeepsSafe(before, js[|js| - 1], wanted);
    }
  }

  lemma NextKeepsGood(s: State, step: Step)
    requires Good(s)
    ensures Good(Next(s, step))
  {
    match step
    case Update(reply) => if reply.Some? { AdmitAllKeepsGood(s, reply.value, TASK_WAITING); }
    case CheckAfterCrash(reply) => if reply.Some? { AdmitAllKeepsGood(s, reply.value, TASK_WORKING); }
    case Tick(shown) =>
      if s.queue != [] {
        RunNextKeepsInv(s, shown);
        RunNextKeepsTraced(s, shown);
        RunNextKeepsSafe(s, shown);
        RunNextKeepsStarts(s, shown);
      }
  }

  lemma {:induction false} RunIsGood(steps: seq<Step>)
    ensures Good(Run(INITIAL, steps))
    decreases steps
  {
    if steps != [] {
      RunIsGood(steps[..|steps| - 1]);
      NextKeepsGood(Run(INITIAL, steps[..|steps| - 1]), steps[|steps| - 1]);
    }
  }

  // ---------------------------------------------------------------- lives, reports, results

  lemma {:induction false} StrayStays(es: seq<Event>, id: nat)
    ensures PhaseAfter(Stray, es, id) == Stray
  {
    if es != [] { StrayStays(es[1..], id); }
  }

  lemma PrefixNotStray(log: seq<Event>, i: nat, id: nat)
    requires i <= |log| && PhaseOf(log, id) != Stray
    ensures PhaseOf(log[..i], id) != Stray
  {
    assert log == log[..i] + log[i..];
    PhaseConcat(Absent, log[..i], log[i..], id);
    StrayStays(log[i..], id);
  }

  /** In every run and at every point of the log, every task's events follow its life. */
  lemma LivesInOrder(steps: seq<Step>, i: nat, id: nat)
    requires i <= |Run(INITIAL, steps).log|
    ensures PhaseOf(Run(INITIAL, steps).log[..i], id) != Stray
  {
    var s := Run(INITIAL, steps);
    RunIsGood(steps);
    NotStray(s, id);
    PrefixNotStray(s.log, i, id);
  }

  lemma NotStray(s: State, id: nat)
    requires Good(s)
    ensures PhaseOf(s.log, id) != Stray
    ensures PhaseOf(s.log, id) == Absent <==> id !in s.admitted
  {
    if id in s.admitted {
      var t :| t in s.queue && t.id == id;
      assert PhaseOf(s.log, t.id) == Expected(s, t);
      if t.status == WORKING { assert t.id in WorkingIds(s.queue); }
    }
  }

  /** The reports of one admission: none yet, WORKING, WORKING and one verdict, or ERROR alone for
      an unknown kind; the verdict is SUCCESS exactly if the last poll saw a true result and a
      normal exit. */
  lemma ReportsOfOneAdmission(steps: seq<Step>, i: nat, id: nat)
    requires i <= |Run(INITIAL, steps).log|
    ensures var st := StoryOf(Run(INITIAL, steps).log[..i], id);
            st.admitted.Some? ==>
              || Finished(st) || st.reports == []
              || (st.reports == [WORKING] && HasCommand(st.admitted.value.kind))
  {
    var log := Run(INITIAL, steps).log[..i];
    LivesInOrder(steps, i, id);
    ConsistentAfter(Absent, Story(None, [], None), log, id);
    assert Consistent(PhaseOf(log, id), StoryOf(log, id));
  }

  /** A task leaves the admission set only with a finished story, so nothing follows a verdict
      within one admission. */
  lemma FinishedWhenGone(steps: seq<Step>, id: nat)
    ensures var s := Run(INITIAL, steps);
            var st := StoryOf(s.log, id);
            st.admitted.Some? ==> (id !in s.admitted <==> Finished(st))
  {
    var s := Run(INITIAL, steps);
    RunIsGood(steps);
    NotStray(s, id);
    ConsistentAfter(Absent, Story(None, [], None), s.log, id);
    assert Consistent(PhaseOf(s.log, id), StoryOf(s.log, id));
  }

  // ---------------------------------------------------------------- order of dependent tasks

  lemma {:induction false} FitAt(log: seq<Event>, i: nat)
    requires AllFit(log) && i < |log|
    ensures Fits(log[..i], log[i])
    decreases log
  {
    var init := log[..|log| - 1];
    if i < |log| - 1 {
      FitAt(init, i);
      assert init[..i] == log[..i];
    }
  }

  lemma PhaseNext(log: seq<Event>, k: nat, id: nat)
    requires k < |log|
    ensures PhaseOf(log[..k + 1], id)
         == if log[k].Of() == id then Advance(PhaseOf(log[..k], id), log[k]) else PhaseOf(log[..k], id)
  {
    assert log[..k + 1] == log[..k] + [log[k]];
    PhaseConcat(Absent, log[..k], [log[k]], id);
    PhaseOne(PhaseOf(log[..k], id), log[k], id);
  }

  lemma {:induction false} StartFitAt(log: seq<Event>, i: nat)
    requires StartsFit(log) && i < |log| && log[i].Started?
    ensures MayStart(log[..i], log[i].id)
    decreases log
  {
    var init := log[..|log| - 1];
    if i < |log| - 1 {
      StartFitAt(init, i);
      assert init[..i] == log[..i];
    }
  }

  /** A task still waiting at `i` is the one admitted last. */
  lemma {:induction false} StillQueued(log: seq<Event>, a: nat, i: nat, id: nat)
    requires a < i <= |log| && log[a].Admitted? && log[a].Of() == id
    requires forall k :: a < k < i ==> !(log[k].Admitted? && log[k].Of() == id)
    requires PhaseOf(log[..i], id).Queued?
    ensures PhaseOf(log[..i], id).t == log[a].task
    decreases i
  {
    PhaseNext(log, i - 1, id);
    if i - 1 > a { StillQueued(log, a, i - 1, id); }
  }

  predicate EndsAt(log: seq<Event>, k: int, id: nat) {
    0 <= k < |log| && log[k].Reported? && log[k].id == id && Terminal(log[k].status)
  }

  /** A task alive at `a` and gone at `i` was reported as ended in between. */
  lemma {:induction false} EndBetween(log: seq<Event>, a: nat, i: nat, id: nat) returns (k: nat)
    requires a <= i <= |log|
    requires PhaseOf(log[..a], id) != Absent && PhaseOf(log[..i], id) == Absent
    ensures a <= k < i && EndsAt(log, k, id)
    decreases i
  {
    if a == i { assert false; }
    PhaseNext(log, i - 1, id);
    if PhaseOf(log[..i - 1], id) == Absent {
      k := EndBetween(log, a, i - 1, id);
    } else {
      k := i - 1;
    }
  }

  /** If the predecessor is alive when a task is admitted (at `a`), the start of the task (at `i`)
      comes after the predecessor's final report. */
  lemma StartsAfterPredecessor(steps: seq<Step>, a: nat, i: nat) returns (k: nat)
    requires var log := Run(INITIAL, steps).log;
             && a < i < |log| && log[a].Admitted? && log[i].Started? && log[a].Of() == log[i].id
             && (forall m :: a < m < i ==> !(log[m].Admitted? && log[m].Of() == log[i].id))
             && log[a].task.runAftId > 0 && PhaseOf(log[..a], log[a].task.runAftId) != Absent
    ensures a < k < i && EndsAt(Run(INITIAL, steps).log, k, Run(INITIAL, steps).log[a].task.runAftId)
  {
    var log := Run(INITIAL, steps).log;
    RunIsGood(steps);
    StartFitAt(log, i);
    StillQueued(log, a, i, log[i].id);
    k := EndBetween(log, a, i, log[a].task.runAftId);
  }

  /** At every start the task is waiting and its predecessor, if any, is not alive. */
  lemma StartsUnblocked(steps: seq<Step>, i: nat)
    requires i < |Run(INITIAL, steps).log| && Run(INITIAL, steps).log[i].Started?
    ensures MayStart(Run(INITIAL, steps).log[..i], Run(INITIAL, steps).log[i].id)
  {
    RunIsGood(steps);
    StartFitAt(Run(INITIAL, steps).log, i);
  }

  /** Aliveness in the log is membership in `exists_tasks`. */
  lemma AliveIsAdmitted(steps: seq<Step>, id: nat)
    ensures var s := Run(INITIAL, steps);
            PhaseOf(s.log, id) == Absent <==> id !in s.admitted
  {
    RunIsGood(steps);
    NotStray(Run(INITIAL, steps), id);
  }

  // ---------------------------------------------------------------- conservation

  /** Command blocks mapped, less those unmapped, are the entries of `active_cmds`. */
  lemma BlocksConserved(steps: seq<Step>)
    ensures var s := Run(INITIAL, steps); CountMapped(s.log) == CountUnmapped(s.log) + |s.cmds|
  {
    RunIsGood(steps);
  }

  /** No block is unmapped twice, by whichever task. */
  lemma NoDoubleUnmap(steps: seq<Step>, i: nat, j: nat)
    requires var log := Run(INITIAL, steps).log; i < j < |log| && log[i].Unmapped? && log[j].Unmapped?
    ensures Run(INITIAL, steps).log[i].block != Run(INITIAL, steps).log[j].block
  {
    var log := Run(INITIAL, steps).log;
    RunIsGood(steps);
    FitAt(log, j);
    assert log[..j][i] == log[i] && log[i] in log[..j];
  }

  /** No process is polled again once a poll has ended its task, in particular once
      `child_process_status` has reported its end. */
  lemma NoPollAfterEnd(steps: seq<Step>, i: nat, j: nat)
    requires var log := Run(INITIAL, steps).log;
             i < j < |log| && log[i].Polled? && Ends(log[i].poll) && log[j].Polled?
    ensures Run(INITIAL, steps).log[i].pid != Run(INITIAL, steps).log[j].pid
  {
    var log := Run(INITIAL, steps).log;
    RunIsGood(steps);
    FitAt(log, j);
    assert log[..j][i] == log[i] && log[i] in log[..j];
  }
}
