/** What `GdaemonTasks` does to the outside in every run, in the terms of the panel's entries and of
    the polls alone: no name here stands for a decision of the scheduler. */
module GdaemonCalls {
  import opened Commands
  import opened GdaemonModel
  import opened GdaemonInvariant
  import opened GdaemonTrace
  import opened GdaemonSafety

  // ---------------------------------------------------------------- the entry a task came from

  /** `log[a]` is the last admission of `id`. */
  predicate LastAdmission(log: seq<Event>, a: nat, id: nat) {
    && a < |log| && log[a].Admitted? && log[a].entry.id == id
    && forall m :: a < m < |log| && log[m].Admitted? ==> log[m].entry.id != id
  }

  /** The task as it was admitted for the entry. */
  predicate CameFrom(t: Task, j: PanelTask) {
    t.(status := WAITING) == NewTask(j)
  }

  ghost predicate FromEntries(s: State) {
    && (forall a :: 0 <= a < |s.log| && s.log[a].Admitted? ==> s.log[a].task == NewTask(s.log[a].entry))
    && (forall t, a: nat :: t in s.queue && LastAdmission(s.log, a, t.id) ==> CameFrom(t, s.log[a].entry))
  }

  lemma LastStays(log: seq<Event>, es: seq<Event>, a: nat, id: nat)
    requires forall e :: e in es && e.Admitted? ==> e.entry.id != id
    ensures LastAdmission(log + es, a, id) <==> LastAdmission(log, a, id)
  {
    var all := log + es;
    assert forall i :: 0 <= i < |log| ==> all[i] == log[i];
    forall i | |log| <= i < |all| ensures all[i].Admitted? ==> all[i].entry.id != id {
      assert all[i] == es[i - |log|] && es[i - |log|] in es;
    }
  }

  lemma AdmitKeepsEntries(s: State, j: PanelTask, wanted: nat)
    requires Inv(s) && FromEntries(s)
    ensures FromEntries(Admit(s, j, wanted))
  {
    if Admits(s.admitted, j, wanted) {
      var s', e := Admit(s, j, wanted), Admitted(NewTask(j), j);
      forall t, a: nat | t in s'.queue && LastAdmission(s'.log, a, t.id) ensures CameFrom(t, s'.log[a].entry) {
        if t in s.queue {
          assert t.id in s.admitted;
          LastStays(s.log, [e], a, t.id);
        } else {
          assert s'.log[|s.log|] == e;
        }
      }
    }
  }

  lemma {:induction false} AdmitAllKeepsEntries(s: State, js: seq<PanelTask>, wanted: nat)
    requires Inv(s) && FromEntries(s)
    ensures FromEntries(AdmitAll(s, js, wanted))
    decreases js
  {
    if js != [] {
      AdmitAllKeepsInv(s, js[..|js| - 1], wanted);
      AdmitAllKeepsEntries(s, js[..|js| - 1], wanted);
      AdmitKeepsEntries(AdmitAll(s, js[..|js| - 1], wanted), js[|js| - 1], wanted);
    }
  }

  lemma NoAdmissions(s: State, t: Task, shown: Poll)
    requires t.status == WORKING ==> t.id in s.cmds && t.id in s.pids
    ensures forall e :: e in RunEvents(s, t, shown) ==> !e.Admitted?
  {
  }

  lemma RequeuedTasks(s: State, t: Task)
    ensures forall u :: u in Requeue(s, t).queue ==> u in s.queue || u == t
  {
  }

  /** Every task of the new queue was in the old one, with the same fields but the status. */
  lemma RunNextSameTasks(s: State, shown: Poll)
    requires Inv(s) && s.queue != []
    ensures forall u :: u in RunNext(s, shown).queue ==> exists v :: v in s.queue && u == v.(status := u.status)
  {
    var t, popped := s.queue[0], s.(queue := s.queue[1..]);
    var t' := t;
    assert t in s.queue && forall u :: u in popped.queue ==> u in s.queue;
    if !Blocked(t, s.admitted) {
      FrontRuns(s);
      RunTaskEffect(popped, t, shown);
      var r := RunTask(popped, t, shown);
      RequeuedTasks(r.0, r.1);
      t' := r.1;
    }
    forall u | u in RunNext(s, shown).queue ensures exists v :: v in s.queue && u == v.(status := u.status) {
      SameButStatus(s.queue, u, if u in popped.queue then u else t);
    }
  }

  lemma SameButStatus(q: seq<Task>, u: Task, v: Task)
    requires v in q && u == v.(status := u.status)
    ensures exists v :: v in q && u == v.(status := u.status)
  {
  }

  lemma RunNextAppends(s: State, shown: Poll) returns (es: seq<Event>)
    requires Inv(s) && s.queue != []
    ensures RunNext(s, shown).log == s.log + es && forall e :: e in es ==> !e.Admitted?
  {
    var t, popped := s.queue[0], s.(queue := s.queue[1..]);
    if Blocked(t, s.admitted) {
      es := [];
      assert s.log + [] == s.log;
    } else {
      FrontRuns(s);
      es := RunEvents(popped, t, shown);
      NoAdmissions(popped, t, shown);
      RunEventsLogged(popped, t, shown);
      var r := RunTask(popped, t, shown);
      RequeueLog(r.0, r.1);
    }
  }

  lemma RunNextKeepsEntries(s: State, shown: Poll)
    requires Inv(s) && FromEntries(s) && s.queue != []
    ensures FromEntries(RunNext(s, shown))
  {
    var s' := RunNext(s, shown);
    var es := RunNextAppends(s, shown);
    RunNextSameTasks(s, shown);
    forall a | |s.log| <= a < |s'.log| ensures !s'.log[a].Admitted? {
      assert s'.log[a] == es[a - |s.log|] && es[a - |s.log|] in es;
    }
    forall u, a: nat | u in s'.queue && LastAdmission(s'.log, a, u.id) ensures CameFrom(u, s'.log[a].entry) {
      var v :| v in s.queue && u == v.(status := u.status);
      LastStays(s.log, es, a, u.id);
      assert CameFrom(v, s.log[a].entry);
    }
  }

  lemma NextKeepsEntries(s: State, step: Step)
    requires Inv(s) && FromEntries(s)
    ensures FromEntries(Next(s, step))
  {
    match step
    case Update(reply) => if reply.Some? { AdmitAllKeepsEntries(s, reply.value, TASK_WAITING); }
    case CheckAfterCrash(reply) => if reply.Some? { AdmitAllKeepsEntries(s, reply.value, TASK_WORKING); }
    case Tick(shown) => if s.queue != [] { RunNextKeepsEntries(s, shown); }
  }

  lemma {:induction false} RunFromEntries(steps: seq<Step>)
    ensures FromEntries(Run(INITIAL, steps))
    decreases steps
  {
    if steps != [] {
      var before := steps[..|steps| - 1];
      RunFromEntries(before);
      RunKeepsInv(INITIAL, before);
      NextKeepsEntries(Run(INITIAL, before), steps[|steps| - 1]);
    }
  }

  // ---------------------------------------------------------------- one call of run_next

  /** A front task that waits for an admitted task goes to the back, and nothing else happens. */
  lemma BlockedCall(s: State, shown: Poll)
    requires s.queue != [] && s.queue[0].runAftId > 0 && s.queue[0].runAftId in s.admitted
    ensures RunNext(s, shown) == s.(queue := s.queue[1..] + [s.queue[0]])
  {
  }

  /** The front task of a reachable state, about to run. */
  lemma FrontEntry(steps: seq<Step>, a: nat)
    requires Run(INITIAL, steps).queue != []
    requires LastAdmission(Run(INITIAL, steps).log, a, Run(INITIAL, steps).queue[0].id)
    ensures var s := Run(INITIAL, steps);
            var t := s.queue[0];
            && CameFrom(t, s.log[a].entry) && (t.status == WAITING || t.status == WORKING)
            && (t.status == WORKING <==> t.id in s.cmds) && (t.status == WORKING <==> t.id in s.pids)
  {
    RunKeepsInv(INITIAL, steps);
    RunFromEntries(steps);
    FrontRuns(Run(INITIAL, steps));
    assert Run(INITIAL, steps).queue[0] in Run(INITIAL, steps).queue;
  }

  lemma StartedTask(s: State, t: Task, shown: Poll)
    requires s.queue != [] && s.queue[0] == t && t.status == WAITING && !Blocked(t, s.admitted)
    requires t.id !in s.cmds && t.id !in s.pids
    ensures HasCommand(t.kind) ==>
              RunNext(s, shown) == State(
                s.queue[1..] + [t.(status := WORKING)], s.admitted,
                s.cmds[t.id := s.blocks], s.pids[t.id := s.procs],
                s.log + StartEvents(t, s.blocks, s.procs), s.blocks + 1, s.procs + 1)
    ensures !HasCommand(t.kind) ==>
              RunNext(s, shown) == s.(queue := s.queue[1..], admitted := s.admitted - {t.id},
                                      log := s.log + StartEvents(t, s.blocks, s.procs))
  {
    assert s.cmds - {t.id} == s.cmds;
  }

  lemma NameTells(j: PanelTask)
    ensures j.task == "gsstart" <==> NewTask(j).kind == GAME_SERVER_START
    ensures j.task == "gsstop" <==> NewTask(j).kind == GAME_SERVER_STOP
    ensures j.task == "gsrest" <==> NewTask(j).kind == GAME_SERVER_RESTART
    ensures j.task == "gsinst" <==> NewTask(j).kind == GAME_SERVER_INSTALL
    ensures j.task == "gsupd" <==> NewTask(j).kind == GAME_SERVER_UPDATE
    ensures j.task == "gsdel" <==> NewTask(j).kind == GAME_SERVER_DELETE
    ensures j.task == "cmdexec" <==> NewTask(j).kind == GAME_SERVER_EXECUTE
  {
  }

  lemma StartLog(t: Task, block: nat, pid: nat)
    ensures HasCommand(t.kind) && !Installs(t.kind) ==>
              StartEvents(t, block, pid)
              == [Started(t.id), Mapped(t.id, block, CmdOf(t)), Forked(t.id, pid), Reported(t.id, WORKING)]
    ensures Installs(t.kind) ==>
              StartEvents(t, block, pid)
              == [Started(t.id), Mapped(t.id, block, CmdOf(t)), InstallSet(t.id, t.serverId, SERVER_INSTALL_IN_PROCESS),
                  Forked(t.id, pid), Reported(t.id, WORKING)]
    ensures !HasCommand(t.kind) ==>
              StartEvents(t, block, pid)
              == [Started(t.id), OutputSent(t.id, "Unknown task"), OutputSent(t.id, "Empty cmd"), Reported(t.id, ERROR)]
  {
  }

  /** The start of a task, by the name in the panel's entry: every call, and the whole new state. */
  lemma CallsOfStart(steps: seq<Step>, shown: Poll, a: nat) returns (es: seq<Event>)
    requires var s := Run(INITIAL, steps);
             && s.queue != [] && s.queue[0].status == WAITING && LastAdmission(s.log, a, s.queue[0].id)
             && (s.queue[0].runAftId == 0 || s.queue[0].runAftId !in s.admitted)
    ensures var s := Run(INITIAL, steps);
            var j, b, p := s.log[a].entry, s.blocks, s.procs;
            var f, r := Forked(j.id, p), Reported(j.id, WORKING);
            var mark := InstallSet(j.id, j.serverId, SERVER_INSTALL_IN_PROCESS);
            && (j.task == "gsstart" ==> es == [Started(j.id), Mapped(j.id, b, ServerCmd(START, j.serverId)), f, r])
            && (j.task == "gsstop" ==> es == [Started(j.id), Mapped(j.id, b, ServerCmd(STOP, j.serverId)), f, r])
            && (j.task == "gsrest" ==> es == [Started(j.id), Mapped(j.id, b, ServerCmd(RESTART, j.serverId)), f, r])
            && (j.task == "gsinst" ==>
                  es == [Started(j.id), Mapped(j.id, b, ServerCmd(INSTALL, j.serverId)), mark, f, r])
            && (j.task == "gsupd" ==>
                  es == [Started(j.id), Mapped(j.id, b, ServerCmd(UPDATE, j.serverId)), mark, f, r])
            && (j.task == "gsdel" ==> es == [Started(j.id), Mapped(j.id, b, ServerCmd(DELETE, j.serverId)), f, r])
            && (j.task == "cmdexec" && j.cmd.None? ==> es == [Started(j.id), Mapped(j.id, b, ShellCmd("")), f, r])
            && (j.task == "cmdexec" && j.cmd.Some? ==>
                  es == [Started(j.id), Mapped(j.id, b, ShellCmd(j.cmd.value)), f, r])
            && (j.task !in {"gsstart", "gsstop", "gsrest", "gsinst", "gsupd", "gsdel", "cmdexec"} ==>
                  es == [Started(j.id), OutputSent(j.id, "Unknown task"), OutputSent(j.id, "Empty cmd"),
                         Reported(j.id, ERROR)])
    ensures var s, s' := Run(INITIAL, steps), Run(INITIAL, steps + [Tick(shown)]);
            var t, j, rest := s.queue[0], s.log[a].entry, s.queue[1..];
            if j.task in {"gsstart", "gsstop", "gsrest", "gsinst", "gsupd", "gsdel", "cmdexec"} then
              s' == State(rest + [t.(status := WORKING)], s.admitted, s.cmds[j.id := s.blocks], s.pids[j.id := s.procs],
                          s.log + es, s.blocks + 1, s.procs + 1)
            else
              s' == State(rest, s.admitted - {j.id}, s.cmds, s.pids, s.log + es, s.blocks, s.procs)
  {
    var s := Run(INITIAL, steps);
    var t, j := s.queue[0], s.log[a].entry;
    es := StartEvents(t, s.blocks, s.procs);
    FrontEntry(steps, a);
    RunSnoc(steps, Tick(shown));
    StartedTask(s, t, shown);
    StartLog(t, s.blocks, s.procs);
    NameTells(j);
  }

  lemma RunSnoc(steps: seq<Step>, step: Step)
    ensures Run(INITIAL, steps + [step]) == Next(Run(INITIAL, steps), step)
  {
    assert (steps + [step])[..|steps|] == steps;
  }

  lemma PolledTask(s: State, t: Task, shown: Poll)
    requires s.queue != [] && s.queue[0] == t && t.status == WORKING && !Blocked(t, s.admitted)
    requires t.id in s.cmds && t.id in s.pids
    ensures !Ends(shown) ==>
              RunNext(s, shown) == s.(queue := s.queue[1..] + [t],
                                      log := s.log + [Polled(t.id, s.pids[t.id], shown)] + Sent(t.id, shown.output))
    ensures Ends(shown) ==>
              RunNext(s, shown) == s.(
                queue := s.queue[1..], admitted := s.admitted - {t.id},
                cmds := s.cmds - {t.id}, pids := s.pids - {t.id},
                log := s.log + [Polled(t.id, s.pids[t.id], shown)] + EndEvents(t, s.cmds[t.id], shown))
  {
    var cmds := s.cmds - {t.id};
    assert cmds - {t.id} == cmds;
  }

  /** A poll of a working task: the whole new state, and every call. It ends the task exactly if the
      command says it is complete or the process has ended, and the task has succeeded exactly if the
      command says so and the process ended normally. */
  lemma CallsOfPoll(steps: seq<Step>, shown: Poll, a: nat)
    requires var s := Run(INITIAL, steps);
             && s.queue != [] && s.queue[0].status == WORKING && LastAdmission(s.log, a, s.queue[0].id)
             && (s.queue[0].runAftId == 0 || s.queue[0].runAftId !in s.admitted)
    ensures var s, s' := Run(INITIAL, steps), Run(INITIAL, steps + [Tick(shown)]);
            var t, j := s.queue[0], s.log[a].entry;
            && j.id in s.cmds && j.id in s.pids
            && (!shown.complete && shown.child == PROCESS_WORKING ==>
                  s' == s.(queue := s.queue[1..] + [t],
                           log := s.log + [Polled(j.id, s.pids[j.id], shown)]
                                  + (if shown.output == "" then [] else [OutputSent(j.id, shown.output)])))
            && (shown.complete || shown.child != PROCESS_WORKING ==>
                  var ok := shown.result && shown.child == PROCESS_SUCCESS;
                  var text :=
                    if shown.child == PROCESS_SUCCESS then shown.output else shown.output + "Child process failure";
                  var marks :=
                    if j.task == "gsinst" || j.task == "gsupd" then
                      [InstallSet(j.id, j.serverId, if ok then SERVER_INSTALLED else SERVER_NOT_INSTALLED)]
                    else if j.task == "gsdel" && ok then [InstallSet(j.id, j.serverId, SERVER_NOT_INSTALLED)]
                    else [];
                  s' == s.(queue := s.queue[1..], admitted := s.admitted - {j.id},
                           cmds := s.cmds - {j.id}, pids := s.pids - {j.id},
                           log := s.log + [Polled(j.id, s.pids[j.id], shown)] + marks
                                  + [Unmapped(j.id, s.cmds[j.id]), Reported(j.id, if ok then SUCCESS else ERROR)]
                                  + (if text == "" then [] else [OutputSent(j.id, text)])))
  {
    var s := Run(INITIAL, steps);
    var t, j := s.queue[0], s.log[a].entry;
    FrontEntry(steps, a);
    RunSnoc(steps, Tick(shown));
    PolledTask(s, t, shown);
    if Ends(shown) {
      var p := [Polled(t.id, s.pids[t.id], shown)];
      EndLogged(s.log + p, t, j, s.cmds[t.id], shown);
      assert s.log + p + EndEvents(t, s.cmds[t.id], shown) == (s.log + p) + EndEvents(t, s.cmds[t.id], shown);
    }
  }

  lemma EndLogged(log: seq<Event>, t: Task, j: PanelTask, block: nat, shown: Poll)
    requires CameFrom(t, j)
    ensures var ok := shown.result && shown.child == PROCESS_SUCCESS;
            var text := if shown.child == PROCESS_SUCCESS then shown.output else shown.output + "Child process failure";
            var marks :=
              if j.task == "gsinst" || j.task == "gsupd" then
                [InstallSet(j.id, j.serverId, if ok then SERVER_INSTALLED else SERVER_NOT_INSTALLED)]
              else if j.task == "gsdel" && ok then [InstallSet(j.id, j.serverId, SERVER_NOT_INSTALLED)]
              else [];
            log + EndEvents(t, block, shown)
            == log + marks + [Unmapped(j.id, block), Reported(j.id, if ok then SUCCESS else ERROR)]
               + (if text == "" then [] else [OutputSent(j.id, text)])
  {
    var marks := AfterCmd(t.(status := Verdict(shown)));
    var u, o := [Unmapped(t.id, block), Reported(t.id, Verdict(shown))], Sent(t.id, LastOutput(shown));
    NameTells(j);
    assert shown.output + "" == shown.output;
    assert log + EndEvents(t, block, shown) == log + marks + u + o;
  }

  // ---------------------------------------------------------------- polls and reports in the log

  lemma StorySnoc(log: seq<Event>, k: nat, id: nat)
    requires k < |log|
    ensures StoryOf(log[..k + 1], id)
         == if log[k].Of() == id then Tell(StoryOf(log[..k], id), log[k]) else StoryOf(log[..k], id)
  {
    assert log[..k + 1] == log[..k] + [log[k]];
    StoryConcat(Story(None, [], None), log[..k], log[k], id);
  }

  lemma {:induction false} StoryConcat(st: Story, es: seq<Event>, e: Event, id: nat)
    ensures StoryAfter(st, es + [e], id)
         == if e.Of() == id then Tell(StoryAfter(st, es, id), e) else StoryAfter(st, es, id)
    decreases es
  {
    if es == [] {
      assert [] + [e] == [e] && [e][1..] == [];
    } else {
      assert (es + [e])[1..] == es[1..] + [e];
      StoryConcat(if es[0].Of() == id then Tell(st, es[0]) else st, es[1..], e, id);
    }
  }

  /** Between `k` and `i` the task is neither polled nor admitted again. */
  predicate QuietBetween(log: seq<Event>, k: nat, i: nat, id: nat)
    requires i <= |log|
  {
    forall m :: k < m < i && log[m].Of() == id ==> !log[m].Polled? && !log[m].Admitted?
  }

  lemma {:induction false} LastPollTold(log: seq<Event>, k: nat, i: nat, id: nat)
    requires k < i <= |log| && log[k].Polled? && log[k].id == id && QuietBetween(log, k, i, id)
    ensures StoryOf(log[..i], id).poll == Some(log[k].poll)
    decreases i
  {
    StorySnoc(log, i - 1, id);
    if k < i - 1 { LastPollTold(log, k, i - 1, id); }
  }

  /** In every run: a report that follows a poll of the same admission, with no later poll between,
      is SUCCESS or ERROR; it is SUCCESS exactly if the poll saw a true result and a normal exit, and
      the poll saw the command complete or the process ended. */
  lemma VerdictOfLastPoll(steps: seq<Step>, k: nat, i: nat)
    requires var log := Run(INITIAL, steps).log;
             && k < i < |log| && log[k].Polled? && log[i].Reported? && log[i].id == log[k].id
             && (forall m :: k < m < i && log[m].Of() == log[k].id ==> !log[m].Polled? && !log[m].Admitted?)
    ensures var log := Run(INITIAL, steps).log;
            && (log[i].status == SUCCESS <==> log[k].poll.result && log[k].poll.child == PROCESS_SUCCESS)
            && (log[i].status == ERROR <==> !log[k].poll.result || log[k].poll.child != PROCESS_SUCCESS)
            && (log[k].poll.complete || log[k].poll.child != PROCESS_WORKING)
  {
    var log := Run(INITIAL, steps).log;
    var id := log[k].id;
    LastPollTold(log, k, i, id);
    ConsistentAfter(Absent, Story(None, [], None), log[..i], id);
    LivesInOrder(steps, i + 1, id);
    PhaseNext(log, i, id);
    VerdictOfPhase(PhaseOf(log[..i], id), StoryOf(log[..i], id), log[i], log[k].poll);
  }

  lemma VerdictOfPhase(p: Phase, st: Story, e: Event, poll: Poll)
    requires Consistent(p, st) && st.poll == Some(poll) && e.Reported? && Advance(p, e) != Stray
    ensures e.status == SUCCESS <==> poll.result && poll.child == PROCESS_SUCCESS
    ensures e.status == ERROR <==> !poll.result || poll.child != PROCESS_SUCCESS
    ensures poll.complete || poll.child != PROCESS_WORKING
  {
  }

  lemma RestingPhase(s: State, id: nat)
    requires Good(s)
    ensures var p := PhaseOf(s.log, id); p.Absent? || p.Queued? || p.Running?
  {
    if id in s.admitted {
      var t :| t in s.queue && t.id == id;
      assert PhaseOf(s.log, t.id) == Expected(s, t);
      if t.status == WORKING { assert t.id in WorkingIds(s.queue); }
    }
  }

  /** A judged task is reported before anything else is done with it. */
  lemma {:induction false} JudgedIsReported(log: seq<Event>, c: nat, id: nat) returns (i: nat)
    requires c <= |log| && (PhaseOf(log[..c], id).Judged? || PhaseOf(log[..c], id).Released?)
    requires var p := PhaseOf(log, id); p.Absent? || p.Queued? || p.Running?
    ensures c <= i < |log| && log[i].Reported? && log[i].id == id
    ensures forall m :: c <= m < i && log[m].Of() == id ==> !log[m].Polled? && !log[m].Admitted?
    decreases |log| - c
  {
    assert log[..|log|] == log;
    PhaseNext(log, c, id);
    PrefixNotStray(log, c + 1, id);
    if log[c].Of() == id && log[c].Reported? {
      i := c;
    } else {
      i := JudgedIsReported(log, c + 1, id);
    }
  }

  lemma EndReportedIn(log: seq<Event>, k: nat, id: nat) returns (i: nat)
    requires k < |log| && log[k].Polled? && log[k].id == id
    requires log[k].poll.complete || log[k].poll.child != PROCESS_WORKING
    requires PhaseOf(log[..k + 1], id) != Stray
    requires var p := PhaseOf(log, id); p.Absent? || p.Queued? || p.Running?
    ensures k < i < |log| && log[i].Reported? && log[i].id == id
    ensures forall m :: k < m < i && log[m].Of() == id ==> !log[m].Polled? && !log[m].Admitted?
  {
    PhaseNext(log, k, id);
    i := JudgedIsReported(log, k + 1, id);
  }

  /** A poll that shows an end is followed by a report. */
  lemma EndIsReported(steps: seq<Step>, k: nat) returns (i: nat)
    requires var log := Run(INITIAL, steps).log;
             k < |log| && log[k].Polled? && (log[k].poll.complete || log[k].poll.child != PROCESS_WORKING)
    ensures var log := Run(INITIAL, steps).log;
            && k < i < |log| && log[i].Reported? && log[i].id == log[k].id
            && forall m :: k < m < i && log[m].Of() == log[k].id ==> !log[m].Polled? && !log[m].Admitted?
  {
    var log := Run(INITIAL, steps).log;
    EndPhases(steps, k + 1, log[k].id);
    i := EndReportedIn(log, k, log[k].id);
  }

  lemma EndPhases(steps: seq<Step>, c: nat, id: nat)
    requires c <= |Run(INITIAL, steps).log|
    ensures PhaseOf(Run(INITIAL, steps).log[..c], id) != Stray
    ensures var p := PhaseOf(Run(INITIAL, steps).log, id); p.Absent? || p.Queued? || p.Running?
  {
    RunIsGood(steps);
    RestingPhase(Run(INITIAL, steps), id);
    LivesInOrder(steps, c, id);
  }

  /** In every run: a poll ends its task, which is then reported before it is polled or admitted
      again, exactly if the command says it is complete or the process has ended. */
  lemma PollDecides(steps: seq<Step>, k: nat)
    requires k < |Run(INITIAL, steps).log| && Run(INITIAL, steps).log[k].Polled?
    ensures var log := Run(INITIAL, steps).log;
            (log[k].poll.complete || log[k].poll.child != PROCESS_WORKING)
            <==> exists i :: k < i < |log| && log[i].Reported? && log[i].id == log[k].id
                   && forall m :: k < m < i && log[m].Of() == log[k].id ==> !log[m].Polled? && !log[m].Admitted?
  {
    var log := Run(INITIAL, steps).log;
    if log[k].poll.complete || log[k].poll.child != PROCESS_WORKING {
      var i := EndIsReported(steps, k);
    } else {
      forall i | k < i < |log| && log[i].Reported? && log[i].id == log[k].id
        ensures exists m :: k < m < i && log[m].Of() == log[k].id && (log[m].Polled? || log[m].Admitted?)
      {
        if forall m :: k < m < i && log[m].Of() == log[k].id ==> !log[m].Polled? && !log[m].Admitted? {
          VerdictOfLastPoll(steps, k, i);
        }
      }
    }
  }

  // ---------------------------------------------------------------- what the panel's replies admit

  /** `t` is the waiting task of the entry. */
  predicate IsTaskOf(t: Task, j: PanelTask) {
    && t.id == j.id && t.runAftId == j.runAftId && t.serverId == j.serverId && t.status == WAITING
    && t.cmd == if j.cmd.Some? then j.cmd.value else ""
  }

  predicate Increasing(ks: seq<nat>, n: nat) {
    && (forall m :: 0 <= m < |ks| ==> ks[m] < n)
    && (forall l, m :: 0 <= l < m < |ks| ==> ks[l] < ks[m])
  }

  /** `s'` is `s` with the entries `js[ks[0]]`, `js[ks[1]]`, ... taken over. */
  ghost predicate TakenOver(s: State, s': State, js: seq<PanelTask>, ks: seq<nat>)
    requires Increasing(ks, |js|)
  {
    && s' == s.(queue := s'.queue, admitted := s'.admitted, log := s'.log)
    && |s'.queue| == |s.queue| + |ks| && s.queue <= s'.queue
    && |s'.log| == |s.log| + |ks| && s.log <= s'.log
    && (forall m :: 0 <= m < |ks| ==>
          && IsTaskOf(s'.queue[|s.queue| + m], js[ks[m]])
          && s'.log[|s.log| + m] == Admitted(s'.queue[|s.queue| + m], js[ks[m]]))
    && (forall id :: id in s'.admitted <==> id in s.admitted || exists m :: 0 <= m < |ks| && js[ks[m]].id == id)
  }

  lemma TakeOneMore(s: State, before: State, js: seq<PanelTask>, ks: seq<nat>, k: nat)
    requires k < |js| && Increasing(ks, k) && TakenOver(s, before, js, ks) && js[k].id !in before.admitted
    ensures Increasing(ks + [k], |js|)
    ensures TakenOver(s, before.(queue := before.queue + [NewTask(js[k])], admitted := before.admitted + {js[k].id},
                                 log := before.log + [Admitted(NewTask(js[k]), js[k])]), js, ks + [k])
  {
    var ks' := ks + [k];
    var admitted := before.admitted + {js[k].id};
    assert ks'[|ks|] == k;
    forall id ensures id in admitted <==> id in s.admitted || exists m :: 0 <= m < |ks'| && js[ks'[m]].id == id {
      if m :| 0 <= m < |ks| && js[ks[m]].id == id { assert ks'[m] == ks[m]; }
    }
  }

  /** The entries taken are the ones that can be, one after the other. */
  ghost predicate Chosen(s: State, js: seq<PanelTask>, wanted: nat, n: nat, ks: seq<nat>)
    requires n <= |js|
  {
    forall k :: 0 <= k < n ==>
      (k in ks <==>
        && js[k].id !in AdmitAll(s, js[..k], wanted).admitted
        && js[k].task != "" && js[k].statusNum == wanted && (js[k].serverId == 0 || js[k].serverKnown))
  }

  lemma ChosenStep(s: State, js: seq<PanelTask>, wanted: nat, n: nat, ks: seq<nat>)
    requires n < |js| && Increasing(ks, n) && Chosen(s, js, wanted, n, ks)
    ensures Chosen(s, js, wanted, n + 1,
                   if Admits(AdmitAll(s, js[..n], wanted).admitted, js[n], wanted) then ks + [n] else ks)
  {
  }

  lemma AdmitAllStep(s: State, js: seq<PanelTask>, wanted: nat, n: nat)
    requires n < |js|
    ensures AdmitAll(s, js[..n + 1], wanted) == Admit(AdmitAll(s, js[..n], wanted), js[n], wanted)
  {
    assert js[..n + 1][..n] == js[..n];
  }

  lemma TakeStep(s: State, before: State, js: seq<PanelTask>, wanted: nat, n: nat, ks: seq<nat>) returns (ks': seq<nat>)
    requires n < |js| && Increasing(ks, n) && TakenOver(s, before, js, ks)
    ensures ks' == if Admits(before.admitted, js[n], wanted) then ks + [n] else ks
    ensures Increasing(ks', n + 1) && TakenOver(s, Admit(before, js[n], wanted), js, ks')
  {
    ks' := ks;
    if Admits(before.admitted, js[n], wanted) {
      TakeOneMore(s, before, js, ks, n);
      ks' := ks + [n];
    }
  }

  lemma {:induction false} UpTo(s: State, js: seq<PanelTask>, wanted: nat, n: nat) returns (ks: seq<nat>)
    requires n <= |js|
    ensures Increasing(ks, n) && TakenOver(s, AdmitAll(s, js[..n], wanted), js, ks) && Chosen(s, js, wanted, n, ks)
    decreases n
  {
    if n == 0 {
      ks := [];
    } else {
      var init := UpTo(s, js, wanted, n - 1);
      AdmitAllStep(s, js, wanted, n - 1);
      ChosenStep(s, js, wanted, n - 1, init);
      ks := TakeStep(s, AdmitAll(s, js[..n - 1], wanted), js, wanted, n - 1, init);
    }
  }

  /** One reply of the panel, in its order: the entries `js[ks[0]]`, `js[ks[1]]`, ... become waiting
      tasks at the back of the queue. An entry is taken exactly if no task of its id is there yet, it
      has a name, its status is 1 (2 after a crash), and its server, if any, is known. */
  lemma CallsOfUpdate(s: State, js: seq<PanelTask>, crash: bool) returns (ks: seq<nat>)
    ensures Increasing(ks, |js|)
    ensures TakenOver(s, Next(s, if crash then CheckAfterCrash(Some(js)) else Update(Some(js))), js, ks)
    ensures forall k :: 0 <= k < |js| ==>
              (k in ks <==>
                && js[k].id !in Next(s, if crash then CheckAfterCrash(Some(js[..k]))
                                        else Update(Some(js[..k]))).admitted
                && js[k].task != "" && js[k].statusNum == (if crash then 2 else 1)
                && (js[k].serverId == 0 || js[k].serverKnown))
  {
    ks := UpTo(s, js, if crash then 2 else 1, |js|);
    assert js[..|js|] == js;
  }

  /** A failed request changes nothing. */
  lemma CallsOfFailedUpdate(s: State)
    ensures Next(s, Update(None)) == s && Next(s, CheckAfterCrash(None)) == s
  {
  }

  // ---------------------------------------------------------------- starts in the log

  lemma {:induction false} AdmitAllAppends(s: State, js: seq<PanelTask>, wanted: nat) returns (es: seq<Event>)
    ensures AdmitAll(s, js, wanted).log == s.log + es && forall e :: e in es ==> e.Admitted?
    decreases js
  {
    if js == [] {
      es := [];
      assert s.log + [] == s.log;
    } else {
      var before, j := AdmitAll(s, js[..|js| - 1], wanted), js[|js| - 1];
      var init := AdmitAllAppends(s, js[..|js| - 1], wanted);
      var last := if Admits(before.admitted, j, wanted) then [Admitted(NewTask(j), j)] else [];
      es := init + last;
      assert s.log + es == s.log + init + last;
      assert before.log + [] == before.log;
    }
  }

  /** The step starts the front task. */
  predicate Starts(s: State, step: Step) {
    && step.Tick? && s.queue != [] && s.queue[0].status == WAITING
    && (s.queue[0].runAftId == 0 || s.queue[0].runAftId !in s.admitted)
  }

  /** Only a start logs that a task is started. */
  lemma OtherSteps(s: State, step: Step) returns (es: seq<Event>)
    requires Inv(s) && !Starts(s, step)
    ensures Next(s, step).log == s.log + es && forall e :: e in es ==> !e.Started?
  {
    es := [];
    assert s.log + [] == s.log;
    match step
    case Update(reply) => if reply.Some? { es := AdmitAllAppends(s, reply.value, TASK_WAITING); }
    case CheckAfterCrash(reply) => if reply.Some? { es := AdmitAllAppends(s, reply.value, TASK_WORKING); }
    case Tick(shown) =>
      if s.queue != [] && !Blocked(s.queue[0], s.admitted) {
        var t, popped := s.queue[0], s.(queue := s.queue[1..]);
        FrontRuns(s);
        es := RunEvents(popped, t, shown);
        RunEventsLogged(popped, t, shown);
        var r := RunTask(popped, t, shown);
        RequeueLog(r.0, r.1);
        NoStartInPoll(t, s.cmds[t.id], s.pids[t.id], shown);
      }
  }

  lemma NoStartInPoll(t: Task, block: nat, pid: nat, shown: Poll)
    ensures var tail := if Ends(shown) then EndEvents(t, block, shown) else Sent(t.id, shown.output);
            forall e :: e in [Polled(t.id, pid, shown)] + tail ==> !e.Started?
  {
  }

  /** The calls of a start stand at `i`, by the name in the entry. */
  predicate StartShown(log: seq<Event>, i: nat, j: PanelTask) {
    && i + 3 < |log|
    && (j.task in {"gsstart", "gsstop", "gsrest", "gsinst", "gsupd", "gsdel", "cmdexec"} <==> log[i + 1].Mapped?)
    && (j.task in {"gsinst", "gsupd"} <==> log[i + 2] == InstallSet(j.id, j.serverId, SERVER_INSTALL_IN_PROCESS))
    && (j.task in {"gsstart", "gsstop", "gsrest", "gsdel", "cmdexec"} <==>
          log[i + 2].Forked? && log[i + 3] == Reported(j.id, WORKING))
    && (j.task in {"gsinst", "gsupd"} <==>
          i + 4 < |log| && log[i + 3].Forked? && log[i + 4] == Reported(j.id, WORKING))
    && (j.task !in {"gsstart", "gsstop", "gsrest", "gsinst", "gsupd", "gsdel", "cmdexec"} <==>
          log[i + 3] == Reported(j.id, ERROR))
  }

  lemma ShownLonger(log: seq<Event>, es: seq<Event>, i: nat, j: PanelTask)
    requires StartShown(log, i, j)
    ensures StartShown(log + es, i, j)
  {
  }

  lemma StartedFirst(s: State, shown: Poll)
    requires Inv(s) && Starts(s, Tick(shown))
    ensures var log, log' := s.log, Next(s, Tick(shown)).log;
            && |log| < |log'| && log <= log' && log'[|log|] == Started(s.queue[0].id)
            && forall i :: |log| < i < |log'| ==> !log'[i].Started?
  {
    var t := s.queue[0];
    FrontRuns(s);
    StartedTask(s, t, shown);
    StartLog(t, s.blocks, s.procs);
  }

  lemma NewStart(steps: seq<Step>, shown: Poll, a: nat)
    requires Starts(Run(INITIAL, steps), Tick(shown))
    requires LastAdmission(Run(INITIAL, steps).log, a, Run(INITIAL, steps).queue[0].id)
    ensures var log, log' := Run(INITIAL, steps).log, Run(INITIAL, steps + [Tick(shown)]).log;
            StartShown(log', |log|, log[a].entry)
  {
    var es := CallsOfStart(steps, shown, a);
    var log := Run(INITIAL, steps).log;
    EsShown(log, es, log[a].entry);
  }

  lemma EsShown(log: seq<Event>, es: seq<Event>, j: PanelTask)
    requires StartShown(es, 0, j)
    ensures StartShown(log + es, |log|, j)
  {
    assert forall i :: 0 <= i < |es| ==> (log + es)[|log| + i] == es[i];
  }

  /** In every run, at every start of a task, by the name in the entry of its last admission: a known
      name has a command put into a block, the install status set for "gsinst" and "gsupd", a process
      forked and WORKING reported; any other name has ERROR reported and nothing mapped. */
  lemma {:induction false} StartInLog(steps: seq<Step>, a: nat, i: nat)
    requires var log := Run(INITIAL, steps).log;
             i < |log| && log[i].Started? && LastAdmission(log[..i], a, log[i].id)
    ensures StartShown(Run(INITIAL, steps).log, i, Run(INITIAL, steps).log[a].entry)
    decreases steps
  {
    var log := Run(INITIAL, steps).log;
    var init, step := steps[..|steps| - 1], steps[|steps| - 1];
    var s := Run(INITIAL, init);
    RunKeepsInv(INITIAL, init);
    assert init + [step] == steps;
    if Starts(s, step) {
      StartedFirst(s, step.shown);
    } else {
      var es := OtherSteps(s, step);
      assert forall k :: |s.log| <= k < |log| ==> log[k] == es[k - |s.log|] && log[k] in es;
    }
    assert s.log <= log;
    if i < |s.log| {
      assert log[..i] == s.log[..i];
      StartInLog(init, a, i);
      ShownLonger(s.log, log[|s.log|..], i, s.log[a].entry);
      assert s.log + log[|s.log|..] == log;
    } else {
      assert log[..i] == s.log;
      NewStart(init, step.shown, a);
    }
  }
}
