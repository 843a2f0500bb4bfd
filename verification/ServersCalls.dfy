/** What `ServersTasks` does in one call of `run_next`, in the terms of the panel's record and of the
    poll alone: no name here stands for a decision of the scheduler. */
module ServersCalls {
  import opened Commands
  import opened ServersHeap
  import opened ServersModel
  import opened ServersInvariant

  /** The head, before its record is read again. */
  lemma HeadRecord(s: State)
    requires SInv(s) && s.heap != []
    ensures var t := s.heap[0];
            && InPlace(s, t) && t in multiset(s.heap)
            && (t.status == WORKING <==> t.id in s.cmds) && (t.status == WORKING <==> t.id in s.pids)
  {
    MultisetHead(s.heap);
    WorkerIffMapped(s, multiset(s.heap), s.heap[0]);
  }

  /** The head after the record was read again, and whether the call goes on. */
  lemma HeadRead(s: State, step: Step)
    requires SInv(s) && s.heap != [] && step.RunStep? && s.clock <= step.now
    ensures var t, r := s.heap[0], Synced(s, step.now, step.reachable);
            && t.id in s.panel && r.heap != [] && r.heap == s.heap[0 := r.heap[0]]
            && r == s.(heap := r.heap, lastSync := r.lastSync)
            && (t.status == WAITING ==>
                  r.heap[0] == t && (Due(s, step) <==> step.now > s.panel[t.id].date))
            && (t.status == WORKING ==>
                  && r.heap[0] == t.(executeDate := r.heap[0].executeDate)
                  && (Due(s, step) <==>
                        || t.executeDate < step.now
                        || ((t.id !in s.lastSync || s.lastSync[t.id] < step.now - 300) && step.reachable)))
  {
    HeadRecord(s);
    SyncedHead(s, step.now, step.reachable);
  }

  /** A call that does not get past the early return. */
  lemma NotDue(s: State, step: Step)
    requires SInv(s) && s.heap != [] && step.RunStep? && s.clock <= step.now && !Due(s, step)
    ensures var s' := Next(s, step);
            s' == s.(heap := s.heap[0 := s'.heap[0]], lastSync := s'.lastSync, clock := step.now) && s'.heap == s.heap
  {
    HeadRead(s, step);
    assert s.heap[0 := s.heap[0]] == s.heap;
  }

  /** The arrangements of a due call as multisets. */
  lemma Arranged(s: State, step: Step)
    requires SInv(s) && s.heap != [] && step.RunStep? && Allowed(s, step) && Due(s, step)
    ensures multiset(step.popped) == multiset(s.heap) - multiset{s.heap[0]}
    ensures var synced := Synced(s, step.now, step.reachable);
            var t, s1 := synced.heap[0], synced.(heap := step.popped, clock := step.later);
            var t' := RunTask(s1, t, step.shown, step.now, step.later).1;
            && Next(s, step) == Handle(s1, t, step.shown, step.now, step.later, step.pushed)
            && (!Exhausted(t) && GoesBack(t') ==>
                  multiset(step.pushed) == multiset(s.heap) - multiset{s.heap[0]} + multiset{Again(t', step.later)})
  {
    HeadRead(s, step);
    HeadRemoved(s, step.now, step.reachable);
  }

  /** A waiting task is left alone up to its date. */
  lemma WaitsForDate(s: State, step: Step)
    requires SInv(s) && s.heap != [] && step.RunStep? && s.clock <= step.now && s.heap[0].status == WAITING
    requires s.heap[0].id in s.panel ==> step.now <= s.panel[s.heap[0].id].date
    ensures Next(s, step) == s.(lastSync := Next(s, step).lastSync, clock := step.now)
  {
    HeadRead(s, step);
    NotDue(s, step);
  }

  /** A waiting task that is due and has reached its number of repetitions is dropped. */
  lemma DroppedAtLimit(s: State, step: Step)
    requires SInv(s) && s.heap != [] && step.RunStep? && Allowed(s, step) && s.heap[0].status == WAITING
    requires s.heap[0].id in s.panel
    requires var r := s.panel[s.heap[0].id];
             step.now > r.date && r.repeat % 0x1_0000 != 0 && r.counter >= r.repeat % 0x1_0000
    ensures var s' := Next(s, step);
            && s' == s.(heap := s'.heap, lastSync := s'.lastSync, clock := step.later)
            && multiset(s'.heap) == multiset(s.heap) - multiset{s.heap[0]}
  {
    HeadRecord(s);
    HeadRead(s, step);
    Arranged(s, step);
  }

  lemma HandleStart(s: State, t: Task, shown: Poll, now: int, later: int, pushed: seq<Task>)
    requires t.status == WAITING && !Exhausted(t) && t.id !in s.cmds && t.id !in s.pids
    ensures Handle(s, t, shown, now, later, pushed)
         == s.(heap := pushed, cmds := s.cmds[t.id := s.blocks], pids := s.pids[t.id := s.procs],
               blocks := s.blocks + 1, procs := s.procs + 1, log := s.log + StartEvents(t, now, s.blocks, s.procs))
    ensures GoesBack(RunTask(s, t, shown, now, later).1)
    ensures Again(RunTask(s, t, shown, now, later).1, later) == t.(status := WORKING, executeDate := later + 30)
  {
  }

  lemma StartedLog(log: seq<Event>, t: Task, now: int, block: nat, pid: nat)
    ensures log + StartEvents(t, now, block, pid)
         == log + [Started(t.id, now), Mapped(t.id, block, ServerCmd(RESTART, t.serverId))]
            + (if t.command == 8 || t.command == 9 then
                 [InstallSet(t.id, t.serverId, SERVER_INSTALL_IN_PROCESS)] else [])
            + [Forked(t.id, pid)]
  {
    var a, c := [Started(t.id, now), Mapped(t.id, block, ServerCmd(RESTART, t.serverId))], [Forked(t.id, pid)];
    var b := BeforeCmd(t);
    assert log + (a + b + c) == log + a + b + c;
  }

  /** The state of a due call behind the pop. */
  function AfterPop(s: State, step: Step): State
    requires s.heap != [] && step.RunStep?
  {
    s.(heap := step.popped, clock := step.later, lastSync := Synced(s, step.now, step.reachable).lastSync)
  }

  lemma WaitingArranged(s: State, step: Step)
    requires SInv(s) && s.heap != [] && step.RunStep? && Allowed(s, step) && Due(s, step)
    requires s.heap[0].status == WAITING
    ensures var t, s1 := s.heap[0], AfterPop(s, step);
            var t' := RunTask(s1, t, step.shown, step.now, step.later).1;
            && t.id !in s.cmds && t.id !in s.pids
            && Next(s, step) == Handle(s1, t, step.shown, step.now, step.later, step.pushed)
            && (!Exhausted(t) && GoesBack(t') ==>
                  multiset(step.pushed) == multiset(s.heap) - multiset{t} + multiset{Again(t', step.later)})
  {
    HeadRecord(s);
    HeadRead(s, step);
    Arranged(s, step);
    var synced := Synced(s, step.now, step.reachable);
    assert synced.(heap := step.popped, clock := step.later) == AfterPop(s, step);
  }

  /** The due call of a waiting task that is not exhausted. */
  lemma StartedState(s: State, step: Step, t: Task)
    requires SInv(s) && s.heap != [] && step.RunStep? && Allowed(s, step) && Due(s, step)
    requires s.heap[0] == t && t.status == WAITING && !Exhausted(t)
    ensures var s' := Next(s, step);
            && s' == s.(heap := s'.heap, lastSync := s'.lastSync, clock := step.later,
                        cmds := s.cmds[t.id := s.blocks], pids := s.pids[t.id := s.procs],
                        blocks := s.blocks + 1, procs := s.procs + 1,
                        log := s.log + StartEvents(t, step.now, s.blocks, s.procs))
            && multiset(s'.heap)
               == multiset(s.heap) - multiset{t} + multiset{t.(status := WORKING, executeDate := step.later + 30)}
  {
    WaitingArranged(s, step);
    HandleStart(AfterPop(s, step), t, step.shown, step.now, step.later, step.pushed);
  }

  /** What the record says of a waiting head. */
  lemma WaitingHead(s: State, step: Step)
    requires SInv(s) && s.heap != [] && step.RunStep? && s.clock <= step.now && s.heap[0].status == WAITING
    ensures var t := s.heap[0];
            && t.id in s.panel && t.command == s.panel[t.id].command && t.serverId == s.panel[t.id].serverId
            && (Due(s, step) <==> step.now > s.panel[t.id].date)
            && (Exhausted(t) <==>
                  s.panel[t.id].repeat % 0x1_0000 != 0 && s.panel[t.id].counter >= s.panel[t.id].repeat % 0x1_0000)
  {
    HeadRecord(s);
    HeadRead(s, step);
  }

  /** A waiting task that is due and has repetitions left, or no limit, is started: every call, and
      the whole new state. It is polled 30 seconds later. */
  lemma StartedWhenDue(s: State, step: Step)
    requires SInv(s) && s.heap != [] && step.RunStep? && Allowed(s, step) && s.heap[0].status == WAITING
    requires s.heap[0].id in s.panel
    requires var r := s.panel[s.heap[0].id];
             step.now > r.date && (r.repeat % 0x1_0000 == 0 || r.counter < r.repeat % 0x1_0000)
    ensures var t, s' := s.heap[0], Next(s, step);
            && s' == s.(heap := s'.heap, lastSync := s'.lastSync, clock := step.later,
                        cmds := s.cmds[t.id := s.blocks], pids := s.pids[t.id := s.procs],
                        blocks := s.blocks + 1, procs := s.procs + 1, log := s'.log)
            && multiset(s'.heap)
               == multiset(s.heap) - multiset{t} + multiset{t.(status := WORKING, executeDate := step.later + 30)}
    ensures var id, r := s.heap[0].id, s.panel[s.heap[0].id];
            Next(s, step).log
            == s.log + [Started(id, step.now), Mapped(id, s.blocks, ServerCmd(RESTART, r.serverId))]
               + (if r.command == 8 || r.command == 9 then
                    [InstallSet(id, r.serverId, SERVER_INSTALL_IN_PROCESS)] else [])
               + [Forked(id, s.procs)]
  {
    WaitingHead(s, step);
    StartedState(s, step, s.heap[0]);
    StartedLog(s.log, s.heap[0], step.now, s.blocks, s.procs);
  }

  lemma HasStart(log: seq<Event>, t: Task, now: int, block: nat, pid: nat)
    ensures var log' := log + StartEvents(t, now, block, pid);
            log <= log' && |log| < |log'| && log'[|log|] == Started(t.id, now)
  {
  }

  lemma WaitingLog(s: State, step: Step)
    requires SInv(s) && s.heap != [] && step.RunStep? && Allowed(s, step) && s.heap[0].status == WAITING
    ensures if Due(s, step) && !Exhausted(s.heap[0]) then
              Next(s, step).log == s.log + StartEvents(s.heap[0], step.now, s.blocks, s.procs)
            else Next(s, step).log == s.log
  {
    WaitingHead(s, step);
    if !Due(s, step) {
      WaitsForDate(s, step);
    } else if Exhausted(s.heap[0]) {
      DroppedAtLimit(s, step);
    } else {
      StartedState(s, step, s.heap[0]);
    }
  }

  /** A call with a waiting head logs a start exactly if the date is past and repetitions are left. */
  lemma StartedIff(s: State, step: Step)
    requires SInv(s) && s.heap != [] && step.RunStep? && Allowed(s, step) && s.heap[0].status == WAITING
    ensures s.heap[0].id in s.panel
    ensures var t, log, log' := s.heap[0], s.log, Next(s, step).log;
            var r := s.panel[t.id];
            && log <= log'
            && ((exists i :: |log| <= i < |log'| && log'[i] == Started(t.id, step.now))
                <==> step.now > r.date && (r.repeat % 0x1_0000 == 0 || r.counter < r.repeat % 0x1_0000))
  {
    WaitingHead(s, step);
    WaitingLog(s, step);
    HasStart(s.log, s.heap[0], step.now, s.blocks, s.procs);
  }

  // ---------------------------------------------------------------- a working head

  /** A working task is left alone up to its date, unless its record is read again. */
  lemma WaitsForPoll(s: State, step: Step)
    requires SInv(s) && s.heap != [] && step.RunStep? && s.clock <= step.now && s.heap[0].status == WORKING
    requires step.now <= s.heap[0].executeDate
    requires (s.heap[0].id in s.lastSync && s.lastSync[s.heap[0].id] >= step.now - 300) || !step.reachable
    ensures Next(s, step) == s.(lastSync := Next(s, step).lastSync, clock := step.now)
  {
    HeadRead(s, step);
    NotDue(s, step);
  }

  lemma HandlePoll(s: State, t: Task, shown: Poll, now: int, later: int, pushed: seq<Task>)
    requires t.status == WORKING && !Exhausted(t) && t.id in s.cmds && t.id in s.pids && !Ends(shown)
    ensures Handle(s, t, shown, now, later, pushed)
         == s.(heap := pushed, log := s.log + [Polled(t.id, s.pids[t.id], shown)])
    ensures GoesBack(RunTask(s, t, shown, now, later).1)
    ensures Again(RunTask(s, t, shown, now, later).1, later) == t.(executeDate := later + 30)
  {
  }

  /** What the end of a run leaves, without the queue. */
  function AfterEnd(s: State, t: Task, shown: Poll, later: int): State
    requires t.id in s.cmds && t.id in s.pids
  {
    s.(cmds := s.cmds - {t.id}, pids := s.pids - {t.id}, lastSync := s.lastSync - {t.id},
       panel := Written(s.panel, Counted(t, shown, later)),
       log := s.log + [Polled(t.id, s.pids[t.id], shown)] + EndEvents(t, shown, later)
              + [Unmapped(t.id, s.cmds[t.id])])
  }

  lemma HandleEnd(s: State, t: Task, shown: Poll, now: int, later: int, pushed: seq<Task>)
    requires t.status == WORKING && !Exhausted(t) && t.id in s.cmds && t.id in s.pids && Ends(shown)
    ensures var t' := Counted(t, shown, later);
            && RunTask(s, t, shown, now, later).1 == t'
            && Handle(s, t, shown, now, later, pushed)
               == (if GoesBack(t') then AfterEnd(s, t, shown, later).(heap := pushed)
                   else AfterEnd(s, t, shown, later).(exist := s.exist - {t.id}))
            && Again(t', later) == t'.(status := WAITING)
  {
  }

  /** What the record says of a working head, and what the library did in a due call. */
  lemma WorkingHead(s: State, step: Step)
    requires SInv(s) && s.heap != [] && step.RunStep? && Allowed(s, step) && s.heap[0].status == WORKING
    requires || s.heap[0].executeDate < step.now
             || ((s.heap[0].id !in s.lastSync || s.lastSync[s.heap[0].id] < step.now - 300) && step.reachable)
    ensures var t, r := s.heap[0], Synced(s, step.now, step.reachable);
            && t.id in s.panel && Matches(t, s.panel[t.id]) && t.id in s.cmds && t.id in s.pids && t.repeat < 0x1_0000
            && r.heap != [] && r.heap[0] == t.(executeDate := r.heap[0].executeDate) && !Exhausted(r.heap[0])
            && Due(s, step)
  {
    HeadRecord(s);
    HeadRead(s, step);
  }

  lemma WorkingArranged(s: State, step: Step, t: Task)
    requires SInv(s) && s.heap != [] && step.RunStep? && Allowed(s, step) && Due(s, step)
    requires Synced(s, step.now, step.reachable).heap != [] && t == Synced(s, step.now, step.reachable).heap[0]
    ensures var s1, t' := AfterPop(s, step), RunTask(AfterPop(s, step), t, step.shown, step.now, step.later).1;
            && multiset(step.popped) == multiset(s.heap) - multiset{s.heap[0]}
            && Next(s, step) == Handle(s1, t, step.shown, step.now, step.later, step.pushed)
            && (!Exhausted(t) && GoesBack(t') ==>
                  multiset(step.pushed) == multiset(s.heap) - multiset{s.heap[0]} + multiset{Again(t', step.later)})
  {
    HeadRead(s, step);
    Arranged(s, step);
    var synced := Synced(s, step.now, step.reachable);
    assert synced.(heap := step.popped, clock := step.later) == AfterPop(s, step);
  }

  /** The call hands the head `t0`, read again as `t`, to `Handle`. */
  ghost predicate HandsOver(s: State, step: Step, t0: Task, t: Task)
    requires s.heap != [] && step.RunStep?
  {
    var s1 := AfterPop(s, step);
    var t' := RunTask(s1, t, step.shown, step.now, step.later).1;
    && t == t0.(executeDate := t.executeDate) && t.status == WORKING && !Exhausted(t)
    && t.id in s.cmds && t.id in s.pids
    && multiset(step.popped) == multiset(s.heap) - multiset{t0}
    && Next(s, step) == Handle(s1, t, step.shown, step.now, step.later, step.pushed)
    && (GoesBack(t') ==>
          multiset(step.pushed) == multiset(s.heap) - multiset{t0} + multiset{Again(t', step.later)})
  }

  lemma WorkingCall(s: State, step: Step) returns (t: Task)
    requires SInv(s) && s.heap != [] && step.RunStep? && Allowed(s, step) && s.heap[0].status == WORKING
    requires || s.heap[0].executeDate < step.now
             || ((s.heap[0].id !in s.lastSync || s.lastSync[s.heap[0].id] < step.now - 300) && step.reachable)
    ensures HandsOver(s, step, s.heap[0], t)
    ensures s.heap[0].id in s.panel && Matches(s.heap[0], s.panel[s.heap[0].id])
  {
    WorkingHead(s, step);
    t := Synced(s, step.now, step.reachable).heap[0];
    WorkingArranged(s, step, t);
  }

  lemma PolledState(s: State, step: Step, t0: Task, t: Task)
    requires s.heap != [] && step.RunStep? && HandsOver(s, step, t0, t) && !Ends(step.shown)
    ensures var s' := Next(s, step);
            && s' == s.(heap := s'.heap, lastSync := s'.lastSync, clock := step.later,
                        log := s.log + [Polled(t0.id, s.pids[t0.id], step.shown)])
            && multiset(s'.heap) == multiset(s.heap) - multiset{t0} + multiset{t0.(executeDate := step.later + 30)}
  {
    HandlePoll(AfterPop(s, step), t, step.shown, step.now, step.later, step.pushed);
  }

  /** A poll that shows no end: the task is polled again 30 seconds later. */
  lemma PolledOnly(s: State, step: Step)
    requires SInv(s) && s.heap != [] && step.RunStep? && Allowed(s, step) && s.heap[0].status == WORKING
    requires || s.heap[0].executeDate < step.now
             || ((s.heap[0].id !in s.lastSync || s.lastSync[s.heap[0].id] < step.now - 300) && step.reachable)
    requires !step.shown.complete && step.shown.child == PROCESS_WORKING
    ensures var t, s' := s.heap[0], Next(s, step);
            && t.id in s.pids
            && s' == s.(heap := s'.heap, lastSync := s'.lastSync, clock := step.later,
                        log := s.log + [Polled(t.id, s.pids[t.id], step.shown)])
            && multiset(s'.heap) == multiset(s.heap) - multiset{t} + multiset{t.(executeDate := step.later + 30)}
  {
    var t := WorkingCall(s, step);
    PolledState(s, step, s.heap[0], t);
  }

  lemma SameAfterEnd(s: State, step: Step, t0: Task, t: Task)
    requires s.heap != [] && step.RunStep? && t == t0.(executeDate := t.executeDate)
    requires t0.id == s.heap[0].id && t0.id in s.cmds && t0.id in s.pids
    ensures Counted(t, step.shown, step.later) == Counted(t0, step.shown, step.later)
    ensures AfterEnd(AfterPop(s, step), t, step.shown, step.later)
         == AfterEnd(s, t0, step.shown, step.later).(heap := step.popped, clock := step.later)
  {
    SameEnd(t0, t, step.shown, step.later);
    ReadAgain(s, step.now, step.reachable);
    assert AfterPop(s, step).lastSync - {t0.id} == s.lastSync - {t0.id};
  }

  /** The due call of a working task whose poll shows an end. */
  lemma EndedState(s: State, step: Step, t0: Task, t: Task)
    requires s.heap != [] && step.RunStep? && HandsOver(s, step, t0, t) && t0 == s.heap[0] && Ends(step.shown)
    ensures var s', t' := Next(s, step), Counted(t0, step.shown, step.later);
            && s' == AfterEnd(s, t0, step.shown, step.later).(heap := s'.heap, exist := s'.exist, clock := step.later)
            && s'.exist == (if GoesBack(t') then s.exist else s.exist - {t0.id})
            && multiset(s'.heap) == multiset(s.heap) - multiset{t0}
                                    + if GoesBack(t') then multiset{t'.(status := WAITING)} else multiset{}
  {
    HandleEnd(AfterPop(s, step), t, step.shown, step.now, step.later, step.pushed);
    SameAfterEnd(s, step, t0, t);
  }

  /** The date of a working task plays no part in its end. */
  lemma SameEnd(t0: Task, t: Task, shown: Poll, later: int)
    requires t == t0.(executeDate := t.executeDate)
    ensures Counted(t, shown, later) == Counted(t0, shown, later)
    ensures EndEvents(t, shown, later) == EndEvents(t0, shown, later)
  {
  }

  lemma EndLogged(log: seq<Event>, t: Task, shown: Poll, later: int, pid: nat, block: nat)
    ensures var ok := shown.result && shown.child == PROCESS_SUCCESS;
            log + [Polled(t.id, pid, shown)] + EndEvents(t, shown, later) + [Unmapped(t.id, block)]
            == log + [Polled(t.id, pid, shown)]
               + (if t.command == 8 || t.command == 9 then
                    [InstallSet(t.id, t.serverId, if ok then SERVER_INSTALLED else SERVER_NOT_INSTALLED)]
                  else if t.command == 11 && ok then [InstallSet(t.id, t.serverId, SERVER_NOT_INSTALLED)]
                  else [])
               + (if ok then [] else [FailSaved(t.id, shown.output)])
               + [Completed(t.id, later), Unmapped(t.id, block)]
  {
    var a := AfterCmd(t.(status := Verdict(shown)));
    var f := if Verdict(shown) == FAIL then [FailSaved(t.id, shown.output)] else [];
    var p, c, u := [Polled(t.id, pid, shown)], [Completed(t.id, later)], [Unmapped(t.id, block)];
    assert log + p + (a + f + c) + u == log + p + a + f + (c + u);
    assert c + u == [Completed(t.id, later), Unmapped(t.id, block)];
  }

  /** `s'` is `s` after the end of a run of `t`. */
  ghost predicate Ended(s: State, s': State, t: Task, shown: Poll, later: int)
    requires t.id in s.cmds && t.id in s.pids
  {
    var t' := Counted(t, shown, later);
    && s' == AfterEnd(s, t, shown, later).(heap := s'.heap, exist := s'.exist, clock := later)
    && s'.exist == (if GoesBack(t') then s.exist else s.exist - {t.id})
    && multiset(s'.heap) == multiset(s.heap) - multiset{t}
                            + if GoesBack(t') then multiset{t'.(status := WAITING)} else multiset{}
  }

  lemma CallEnds(s: State, step: Step)
    requires SInv(s) && s.heap != [] && step.RunStep? && Allowed(s, step) && s.heap[0].status == WORKING
    requires || s.heap[0].executeDate < step.now
             || ((s.heap[0].id !in s.lastSync || s.lastSync[s.heap[0].id] < step.now - 300) && step.reachable)
    requires step.shown.complete || step.shown.child != PROCESS_WORKING
    ensures s.heap[0].id in s.panel && s.heap[0].id in s.cmds && s.heap[0].id in s.pids
    ensures Matches(s.heap[0], s.panel[s.heap[0].id]) && Ended(s, Next(s, step), s.heap[0], step.shown, step.later)
  {
    var t := WorkingCall(s, step);
    EndedState(s, step, s.heap[0], t);
  }

  lemma EndedLog(s: State, s': State, t: Task, r: Rec, shown: Poll, later: int)
    requires Matches(t, r) && t.id in s.cmds && t.id in s.pids && Ended(s, s', t, shown, later)
    ensures var id, ok := t.id, shown.result && shown.child == PROCESS_SUCCESS;
            s'.log
            == s.log + [Polled(id, s.pids[id], shown)]
               + (if r.command == 8 || r.command == 9 then
                    [InstallSet(id, r.serverId, if ok then SERVER_INSTALLED else SERVER_NOT_INSTALLED)]
                  else if r.command == 11 && ok then [InstallSet(id, r.serverId, SERVER_NOT_INSTALLED)]
                  else [])
               + (if ok then [] else [FailSaved(id, shown.output)])
               + [Completed(id, later), Unmapped(id, s.cmds[id])]
  {
    EndLogged(s.log, t, shown, later, s.pids[t.id], s.cmds[t.id]);
  }

  /** A poll that shows the command complete or the process ended: every call. The run failed unless
      the poll saw a true result and a normal exit; a failure is saved with the command's output. */
  lemma CompletedCalls(s: State, step: Step)
    requires SInv(s) && s.heap != [] && step.RunStep? && Allowed(s, step) && s.heap[0].status == WORKING
    requires || s.heap[0].executeDate < step.now
             || ((s.heap[0].id !in s.lastSync || s.lastSync[s.heap[0].id] < step.now - 300) && step.reachable)
    requires step.shown.complete || step.shown.child != PROCESS_WORKING
    ensures s.heap[0].id in s.panel && s.heap[0].id in s.cmds && s.heap[0].id in s.pids
    ensures var id := s.heap[0].id;
            var r, shown, ok := s.panel[id], step.shown, step.shown.result && step.shown.child == PROCESS_SUCCESS;
            Next(s, step).log
            == s.log + [Polled(id, s.pids[id], shown)]
               + (if r.command == 8 || r.command == 9 then
                    [InstallSet(id, r.serverId, if ok then SERVER_INSTALLED else SERVER_NOT_INSTALLED)]
                  else if r.command == 11 && ok then [InstallSet(id, r.serverId, SERVER_NOT_INSTALLED)]
                  else [])
               + (if ok then [] else [FailSaved(id, shown.output)])
               + [Completed(id, step.later), Unmapped(id, s.cmds[id])]
  {
    CallEnds(s, step);
    EndedLog(s, Next(s, step), s.heap[0], s.panel[s.heap[0].id], step.shown, step.later);
  }

  /** The panel's record `r` has the new counter and date, and the task waits for that date exactly
      while repetitions are left; its command, process and last read are forgotten. */
  ghost predicate Recorded(s: State, s': State, t: Task, r: Rec, later: int) {
    var limit, count, date := r.repeat % 0x1_0000, (r.counter + 1) % 0x1_0000_0000, later + r.repeatPeriod;
    var again := Task(WAITING, t.id, r.command, r.serverId, limit, r.repeatPeriod, count, date);
    && s' == s.(heap := s'.heap, exist := s'.exist, lastSync := s.lastSync - {t.id}, clock := later, log := s'.log,
                cmds := s.cmds - {t.id}, pids := s.pids - {t.id},
                panel := s.panel[t.id := r.(counter := count, repeat := limit, date := date)])
    && (limit == 0 || count < limit ==>
          s'.exist == s.exist && multiset(s'.heap) == multiset(s.heap) - multiset{t} + multiset{again})
    && (limit != 0 && count >= limit ==>
          s'.exist == s.exist - {t.id} && multiset(s'.heap) == multiset(s.heap) - multiset{t})
  }

  /** And the whole new state. */
  lemma CompletedState(s: State, step: Step)
    requires SInv(s) && s.heap != [] && step.RunStep? && Allowed(s, step) && s.heap[0].status == WORKING
    requires || s.heap[0].executeDate < step.now
             || ((s.heap[0].id !in s.lastSync || s.lastSync[s.heap[0].id] < step.now - 300) && step.reachable)
    requires step.shown.complete || step.shown.child != PROCESS_WORKING
    ensures s.heap[0].id in s.panel
    ensures Recorded(s, Next(s, step), s.heap[0], s.panel[s.heap[0].id], step.later)
  {
    CallEnds(s, step);
    EndedRest(s, Next(s, step), s.heap[0], s.panel[s.heap[0].id], step.shown, step.later);
  }

  lemma EndedRest(s: State, s': State, t: Task, r: Rec, shown: Poll, later: int)
    requires t.id in s.panel && s.panel[t.id] == r && Matches(t, r) && t.id in s.cmds && t.id in s.pids
    requires Ended(s, s', t, shown, later)
    ensures Recorded(s, s', t, r, later)
  {
    CountedTask(t, r, shown, later);
  }

  lemma CountedTask(t: Task, r: Rec, shown: Poll, later: int)
    requires Matches(t, r)
    ensures var t' := Counted(t, shown, later);
            var limit, count, date := r.repeat % 0x1_0000, (r.counter + 1) % 0x1_0000_0000, later + r.repeatPeriod;
            && t'.(status := WAITING) == Task(WAITING, t.id, r.command, r.serverId, limit, r.repeatPeriod, count, date)
            && (GoesBack(t') <==> limit == 0 || count < limit)
            && forall panel: map<nat, Rec> :: t.id in panel && panel[t.id] == r ==>
                 Written(panel, t') == panel[t.id := r.(counter := count, repeat := limit, date := date)]
  {
  }

  // ---------------------------------------------------------------- the record and the queue

  /** The head's record is read again exactly if it was not read before, or more than 300 seconds ago;
      `lastSync` keeps the time of the first read. */
  lemma ReadAgain(s: State, now: int, reachable: bool)
    requires s.heap != []
    ensures var t, s' := s.heap[0], Synced(s, now, reachable);
            && s' == s.(heap := s'.heap, lastSync := if t.id in s.lastSync then s.lastSync else s.lastSync[t.id := now])
            && (if (t.id !in s.lastSync || s.lastSync[t.id] < now - 300) && reachable && t.id in s.panel then
                  var r := s.panel[t.id];
                  s'.heap == s.heap[0 := Task(t.status, t.id, r.command, r.serverId, r.repeat % 0x1_0000,
                                              r.repeatPeriod, r.counter, r.date)]
                else s'.heap == s.heap)
  {
  }

  lemma HandleKeepsReads(s: State, t: Task, shown: Poll, now: int, later: int, pushed: seq<Task>)
    requires t.status == WAITING || (t.status == WORKING && t.id in s.cmds && t.id in s.pids && !Ends(shown))
    ensures Handle(s, t, shown, now, later, pushed).lastSync == s.lastSync
  {
  }

  /** The time of the first read stays until a run is completed. */
  lemma LastReads(s: State, step: Step)
    requires SInv(s) && s.heap != [] && step.RunStep? && Allowed(s, step)
    requires s.heap[0].status == WORKING ==> !step.shown.complete && step.shown.child == PROCESS_WORKING
    ensures var id := s.heap[0].id;
            Next(s, step).lastSync == if id in s.lastSync then s.lastSync else s.lastSync[id := step.now]
  {
    HeadRecord(s);
    HeadRead(s, step);
    ReadAgain(s, step.now, step.reachable);
    if Due(s, step) {
      Arranged(s, step);
      var synced := Synced(s, step.now, step.reachable);
      HandleKeepsReads(synced.(heap := step.popped, clock := step.later), synced.heap[0],
                       step.shown, step.now, step.later, step.pushed);
    }
  }

  /** One id of the panel's list: a new one becomes a waiting task, and a known one changes nothing. */
  lemma CallsOfAdmit(s: State, id: nat, pushed: seq<Task>)
    requires Allowed(s, AdmitStep(id, pushed))
    ensures id in s.exist || id !in s.panel ==> Next(s, AdmitStep(id, pushed)) == s
    ensures id !in s.exist && id in s.panel ==>
              var r, s' := s.panel[id], Next(s, AdmitStep(id, pushed));
              && s' == s.(heap := s'.heap, exist := s.exist + {id})
              && multiset(s'.heap) == multiset(s.heap)
                   + multiset{Task(WAITING, id, r.command, r.serverId, r.repeat % 0x1_0000,
                                   r.repeatPeriod, r.counter, r.date)}
  {
  }

  predicate Queued(q: seq<Task>, id: nat) {
    exists t :: t in q && t.id == id
  }

  lemma QueuedInMultiset(q: seq<Task>, q': seq<Task>, t: Task, u: Task, id: nat)
    requires multiset(q') == multiset(q) - multiset{t} + multiset{u} && t.id == u.id && Queued(q, id)
    ensures Queued(q', id)
  {
    var v :| v in q && v.id == id;
    if v == t {
      assert u in multiset(q');
    } else {
      assert v in multiset(q) && v in multiset(q');
    }
  }

  lemma QueuedWithout(q: seq<Task>, q': seq<Task>, t: Task, id: nat)
    requires multiset(q') == multiset(q) - multiset{t} && t.id != id && Queued(q, id)
    ensures Queued(q', id)
  {
    var v :| v in q && v.id == id;
    assert v in multiset(q) && v in multiset(q');
  }

  /** The record of `id` has reached its number of repetitions. */
  predicate AtLimit(s: State, id: nat) {
    id in s.panel && s.panel[id].repeat % 0x1_0000 > 0 && s.panel[id].counter >= s.panel[id].repeat % 0x1_0000
  }

  /** The task `id` leaves the queue or `exists_tasks`. */
  predicate Leaves(s: State, s': State, id: nat) {
    (Queued(s.heap, id) && !Queued(s'.heap, id)) || (id in s.exist && id !in s'.exist)
  }

  lemma WaitingLeaves(s: State, step: Step, id: nat)
    requires SInv(s) && s.heap != [] && step.RunStep? && Allowed(s, step) && s.heap[0].status == WAITING
    requires Leaves(s, Next(s, step), id)
    ensures AtLimit(Next(s, step), id)
  {
    WaitingHead(s, step);
    var t := s.heap[0];
    var r := s.panel[t.id];
    if step.now <= r.date {
      WaitsForDate(s, step);
    } else if r.repeat % 0x1_0000 != 0 && r.counter >= r.repeat % 0x1_0000 {
      DroppedAtLimit(s, step);
      if t.id != id { QueuedWithout(s.heap, Next(s, step).heap, t, id); }
    } else {
      StartedWhenDue(s, step);
      if Queued(s.heap, id) {
        QueuedInMultiset(s.heap, Next(s, step).heap, t, t.(status := WORKING, executeDate := step.later + 30), id);
      }
    }
  }
}
