/** src/classes/servers_tasks.{h,cpp}: the recurring scheduler with its fields updated in place. The
    queue holds shared records, so `sync_from_api` edits the key of an element that is still queued.
    Every method is tied to the step functions of `ServersModel`. */
module ServersTasks {
  import opened Commands
  import H = ServersHeap
  import M = ServersModel

  class ServerTask {
    const id: nat
    var status: H.Status
    var command: nat
    var serverId: nat
    var repeat: nat
    var repeatPeriod: nat
    var counter: nat
    var executeDate: int

    constructor (id: nat, rec: M.Rec)
      ensures View() == M.TaskOf(id, rec)
    {
      this.id, status := id, H.WAITING;
      command, serverId, repeat, repeatPeriod := rec.command, rec.serverId, rec.repeat % M.USHORT, rec.repeatPeriod;
      counter, executeDate := rec.counter, rec.date;
    }

    function View(): H.Task
      reads this
    {
      H.Task(status, id, command, serverId, repeat, repeatPeriod, counter, executeDate)
    }
  }

  ghost function Views(q: seq<ServerTask>): (v: seq<H.Task>)
    reads q
    ensures |v| == |q|
    ensures forall i :: 0 <= i < |q| ==> v[i] == q[i].View()
  {
    seq(|q|, i requires 0 <= i < |q| reads q => q[i].View())
  }

  ghost predicate NoAlias(q: seq<ServerTask>) {
    forall i, j :: 0 <= i < j < |q| ==> q[i] != q[j]
  }

  lemma LastToFrontNoAlias(q: seq<ServerTask>)
    requires NoAlias(q) && |q| > 1
    ensures var r := [q[|q| - 1]] + q[1..|q| - 1];
            NoAlias(r) && q[0] !in r && forall t :: t in r ==> t in q
  {
    var r := [q[|q| - 1]] + q[1..|q| - 1];
    assert forall i :: 1 <= i < |r| ==> r[i] == q[i];
  }

  /** The log entries of `start`, one call after the other. */
  lemma StartEventsFromParts(log: seq<M.Event>, t: H.Task, now: int, block: nat, pid: nat)
    ensures log + M.StartEvents(t, now, block, pid)
         == log + [M.Started(t.id, now)] + [M.Mapped(t.id, block, ServerCmd(RESTART, t.serverId))] + M.BeforeCmd(t)
            + [M.Forked(t.id, pid)]
  {
  }

  class ServersTasks {
    var tasks: seq<ServerTask>         // the vector of the priority queue, top first
    var existsTasks: set<nat>
    var activeCmds: map<nat, nat>      // task id -> command block
    var cmdProcesses: map<nat, nat>    // task id -> pid
    var lastSync: map<nat, int>
    var panel: map<nat, M.Rec>         // the panel's records, read and written through the API
    var blocks: nat
    var procs: nat
    ghost var log: seq<M.Event>
    ghost var clock: int               // the last reading of the clock

    ghost function Model(): M.State
      reads this, tasks
    {
      M.State(Views(tasks), existsTasks, activeCmds, cmdProcesses, lastSync, panel, log, blocks, procs, clock)
    }

    ghost predicate Valid()
      reads this
    {
      NoAlias(tasks)
    }

    constructor (panel: map<nat, M.Rec>, ghost clock: int)
      ensures Valid() && Model() == M.Initial(panel, clock) && tasks == []
    {
      tasks, existsTasks, activeCmds, cmdProcesses, lastSync := [], {}, map[], map[], map[];
      this.panel, blocks, procs := panel, 0, 0;
      log, this.clock := [], clock;
    }

    // -------------------------------------------------------------- the priority queue

    method Push(task: ServerTask)
      requires Valid() && task !in tasks
      modifies this`tasks
      ensures Valid() && H.Pushed(old(Views(tasks)), task.View(), Views(tasks))
      ensures forall t :: t in tasks <==> t in old(tasks) || t == task
    {
      ghost var before := Views(tasks);
      tasks := tasks + [task];
      var i: nat := |tasks| - 1;
      assert Views(tasks) == before + [task.View()];
      H.AppendOrdered(before, task.View());
      while i > 0 && H.After(tasks[H.Parent(i)].View(), tasks[i].View())
        invariant i < |tasks| && Valid()
        invariant forall t :: t in tasks <==> t in old(tasks) || t == task
        invariant multiset(Views(tasks)) == multiset(before) + multiset{task.View()}
        invariant H.HeapOrdered(before) ==> H.OrderedAbove(Views(tasks), i)
      {
        ghost var v := Views(tasks);
        if H.HeapOrdered(before) { H.SiftUpStep(v, i); }
        Swap(H.Parent(i), i);
        i := H.Parent(i);
      }
    }

    method Swap(i: nat, j: nat)
      requires Valid() && i < |tasks| && j < |tasks|
      modifies this`tasks
      ensures Valid() && |tasks| == |old(tasks)| && forall t :: t in tasks <==> t in old(tasks)
      ensures Views(tasks) == H.Swapped(old(Views(tasks)), i, j)
    {
      ghost var q := tasks;
      tasks := tasks[i := tasks[j]][j := tasks[i]];
      assert tasks[i] == q[j] && tasks[j] == q[i];
      forall t | t in q ensures t in tasks {
        var k :| 0 <= k < |q| && q[k] == t;
        assert k != i && k != j ==> tasks[k] == t;
      }
    }

    method Pop()
      requires Valid() && tasks != []
      modifies this`tasks
      ensures Valid() && H.Popped(old(Views(tasks)), Views(tasks))
      ensures old(tasks)[0] !in tasks && forall t :: t in tasks ==> t in old(tasks)
    {
      if |tasks| == 1 {
        tasks := [];
        return;
      }
      ghost var before := Views(tasks);
      LastOnTop();
      SiftDown(before);
    }

    /** `pop` puts the last element in the place of the first. */
    method LastOnTop()
      requires Valid() && |tasks| > 1
      modifies this`tasks
      ensures Valid() && tasks != [] && multiset(Views(tasks)) == multiset(old(Views(tasks))[1..])
      ensures H.HeapOrdered(old(Views(tasks))) ==> H.OrderedBelow(Views(tasks), 0)
      ensures old(tasks)[0] !in tasks && forall t :: t in tasks ==> t in old(tasks)
    {
      ghost var before := Views(tasks);
      LastToFrontNoAlias(tasks);
      tasks := [tasks[|tasks| - 1]] + tasks[1..|tasks| - 1];
      assert Views(tasks) == [before[|before| - 1]] + before[1..|before| - 1];
      H.LastToFront(before);
    }

    method FirstChild(i: nat) returns (c: nat)
      requires i < |tasks|
      ensures H.FirstChild(Views(tasks), i, c)
    {
      c := 2 * i + 1;
      forall j | 1 <= j < |tasks| && H.Parent(j) == i ensures j == c || j == c + 1 { H.Children(i, j); }
      if c + 1 < |tasks| && H.After(tasks[c].View(), tasks[c + 1].View()) {
        c := c + 1;
      }
    }

    method SiftDown(ghost before: seq<H.Task>)
      requires Valid() && tasks != []
      requires H.HeapOrdered(before) ==> H.OrderedBelow(Views(tasks), 0)
      modifies this`tasks
      ensures Valid() && forall t :: t in tasks <==> t in old(tasks)
      ensures multiset(Views(tasks)) == old(multiset(Views(tasks)))
      ensures H.HeapOrdered(before) ==> H.HeapOrdered(Views(tasks))
    {
      ghost var ordered := H.HeapOrdered(before);
      var i: nat := 0;
      var c := FirstChild(i);
      while c < |tasks| && H.After(tasks[i].View(), tasks[c].View())
        invariant i < |tasks| && Valid() && forall t :: t in tasks <==> t in old(tasks)
        invariant H.FirstChild(Views(tasks), i, c)
        invariant multiset(Views(tasks)) == old(multiset(Views(tasks)))
        invariant ordered ==> H.OrderedBelow(Views(tasks), i)
        decreases |tasks| - i
      {
        i, c := SiftStep(i, c, ordered);
      }
      if ordered { H.SiftDownEnd(Views(tasks), i, c); }
    }

    /** The element at `i` changes places with its first child. */
    method SiftStep(i: nat, c: nat, ghost ordered: bool) returns (at: nat, child: nat)
      requires Valid() && i < |tasks| && c < |tasks|
      requires H.FirstChild(Views(tasks), i, c) && H.After(tasks[i].View(), tasks[c].View())
      requires ordered ==> H.OrderedBelow(Views(tasks), i)
      modifies this`tasks
      ensures Valid() && |tasks| == |old(tasks)| && forall t :: t in tasks <==> t in old(tasks)
      ensures multiset(Views(tasks)) == old(multiset(Views(tasks)))
      ensures i < at < |tasks| && H.FirstChild(Views(tasks), at, child)
      ensures ordered ==> H.OrderedBelow(Views(tasks), at)
    {
      H.SiftDownIf(ordered, Views(tasks), i, c);
      Swap(i, c);
      at := c;
      child := FirstChild(c);
    }

    // -------------------------------------------------------------- run_next

    method RunNext(now: int, later: int, reachable: bool, shown: Poll) returns (ghost step: M.Step)
      requires Valid() && tasks != [] && clock <= now <= later
      modifies this, tasks
      ensures Valid() && forall t :: t in tasks ==> t in old(tasks)
      ensures step.RunStep? && step.now == now && step.later == later
      ensures step.reachable == reachable && step.shown == shown
      ensures M.Allowed(old(Model()), step) && Model() == M.Next(old(Model()), step)
    {
      ghost var s := Model();
      var task := tasks[0];
      SyncIfDue(now, reachable);

      if now <= task.executeDate {
        clock := now;
        step := M.RunStep(now, later, reachable, shown, [], []);
        return;
      }

      ghost var popped, pushed := RunDue(now, later, shown);
      step := M.RunStep(now, later, reachable, shown, popped, pushed);
      M.DueStep(s, step);
    }

    /** `run_next` for a due task: the pop and all that follows. */
    method RunDue(now: int, later: int, shown: Poll) returns (ghost popped: seq<H.Task>, ghost pushed: seq<H.Task>)
      requires Valid() && tasks != []
      modifies this, tasks[0]
      ensures Valid() && forall t :: t in tasks ==> t in old(tasks)
      ensures var s, t := old(Model()), old(tasks[0].View());
              var s1 := s.(heap := popped, clock := later);
              && H.Popped(s.heap, popped) && Model() == M.Handle(s1, t, shown, now, later, pushed)
              && (!M.Exhausted(t) ==>
                    var t' := M.RunTask(s1, t, shown, now, later).1;
                    M.GoesBack(t') ==> H.Pushed(popped, M.Again(t', later), pushed))
    {
      var task := tasks[0];
      Pop();
      clock := later;
      popped := Views(tasks);
      pushed := HandlePopped(task, now, later, shown);
    }

    /** The record on top is refreshed when its last refresh is too old. */
    method SyncIfDue(now: int, reachable: bool)
      requires Valid() && tasks != []
      modifies this`lastSync, tasks[0]
      ensures Model() == M.Synced(old(Model()), now, reachable)
    {
      ghost var s := Model();
      var task := tasks[0];
      if task.id !in lastSync || lastSync[task.id] < now - M.CACHE_TTL {
        SyncFromApi(task, reachable);
        lastSync := Insert(lastSync, task.id, now);
        assert Views(tasks) == s.heap[0 := task.View()];
      }
    }

    /** `run_next` after the pop. */
    method HandlePopped(task: ServerTask, now: int, later: int, shown: Poll) returns (ghost pushed: seq<H.Task>)
      requires Valid() && task !in tasks
      modifies this`tasks, this`existsTasks, this`activeCmds, this`cmdProcesses, this`lastSync, this`panel
      modifies this`blocks, this`procs, this`log, task
      ensures Valid() && forall t :: t in tasks ==> t in old(tasks) || t == task
      ensures Model() == M.Handle(old(Model()), old(task.View()), shown, now, later, pushed)
      ensures !M.Exhausted(old(task.View())) ==>
                var t' := M.RunTask(old(Model()), old(task.View()), shown, now, later).1;
                M.GoesBack(t') ==> H.Pushed(old(Views(tasks)), M.Again(t', later), pushed)
    {
      if task.repeat != 0 && task.counter >= task.repeat {
        pushed := [];
        return;
      }
      RunTask(task, now, later, shown);
      assert Views(tasks) == old(Views(tasks));
      pushed := Conclude(task, later);
    }

    /** The task is queued again, forgotten, or its next poll is scheduled. */
    method Conclude(task: ServerTask, later: int) returns (ghost pushed: seq<H.Task>)
      requires Valid() && task !in tasks
      modifies this`tasks, this`existsTasks, this`activeCmds, this`cmdProcesses, this`lastSync, this`log, task
      ensures Valid() && forall t :: t in tasks ==> t in old(tasks) || t == task
      ensures Model() == M.Ending(old(Model()), old(task.View()), pushed)
      ensures M.GoesBack(old(task.View())) ==> H.Pushed(old(Views(tasks)), M.Again(old(task.View()), later), pushed)
    {
      if task.status == H.SUCCESS || task.status == H.FAIL {
        pushed := Finish(task, later);
        Release(task.id);
        return;
      }

      task.executeDate := later + 30;
      pushed := Requeue(task);
    }

    /** A completed task waits for its next date or leaves `exists_tasks`. */
    method Finish(task: ServerTask, ghost later: int) returns (ghost pushed: seq<H.Task>)
      requires Valid() && task !in tasks && M.Finished(task.View())
      modifies this`tasks, this`existsTasks, task
      ensures Valid() && forall t :: t in tasks ==> t in old(tasks) || t == task
      ensures var s, t := old(Model()), old(task.View());
              && Model() == (if M.GoesBack(t) then s.(heap := pushed) else s.(exist := s.exist - {t.id}))
              && (M.GoesBack(t) ==> H.Pushed(s.heap, M.Again(t, later), pushed))
    {
      if task.repeat == 0 || task.counter < task.repeat {
        task.status := H.WAITING;
        pushed := Requeue(task);
      } else {
        pushed := [];
        existsTasks := existsTasks - {task.id};
      }
    }

    method Requeue(task: ServerTask) returns (ghost pushed: seq<H.Task>)
      requires Valid() && task !in tasks
      modifies this`tasks
      ensures Valid() && forall t :: t in tasks <==> t in old(tasks) || t == task
      ensures Model() == old(Model()).(heap := pushed) && H.Pushed(old(Views(tasks)), task.View(), pushed)
    {
      Push(task);
      pushed := Views(tasks);
    }

    method RunTask(task: ServerTask, now: int, later: int, shown: Poll)
      requires Valid() && task !in tasks
      modifies this`activeCmds, this`cmdProcesses, this`panel, this`blocks, this`procs, this`log, task
      ensures (Model(), task.View()) == M.RunTask(old(Model()), old(task.View()), shown, now, later)
    {
      if task.status == H.WAITING {
        Start(task, now);
      } else if task.status == H.WORKING {
        Proceed(task, later, shown);
      }
    }

    /** The command is destroyed and the task's entries are erased. */
    method Release(id: nat)
      modifies this`activeCmds, this`cmdProcesses, this`lastSync, this`log
      ensures Model() == M.Release(old(Model()), id)
    {
      if id in activeCmds {
        log := log + [M.Unmapped(id, activeCmds[id])];
      } else {
        log := log + [M.NullCommand(id)];
      }
      activeCmds := activeCmds - {id};
      lastSync := lastSync - {id};
      if id in cmdProcesses {
        cmdProcesses := cmdProcesses - {id};
      }
      assert cmdProcesses == old(cmdProcesses) - {id};
      assert Views(tasks) == old(Views(tasks));
    }

    /** `start`; whatever the task's command, the process runs a RESTART. */
    method Start(task: ServerTask, now: int)
      requires Valid() && task !in tasks
      modifies this`activeCmds, this`cmdProcesses, this`blocks, this`procs, this`log, task
      ensures (Model(), task.View()) == M.Start(old(Model()), old(task.View()), now)
    {
      ghost var s, t := Model(), task.View();
      task.status := H.WORKING;
      log := log + [M.Started(task.id, now)];

      var gameServerCmd := blocks;
      blocks := blocks + 1;
      log := log + [M.Mapped(task.id, gameServerCmd, ServerCmd(RESTART, task.serverId))];
      activeCmds := Insert(activeCmds, task.id, gameServerCmd);

      BeforeCmd(task);

      var childPid := procs;
      procs := procs + 1;
      log := log + [M.Forked(task.id, childPid)];
      cmdProcesses := Insert(cmdProcesses, task.id, childPid);

      StartEventsFromParts(s.log, t, now, s.blocks, s.procs);
      assert Views(tasks) == s.heap;
    }

    method Proceed(task: ServerTask, later: int, shown: Poll)
      requires Valid() && task !in tasks
      modifies this`panel, this`log, task
      ensures (Model(), task.View()) == M.Proceed(old(Model()), old(task.View()), shown, later)
    {
      ghost var s, t := Model(), task.View();
      if task.id !in activeCmds {
        task.status := H.FAIL;
        assert Views(tasks) == s.heap;
        return;
      }

      var childStatus;
      if task.id !in cmdProcesses {
        childStatus := PROCESS_FAIL;
      } else {
        childStatus := shown.child;
        log := log + [M.Polled(task.id, cmdProcesses[task.id], shown)];
      }
      ghost var poll := if t.id in s.pids then shown else shown.(child := PROCESS_FAIL);
      ghost var polled := log;
      assert polled == s.log + if t.id in s.pids then [M.Polled(t.id, s.pids[t.id], poll)] else [];

      if shown.complete || childStatus == PROCESS_SUCCESS || childStatus == PROCESS_FAIL {
        Complete(task, shown.result && childStatus == PROCESS_SUCCESS, shown.output, later, poll);
      }
      assert Views(tasks) == s.heap;
    }

    /** The part of `proceed` for a completed command. */
    method Complete(task: ServerTask, success: bool, output: string, later: int, ghost poll: Poll)
      requires success == Succeeds(poll) && output == poll.output
      modifies this`panel, this`log, task
      ensures task.View() == M.Counted(old(task.View()), poll, later)
      ensures log == old(log) + M.EndEvents(old(task.View()), poll, later)
      ensures panel == M.Written(old(panel), task.View())
    {
      task.status := if success then H.SUCCESS else H.FAIL;
      AfterCmd(task);
      if task.status == H.FAIL {
        log := log + [M.FailSaved(task.id, output)];
      }
      task.counter := (task.counter + 1) % M.UINT;
      task.executeDate := later + task.repeatPeriod;
      log := log + [M.Completed(task.id, later)];
      SyncToApi(task);
    }

    method BeforeCmd(task: ServerTask)
      modifies this`log
      ensures log == old(log) + M.BeforeCmd(task.View())
    {
      if M.Installs(task.command) {
        log := log + [M.InstallSet(task.id, task.serverId, SERVER_INSTALL_IN_PROCESS)];
      }
    }

    method AfterCmd(task: ServerTask)
      requires task.status == H.SUCCESS || task.status == H.FAIL
      modifies this`log
      ensures log == old(log) + M.AfterCmd(task.View())
    {
      if M.Installs(task.command) {
        if task.status == H.SUCCESS {
          log := log + [M.InstallSet(task.id, task.serverId, SERVER_INSTALLED)];
        } else {
          log := log + [M.InstallSet(task.id, task.serverId, SERVER_NOT_INSTALLED)];
        }
      } else if task.command == M.CMD_DELETE {
        if task.status == H.SUCCESS {
          log := log + [M.InstallSet(task.id, task.serverId, SERVER_NOT_INSTALLED)];
        }
      }
    }

    // -------------------------------------------------------------- the panel

    /** Edits the record in place, also while it is queued. */
    method SyncFromApi(task: ServerTask, reachable: bool)
      modifies task
      ensures task.View() == if reachable && task.id in panel then M.Edited(old(task.View()), panel[task.id])
                             else old(task.View())
    {
      if !reachable || task.id !in panel {
        return;
      }
      var rec := panel[task.id];
      task.command, task.serverId := rec.command, rec.serverId;
      task.repeat, task.repeatPeriod := rec.repeat % M.USHORT, rec.repeatPeriod;
      task.counter, task.executeDate := rec.counter, rec.date;
    }

    method SyncToApi(task: ServerTask)
      modifies this`panel
      ensures panel == M.Written(old(panel), task.View())
    {
      if task.id in panel {
        panel := panel[task.id :=
          panel[task.id].(counter := task.counter, repeat := task.repeat, date := task.executeDate)];
      }
    }

    /** The loop of `update` over the ids the panel lists. */
    method Update(ids: seq<nat>) returns (ghost steps: seq<M.Step>)
      requires Valid()
      modifies this`tasks, this`existsTasks
      ensures Valid() && forall t :: t in tasks ==> t in old(tasks) || fresh(t)
      ensures M.AllowedRun(old(Model()), steps) && Model() == M.Run(old(Model()), steps)
      ensures |steps| == |ids| && forall i :: 0 <= i < |ids| ==> steps[i].AdmitStep? && steps[i].id == ids[i]
    {
      ghost var s := Model();
      steps := [];
      for i := 0 to |ids|
        invariant Valid() && forall t :: t in tasks ==> t in old(tasks) || fresh(t)
        invariant M.AllowedRun(s, steps) && Model() == M.Run(s, steps)
        invariant |steps| == i && forall k :: 0 <= k < i ==> steps[k].AdmitStep? && steps[k].id == ids[k]
      {
        ghost var step := AdmitOne(ids[i]);
        assert (steps + [step])[..|steps|] == steps;
        steps := steps + [step];
      }
    }

    method AdmitOne(id: nat) returns (ghost step: M.Step)
      requires Valid()
      modifies this`tasks, this`existsTasks
      ensures Valid() && forall t :: t in tasks ==> t in old(tasks) || fresh(t)
      ensures step.AdmitStep? && step.id == id
      ensures M.Allowed(old(Model()), step) && Model() == M.Next(old(Model()), step)
    {
      step := M.AdmitStep(id, []);
      if id in existsTasks || id !in panel {
        return;
      }
      existsTasks := existsTasks + {id};
      var task := new ServerTask(id, panel[id]);
      Push(task);
      step := M.AdmitStep(id, Views(tasks));
    }

    /** `empty`: nothing is due. */
    predicate Empty(now: int)
      reads this, tasks
    {
      tasks == [] || tasks[0].executeDate > now
    }
  }

  // ---------------------------------------------------------------- the daemon's loop

  /** One pass of the loop: the ids the panel lists, the clock readings, and what the panel and the
      child show. */
  datatype Round = Round(ids: seq<nat>, checked: int, now: int, later: int, reachable: bool, shown: Poll)

  /** The readings of the clock do not go back. */
  predicate Timely(clock: int, rounds: seq<Round>)
    decreases rounds
  {
    rounds == []
    || (clock <= rounds[0].now <= rounds[0].later && Timely(rounds[0].later, rounds[1..]))
  }

  lemma {:induction false} TimelyLater(clock: int, earlier: int, rounds: seq<Round>)
    requires Timely(clock, rounds) && earlier <= clock
    ensures Timely(earlier, rounds)
  {
  }

  /** The steps of one pass: one admission for each id the panel lists, and then one call of `run_next`
      exactly if the queue is not empty and its head's date is not past the clock. */
  ghost predicate PassOf(s: M.State, r: Round, steps: seq<M.Step>) {
    var n := |r.ids|;
    && |steps| >= n && (forall i :: 0 <= i < n ==> steps[i].AdmitStep? && steps[i].id == r.ids[i])
    && var heap := M.Run(s, steps[..n]).heap;
       if heap != [] && heap[0].executeDate <= r.checked then
         && |steps| == n + 1 && steps[n].RunStep? && steps[n].now == r.now && steps[n].later == r.later
         && steps[n].reachable == r.reachable && steps[n].shown == r.shown
       else |steps| == n
  }

  /** All passes, one after the other. */
  function Flat(passes: seq<seq<M.Step>>): seq<M.Step> {
    if passes == [] then [] else Flat(passes[..|passes| - 1]) + passes[|passes| - 1]
  }

  lemma FlatGrows(passes: seq<seq<M.Step>>, pass: seq<M.Step>)
    ensures Flat(passes + [pass]) == Flat(passes) + pass
  {
    assert (passes + [pass])[..|passes|] == passes;
  }

  predicate Admissions(steps: seq<M.Step>, ids: seq<nat>) {
    |steps| == |ids| && forall i :: 0 <= i < |ids| ==> steps[i].AdmitStep? && steps[i].id == ids[i]
  }

  lemma PassWithoutCall(s: M.State, r: Round, steps: seq<M.Step>)
    requires Admissions(steps, r.ids)
    requires M.Run(s, steps).heap == [] || M.Run(s, steps).heap[0].executeDate > r.checked
    ensures PassOf(s, r, steps)
  {
    assert steps[..|r.ids|] == steps;
  }

  lemma PassWithCall(s: M.State, r: Round, steps: seq<M.Step>, step: M.Step)
    requires Admissions(steps, r.ids) && M.AllowedRun(s, steps) && M.Allowed(M.Run(s, steps), step)
    requires M.Run(s, steps).heap != [] && M.Run(s, steps).heap[0].executeDate <= r.checked
    requires step.RunStep? && step.now == r.now && step.later == r.later
    requires step.reachable == r.reachable && step.shown == r.shown
    ensures PassOf(s, r, steps + [step]) && M.AllowedRun(s, steps + [step])
    ensures M.Run(s, steps + [step]) == M.Next(M.Run(s, steps), step)
  {
    M.RunOne(M.Run(s, steps), step);
    M.RunConcat(s, steps, [step]);
    assert (steps + [step])[..|r.ids|] == steps;
  }

  /** The body of the loop. */
  method Pass(scheduler: ServersTasks, round: Round) returns (ghost steps: seq<M.Step>)
    requires scheduler.Valid() && scheduler.clock <= round.now <= round.later
    modifies scheduler, scheduler.tasks
    ensures scheduler.Valid() && forall t :: t in scheduler.tasks ==> t in old(scheduler.tasks) || fresh(t)
    ensures M.AllowedRun(old(scheduler.Model()), steps) && scheduler.Model() == M.Run(old(scheduler.Model()), steps)
    ensures PassOf(old(scheduler.Model()), round, steps) && scheduler.clock <= round.later
  {
    ghost var s := scheduler.Model();
    steps := scheduler.Update(round.ids);
    ghost var mid := scheduler.Model();
    assert mid.heap == Views(scheduler.tasks);
    if scheduler.Empty(round.checked) {
      PassWithoutCall(s, round, steps);
    } else {
      forall k | 0 <= k < |scheduler.tasks|
        ensures scheduler.tasks[k] in old(scheduler.tasks) || fresh(scheduler.tasks[k])
      {
        assert scheduler.tasks[k] in scheduler.tasks;
      }
      ghost var step := scheduler.RunNext(round.now, round.later, round.reachable, round.shown);
      M.ClockAfter(mid, step);
      PassWithCall(s, round, steps, step);
      steps := steps + [step];
    }
  }

  lemma OnePassMore(s: M.State, rounds: seq<Round>, passes: seq<seq<M.Step>>, pass: seq<M.Step>)
    requires |passes| < |rounds| && PassOf(M.Run(s, Flat(passes)), rounds[|passes|], pass)
    requires M.AllowedRun(s, Flat(passes)) && M.AllowedRun(M.Run(s, Flat(passes)), pass)
    requires forall k :: 0 <= k < |passes| ==> PassOf(M.Run(s, Flat(passes[..k])), rounds[k], passes[k])
    ensures M.AllowedRun(s, Flat(passes + [pass]))
    ensures M.Run(s, Flat(passes + [pass])) == M.Run(M.Run(s, Flat(passes)), pass)
    ensures var all := passes + [pass];
            forall k :: 0 <= k < |all| ==> PassOf(M.Run(s, Flat(all[..k])), rounds[k], all[k])
  {
    FlatGrows(passes, pass);
    M.RunConcat(s, Flat(passes), pass);
    PassesGrow(s, rounds, passes, pass);
  }

  /** The thread of `check_tasks` of src/daemon.cpp that drives this scheduler goes through the
      states of `Run`, pass by pass. */
  method CheckTasks(scheduler: ServersTasks, rounds: seq<Round>) returns (ghost passes: seq<seq<M.Step>>)
    requires scheduler.Valid() && scheduler.tasks == [] && Timely(scheduler.clock, rounds)
    modifies scheduler
    ensures scheduler.Valid()
    ensures M.AllowedRun(old(scheduler.Model()), Flat(passes))
    ensures scheduler.Model() == M.Run(old(scheduler.Model()), Flat(passes))
    ensures |passes| == |rounds|
    ensures forall i :: 0 <= i < |rounds| ==>
              PassOf(M.Run(old(scheduler.Model()), Flat(passes[..i])), rounds[i], passes[i])
  {
    passes := [];
    ghost var s := scheduler.Model();
    assert rounds[0..] == rounds;
    for i := 0 to |rounds|
      invariant scheduler.Valid() && forall t :: t in scheduler.tasks ==> fresh(t)
      invariant Timely(scheduler.clock, rounds[i..]) && |passes| == i
      invariant M.AllowedRun(s, Flat(passes)) && scheduler.Model() == M.Run(s, Flat(passes))
      invariant forall k :: 0 <= k < i ==> PassOf(M.Run(s, Flat(passes[..k])), rounds[k], passes[k])
    {
      assert rounds[i..][0] == rounds[i] && rounds[i..][1..] == rounds[i + 1..];
      forall k | 0 <= k < |scheduler.tasks| ensures fresh(scheduler.tasks[k]) {
        assert scheduler.tasks[k] in scheduler.tasks;
      }
      ghost var pass := Pass(scheduler, rounds[i]);
      OnePassMore(s, rounds, passes, pass);
      TimelyLater(rounds[i].later, scheduler.clock, rounds[i + 1..]);
      passes := passes + [pass];
    }
  }

  lemma PassesGrow(s: M.State, rounds: seq<Round>, passes: seq<seq<M.Step>>, pass: seq<M.Step>)
    requires |passes| < |rounds| && PassOf(M.Run(s, Flat(passes)), rounds[|passes|], pass)
    requires forall k :: 0 <= k < |passes| ==> PassOf(M.Run(s, Flat(passes[..k])), rounds[k], passes[k])
    ensures var all := passes + [pass];
            forall k :: 0 <= k < |all| ==> PassOf(M.Run(s, Flat(all[..k])), rounds[k], all[k])
  {
    var all := passes + [pass];
    forall k | 0 <= k < |all| ensures PassOf(M.Run(s, Flat(all[..k])), rounds[k], all[k]) {
      assert all[..k] == passes[..k];
      assert passes[..|passes|] == passes;
    }
  }
}
