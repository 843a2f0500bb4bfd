/** src/classes/gdaemon_tasks.{h,cpp}: the scheduler with its fields updated in place. Every method
    is tied to the step function of the same name in `GdaemonModel`. */
module GdaemonTasks {
  import opened Commands
  import I = GdaemonInvariant
  import M = GdaemonModel

  /** Shared by pointer; only `status` changes. */
  class GdaemonTask {
    const id: nat
    const runAftId: nat
    const serverId: nat
    const task: string
    const cmd: string
    var status: M.Status

    constructor (id: nat, runAftId: nat, serverId: nat, task: string, cmd: string)
      ensures View() == M.Task(id, runAftId, serverId, M.KindOf(task), cmd, M.WAITING)
    {
      this.id, this.runAftId, this.serverId, this.task, this.cmd := id, runAftId, serverId, task, cmd;
      status := M.WAITING;
    }

    function View(): M.Task
      reads this
    {
      M.Task(id, runAftId, serverId, M.KindOf(task), cmd, status)
    }
  }

  ghost function Views(q: seq<GdaemonTask>): (v: seq<M.Task>)
    reads q
    ensures |v| == |q|
    ensures forall i :: 0 <= i < |q| ==> v[i] == q[i].View()
  {
    seq(|q|, i requires 0 <= i < |q| reads q => q[i].View())
  }

  ghost predicate NoAlias(q: seq<GdaemonTask>) {
    forall i, j :: 0 <= i < j < |q| ==> q[i] != q[j]
  }

  /** The log entries of `start`, one call after the other. */
  lemma StartEventsFromParts(log: seq<M.Event>, t: M.Task, block: nat, pid: nat)
    ensures log + M.StartEvents(t, block, pid)
         == if M.HasCommand(t.kind) then
              log + [M.Started(t.id)] + [M.Mapped(t.id, block, M.CmdOf(t))] + M.BeforeCmd(t)
              + [M.Forked(t.id, pid), M.Reported(t.id, M.WORKING)]
            else
              log + [M.Started(t.id)] + [M.OutputSent(t.id, "Unknown task")]
              + [M.OutputSent(t.id, "Empty cmd"), M.Reported(t.id, M.ERROR)]
  {
  }

  class GdaemonTasks {
    var tasks: seq<GdaemonTask>
    var existsTasks: set<nat>
    var activeCmds: map<nat, nat>      // task id -> command block
    var cmdProcesses: map<nat, nat>    // task id -> pid
    var blocks: nat                    // command blocks mapped so far
    var procs: nat                     // processes forked so far
    ghost var log: seq<M.Event>

    ghost function Model(): M.State
      reads this, tasks
    {
      M.State(Views(tasks), existsTasks, activeCmds, cmdProcesses, log, blocks, procs)
    }

    ghost predicate Valid()
      reads this
    {
      NoAlias(tasks)
    }

    constructor ()
      ensures Valid() && Model() == M.INITIAL && tasks == []
    {
      tasks, existsTasks, activeCmds, cmdProcesses := [], {}, map[], map[];
      blocks, procs, log := 0, 0, [];
    }

    method RunNext(shown: Poll)
      requires Valid() && tasks != []
      modifies this, tasks
      ensures Valid() && Model() == M.RunNext(old(Model()), shown)
      ensures forall t :: t in tasks ==> t in old(tasks)
    {
      var task := tasks[0];
      ghost var s, t := Model(), task.View();
      tasks := tasks[1..];
      assert Views(tasks) == s.queue[1..];

      if task.runAftId > 0 && task.runAftId in existsTasks {
        Push(task);
        return;
      }

      assert Model() == s.(queue := s.queue[1..]);
      RunTask(task, shown);
      Requeue(task);
    }

    /** The end of `run_next`: the task is queued again or forgotten. */
    method Requeue(task: GdaemonTask)
      requires Valid() && task !in tasks
      modifies this`tasks, this`activeCmds, this`existsTasks
      ensures Valid() && Model() == M.Requeue(old(Model()), task.View())
      ensures forall t :: t in tasks ==> t in old(tasks) || t == task
    {
      if task.status != M.ERROR && task.status != M.SUCCESS && task.status != M.CANCELED {
        Push(task);
      } else {
        activeCmds := activeCmds - {task.id};
        existsTasks := existsTasks - {task.id};
      }
    }

    /** The dispatch of `run_next` on the status. */
    method RunTask(task: GdaemonTask, shown: Poll)
      requires Valid() && task !in tasks
      modifies this`activeCmds, this`cmdProcesses, this`blocks, this`procs, this`log, task
      ensures (Model(), task.View()) == M.RunTask(old(Model()), old(task.View()), shown)
    {
      if task.status == M.WAITING {
        Start(task);
      } else if task.status == M.WORKING {
        Proceed(task, shown);
      }
    }

    /** `std::queue::push` */
    method Push(task: GdaemonTask)
      requires Valid() && task !in tasks
      modifies this`tasks
      ensures Valid() && tasks == old(tasks) + [task]
      ensures Model() == old(Model()).(queue := old(Model()).queue + [task.View()])
    {
      tasks := tasks + [task];
    }

    predicate Empty()
      reads this
    {
      tasks == []
    }

    method Start(task: GdaemonTask)
      requires Valid() && task !in tasks
      modifies this`activeCmds, this`cmdProcesses, this`blocks, this`procs, this`log, task
      ensures (Model(), task.View()) == M.Start(old(Model()), old(task.View()))
    {
      ghost var s, t := Model(), task.View();
      log := log + [M.Started(task.id)];
      var cmd := NewCmd(task);
      if cmd != -1 {
        Launch(task, cmd);
      } else {
        Refuse(task);
      }
      StartEventsFromParts(s.log, t, s.blocks, s.procs);
      assert Views(tasks) == s.queue;
    }

    /** The command of the task's kind, or -1 for the null pointer. */
    method NewCmd(task: GdaemonTask) returns (cmd: int)
      modifies this`blocks, this`log
      ensures var t := task.View();
              if M.HasCommand(t.kind) then
                && cmd == old(blocks) && blocks == old(blocks) + 1
                && log == old(log) + [M.Mapped(t.id, old(blocks), M.CmdOf(t))]
              else
                && cmd == -1 && blocks == old(blocks) && log == old(log) + [M.OutputSent(t.id, "Unknown task")]
    {
      cmd := -1;
      if task.task == "gsstart" {
        cmd := SharedMapMemory(task.id, ServerCmd(START, task.serverId));
      } else if task.task == "gsstop" {
        cmd := SharedMapMemory(task.id, ServerCmd(STOP, task.serverId));
      } else if task.task == "gsrest" {
        cmd := SharedMapMemory(task.id, ServerCmd(RESTART, task.serverId));
      } else if task.task == "gsinst" {
        cmd := SharedMapMemory(task.id, ServerCmd(INSTALL, task.serverId));
      } else if task.task == "gsupd" {
        cmd := SharedMapMemory(task.id, ServerCmd(UPDATE, task.serverId));
      } else if task.task == "gsdel" {
        cmd := SharedMapMemory(task.id, ServerCmd(DELETE, task.serverId));
      } else if task.task == "cmdexec" {
        cmd := SharedMapMemory(task.id, ShellCmd(task.cmd));
      } else {
        ApiAppendOutput(task, "Unknown task");
      }
    }

    /** The part of `start` for a task that has none. */
    method Refuse(task: GdaemonTask)
      modifies this`log, task
      ensures task.View() == old(task.View()).(status := M.ERROR)
      ensures log == old(log) + [M.OutputSent(task.id, "Empty cmd"), M.Reported(task.id, M.ERROR)]
    {
      task.status := M.ERROR;
      ApiAppendOutput(task, "Empty cmd");
      ApiUpdateStatus(task);
    }

    /** The part of `start` for a task that has a command. */
    method Launch(task: GdaemonTask, cmd: nat)
      modifies this`activeCmds, this`cmdProcesses, this`procs, this`log, task
      ensures task.View() == old(task.View()).(status := M.WORKING) && procs == old(procs) + 1
      ensures activeCmds == Insert(old(activeCmds), task.id, cmd)
      ensures cmdProcesses == Insert(old(cmdProcesses), task.id, old(procs))
      ensures log == old(log) + M.BeforeCmd(old(task.View()))
                     + [M.Forked(task.id, old(procs)), M.Reported(task.id, M.WORKING)]
    {
      activeCmds := Insert(activeCmds, task.id, cmd);
      BeforeCmd(task);
      var childPid := RunProcess(task.id);
      cmdProcesses := Insert(cmdProcesses, task.id, childPid);
      task.status := M.WORKING;
      ApiUpdateStatus(task);
    }

    method Proceed(task: GdaemonTask, shown: Poll)
      requires Valid() && task !in tasks
      modifies this`activeCmds, this`cmdProcesses, this`log, task
      ensures (Model(), task.View()) == M.Proceed(old(Model()), old(task.View()), shown)
    {
      ghost var s, t := Model(), task.View();
      if task.id !in activeCmds {
        return;
      }

      var gameServerCmd := activeCmds[task.id];
      var output := shown.output;
      var childStatus;
      if task.id !in cmdProcesses {
        childStatus := PROCESS_FAIL;
      } else {
        childStatus := ChildProcessStatus(task.id, cmdProcesses[task.id], shown);
      }
      ghost var poll := if t.id in s.pids then shown else shown.(child := PROCESS_FAIL);
      ghost var polled := if t.id in s.pids then [M.Polled(t.id, s.pids[t.id], poll)] else [];
      assert log == s.log + polled;

      var cmdCompleted := shown.complete || childStatus == PROCESS_SUCCESS || childStatus == PROCESS_FAIL;
      if cmdCompleted {
        if childStatus != PROCESS_SUCCESS {
          output := output + "Child process failure";
        }
        assert output == M.LastOutput(poll) by { assert poll.output + "" == poll.output; }
        Complete(task, gameServerCmd, shown.result && childStatus == PROCESS_SUCCESS, poll);
      }

      if output != "" {
        ApiAppendOutput(task, output);
      }
      assert Views(tasks) == s.queue;
      ghost var sent := M.Sent(t.id, if cmdCompleted then M.LastOutput(poll) else poll.output);
      if cmdCompleted {
        assert log == s.log + polled + M.VerdictEvents(t, gameServerCmd, poll) + sent;
        assert log == s.log + polled + M.EndEvents(t, gameServerCmd, poll);
      } else {
        assert log == s.log + polled + sent;
      }
    }

    /** The part of `proceed` for a completed command. */
    method Complete(task: GdaemonTask, gameServerCmd: nat, success: bool, ghost poll: Poll)
      requires success == Succeeds(poll)
      modifies this`activeCmds, this`cmdProcesses, this`log, task
      ensures task.View() == old(task.View()).(status := M.Verdict(poll))
      ensures activeCmds == old(activeCmds) - {task.id} && cmdProcesses == old(cmdProcesses) - {task.id}
      ensures log == old(log) + M.VerdictEvents(old(task.View()), gameServerCmd, poll)
    {
      task.status := if success then M.SUCCESS else M.ERROR;
      AfterCmd(task);
      DestroySharedMapMemory(task.id, gameServerCmd);
      activeCmds := activeCmds - {task.id};
      if task.id in cmdProcesses {
        cmdProcesses := cmdProcesses - {task.id};
      }
      ApiUpdateStatus(task);
      assert cmdProcesses == old(cmdProcesses) - {task.id};
    }

    method BeforeCmd(task: GdaemonTask)
      modifies this`log
      ensures log == old(log) + M.BeforeCmd(task.View())
    {
      if task.task == "gsinst" || task.task == "gsupd" {
        SetInstallStatus(task, SERVER_INSTALL_IN_PROCESS);
      }
    }

    method AfterCmd(task: GdaemonTask)
      modifies this`log
      ensures log == old(log) + M.AfterCmd(task.View())
    {
      if task.task == "gsinst" || task.task == "gsupd" {
        if task.status == M.SUCCESS {
          SetInstallStatus(task, SERVER_INSTALLED);
        } else if task.status == M.ERROR || task.status == M.CANCELED {
          SetInstallStatus(task, SERVER_NOT_INSTALLED);
        }
      } else if task.task == "gsdel" {
        if task.status == M.SUCCESS {
          SetInstallStatus(task, SERVER_NOT_INSTALLED);
        }
      }
    }

    // -------------------------------------------------------------- update, check_after_crash

    method Update(reply: Option<seq<M.PanelTask>>)
      requires Valid()
      modifies this`tasks, this`existsTasks, this`log
      ensures Valid() && Model() == M.Sync(old(Model()), reply, M.TASK_WAITING)
      ensures forall t :: t in tasks ==> t in old(tasks) || fresh(t)
    {
      if reply.None? {
        return;
      }
      AdmitAll(reply.value, M.TASK_WAITING);
    }

    method CheckAfterCrash(reply: Option<seq<M.PanelTask>>)
      requires Valid()
      modifies this`tasks, this`existsTasks, this`log
      ensures Valid() && Model() == M.Sync(old(Model()), reply, M.TASK_WORKING)
      ensures forall t :: t in tasks ==> t in old(tasks) || fresh(t)
    {
      if reply.None? {
        return;
      }
      AdmitAll(reply.value, M.TASK_WORKING);
    }

    /** The loop the two methods share, up to the status they accept. */
    method AdmitAll(js: seq<M.PanelTask>, wanted: nat)
      requires Valid()
      modifies this`tasks, this`existsTasks, this`log
      ensures Valid() && Model() == M.AdmitAll(old(Model()), js, wanted)
      ensures forall t :: t in tasks ==> t in old(tasks) || fresh(t)
    {
      ghost var s := Model();
      for i := 0 to |js|
        invariant Valid() && Model() == M.AdmitAll(s, js[..i], wanted)
        invariant forall t :: t in tasks ==> t in old(tasks) || fresh(t)
      {
        assert js[..i + 1][..i] == js[..i];
        AdmitOne(js[i], wanted);
      }
      assert js[..|js|] == js;
    }

    /** The body of that loop. */
    method AdmitOne(j: M.PanelTask, wanted: nat)
      requires Valid()
      modifies this`tasks, this`existsTasks, this`log
      ensures Valid() && Model() == M.Admit(old(Model()), j, wanted)
      ensures forall t :: t in tasks ==> t in old(tasks) || fresh(t)
    {
      if j.id in existsTasks {
        return;
      }
      if j.task == "" {
        return;
      }
      if j.statusNum != wanted {
        return;
      }
      if j.serverId > 0 {
        if !j.serverKnown {
          return;
        }
      }

      var task := new GdaemonTask(j.id, j.runAftId, j.serverId, j.task, if j.cmd.None? then "" else j.cmd.value);
      existsTasks := existsTasks + {j.id};
      Push(task);
      log := log + [M.Admitted(task.View(), j)];
    }

    /** `stats`: the first number counts exactly the working tasks, the second, named for the
        waiting ones, counts both. */
    method Stats() returns (working: nat, waiting: nat)
      requires I.Inv(Model())
      ensures working == I.CountStatus(Views(tasks), M.WORKING)
      ensures waiting == I.CountStatus(Views(tasks), M.WAITING) + I.CountStatus(Views(tasks), M.WORKING)
    {
      working, waiting := |activeCmds|, |tasks|;
      I.SizesCount(Model());
    }

    // -------------------------------------------------------------- calls to the outside

    method SharedMapMemory(ghost id: nat, cmd: Cmd) returns (block: nat)
      modifies this`blocks, this`log
      ensures block == old(blocks) && blocks == old(blocks) + 1 && log == old(log) + [M.Mapped(id, block, cmd)]
    {
      block := blocks;
      blocks := blocks + 1;
      log := log + [M.Mapped(id, block, cmd)];
    }

    method RunProcess(ghost id: nat) returns (pid: nat)
      modifies this`procs, this`log
      ensures pid == old(procs) && procs == old(procs) + 1 && log == old(log) + [M.Forked(id, pid)]
    {
      pid := procs;
      procs := procs + 1;
      log := log + [M.Forked(id, pid)];
    }

    method ChildProcessStatus(ghost id: nat, pid: nat, shown: Poll) returns (status: ProcessStatus)
      modifies this`log
      ensures status == shown.child && log == old(log) + [M.Polled(id, pid, shown)]
    {
      status := shown.child;
      log := log + [M.Polled(id, pid, shown)];
    }

    method DestroySharedMapMemory(ghost id: nat, block: nat)
      modifies this`log
      ensures log == old(log) + [M.Unmapped(id, block)]
    {
      log := log + [M.Unmapped(id, block)];
    }

    method SetInstallStatus(task: GdaemonTask, install: InstallStatus)
      modifies this`log
      ensures log == old(log) + [M.InstallSet(task.id, task.serverId, install)]
    {
      log := log + [M.InstallSet(task.id, task.serverId, install)];
    }

    method ApiUpdateStatus(task: GdaemonTask)
      modifies this`log
      ensures log == old(log) + [M.Reported(task.id, task.status)]
    {
      log := log + [M.Reported(task.id, task.status)];
    }

    method ApiAppendOutput(task: GdaemonTask, output: string)
      modifies this`log
      ensures log == old(log) + [M.OutputSent(task.id, output)]
    {
      log := log + [M.OutputSent(task.id, output)];
    }
  }

  // ---------------------------------------------------------------- the daemon's loop

  /** The body of the loop of `check_tasks`: `update`, then `run_next` unless the queue is empty. */
  method LoopBody(scheduler: GdaemonTasks, reply: Option<seq<M.PanelTask>>, shown: Poll)
    requires scheduler.Valid()
    modifies scheduler, scheduler.tasks
    ensures scheduler.Valid()
    ensures scheduler.Model() == M.Next(M.Next(old(scheduler.Model()), M.Update(reply)), M.Tick(shown))
    ensures forall t :: t in scheduler.tasks ==> t in old(scheduler.tasks) || fresh(t)
  {
    scheduler.Update(reply);
    if !scheduler.Empty() {
      forall k | 0 <= k < |scheduler.tasks|
        ensures scheduler.tasks[k] in old(scheduler.tasks) || fresh(scheduler.tasks[k])
      {
        assert scheduler.tasks[k] in scheduler.tasks;
      }
      scheduler.RunNext(shown);
    }
  }

  /** The part of `check_tasks` of src/daemon.cpp that drives this scheduler: it goes through the
      states of `Run`. */
  method CheckTasks(scheduler: GdaemonTasks, crashed: Option<seq<M.PanelTask>>, inputs: seq<M.LoopInput>)
    requires scheduler.Valid() && scheduler.tasks == [] && scheduler.Model() == M.INITIAL
    modifies scheduler
    ensures scheduler.Valid()
    ensures scheduler.Model() == M.Run(M.INITIAL, [M.CheckAfterCrash(crashed)] + M.LoopSteps(inputs))
  {
    ghost var first := [M.CheckAfterCrash(crashed)];
    scheduler.CheckAfterCrash(crashed);
    assert first[..0] == [] && first + [] == first;
    for i := 0 to |inputs|
      invariant scheduler.Valid()
      invariant forall t :: t in scheduler.tasks ==> fresh(t)
      invariant scheduler.Model() == M.Run(M.INITIAL, first + M.LoopSteps(inputs[..i]))
    {
      M.LoopGrows(M.INITIAL, first, inputs, i);
      forall k | 0 <= k < |scheduler.tasks| ensures fresh(scheduler.tasks[k]) {
        assert scheduler.tasks[k] in scheduler.tasks;
      }
      LoopBody(scheduler, inputs[i].0, inputs[i].1);
    }
    assert inputs[..|inputs|] == inputs;
  }
}
