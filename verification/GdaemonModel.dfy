/** The state and the steps of src/classes/gdaemon_tasks.cpp as functions on values: what each
    method of `GdaemonTasks` does to the queue, the admission set and the two resource maps, and
    which calls it makes to the outside, recorded in a log. */
module GdaemonModel {
  import opened Commands

  datatype Status = WAITING | WORKING | ERROR | SUCCESS | CANCELED

  // ---------------------------------------------------------------- task kinds

  /** What the `strcmp` chains of `start`, `before_cmd` and `after_cmd` tell apart. */
  datatype Kind =
    | GAME_SERVER_START | GAME_SERVER_STOP | GAME_SERVER_RESTART
    | GAME_SERVER_INSTALL | GAME_SERVER_UPDATE | GAME_SERVER_DELETE
    | GAME_SERVER_EXECUTE | UNKNOWN

  function KindOf(task: string): Kind {
    if task == "gsstart" then GAME_SERVER_START
    else if task == "gsstop" then GAME_SERVER_STOP
    else if task == "gsrest" then GAME_SERVER_RESTART
    else if task == "gsinst" then GAME_SERVER_INSTALL
    else if task == "gsupd" then GAME_SERVER_UPDATE
    else if task == "gsdel" then GAME_SERVER_DELETE
    else if task == "cmdexec" then GAME_SERVER_EXECUTE
    else UNKNOWN
  }

  /** The kinds `start` has a command for. */
  predicate HasCommand(kind: Kind) {
    kind != UNKNOWN
  }

  predicate Installs(kind: Kind) {
    kind == GAME_SERVER_INSTALL || kind == GAME_SERVER_UPDATE
  }

  datatype Task = Task(id: nat, runAftId: nat, serverId: nat, kind: Kind, cmd: string, status: Status)

  /** The calls that leave the scheduler. Blocks and processes are numbered in creation order. */
  datatype Event =
    | Admitted(task: Task, entry: PanelTask)           // the task and the panel's entry it came from
    | Started(id: nat)                                 // the call of start
    | Mapped(id: nat, block: nat, cmd: Cmd)            // shared_map_memory and the command put there
    | InstallSet(id: nat, serverId: nat, install: InstallStatus)
    | Forked(id: nat, pid: nat)                        // run_process
    | Polled(id: nat, pid: nat, poll: Poll)            // child_process_status
    | Unmapped(id: nat, block: nat)                    // destroy_shared_map_memory
    | Reported(id: nat, status: Status)                // api_update_status
    | OutputSent(id: nat, text: string)                // api_append_output
  {
    /** The task the event belongs to. */
    function Of(): nat {
      if Admitted? then task.id else id
    }
  }

  datatype State = State(
    queue: seq<Task>, admitted: set<nat>, cmds: map<nat, nat>, pids: map<nat, nat>,
    log: seq<Event>, blocks: nat, procs: nat)

  const INITIAL := State([], {}, map[], map[], [], 0, 0)

  predicate Terminal(status: Status) {
    status == ERROR || status == SUCCESS || status == CANCELED
  }

  // ---------------------------------------------------------------- update, check_after_crash

  const TASK_WAITING := 1
  const TASK_WORKING := 2

  /** One entry of the panel's reply; `serverKnown` is whether `get_server` finds the server. */
  datatype PanelTask = PanelTask(
    id: nat, statusNum: nat, serverId: nat, serverKnown: bool, runAftId: nat, task: string, cmd: Option<string>)

  predicate Admits(admitted: set<nat>, j: PanelTask, wanted: nat) {
    && j.id !in admitted
    && j.task != ""
    && j.statusNum == wanted
    && (j.serverId > 0 ==> j.serverKnown)
  }

  function NewTask(j: PanelTask): Task {
    Task(j.id, j.runAftId, j.serverId, KindOf(j.task), if j.cmd.None? then "" else j.cmd.value, WAITING)
  }

  function Admit(s: State, j: PanelTask, wanted: nat): State {
    if Admits(s.admitted, j, wanted) then
      s.(queue := s.queue + [NewTask(j)], admitted := s.admitted + {j.id}, log := s.log + [Admitted(NewTask(j), j)])
    else s
  }

  function AdmitAll(s: State, js: seq<PanelTask>, wanted: nat): State
    decreases js
  {
    if js == [] then s else Admit(AdmitAll(s, js[..|js| - 1], wanted), js[|js| - 1], wanted)
  }

  /** `None` is a RestapiException. */
  function Sync(s: State, reply: Option<seq<PanelTask>>, wanted: nat): State {
    if reply.None? then s else AdmitAll(s, reply.value, wanted)
  }

  // ---------------------------------------------------------------- start, proceed, run_next

  function BeforeCmd(t: Task): seq<Event> {
    if Installs(t.kind) then [InstallSet(t.id, t.serverId, SERVER_INSTALL_IN_PROCESS)] else []
  }

  function AfterCmd(t: Task): seq<Event> {
    if Installs(t.kind) then
      if t.status == SUCCESS then [InstallSet(t.id, t.serverId, SERVER_INSTALLED)]
      else if t.status == ERROR || t.status == CANCELED then [InstallSet(t.id, t.serverId, SERVER_NOT_INSTALLED)]
      else []
    else if t.kind == GAME_SERVER_DELETE && t.status == SUCCESS then
      [InstallSet(t.id, t.serverId, SERVER_NOT_INSTALLED)]
    else []
  }

  /** The command `start` builds. */
  function CmdOf(t: Task): Cmd
    requires HasCommand(t.kind)
  {
    match t.kind
    case GAME_SERVER_START => ServerCmd(START, t.serverId)
    case GAME_SERVER_STOP => ServerCmd(STOP, t.serverId)
    case GAME_SERVER_RESTART => ServerCmd(RESTART, t.serverId)
    case GAME_SERVER_INSTALL => ServerCmd(INSTALL, t.serverId)
    case GAME_SERVER_UPDATE => ServerCmd(UPDATE, t.serverId)
    case GAME_SERVER_DELETE => ServerCmd(DELETE, t.serverId)
    case GAME_SERVER_EXECUTE => ShellCmd(t.cmd)
  }

  function StartEvents(t: Task, block: nat, pid: nat): seq<Event> {
    [Started(t.id)] + CommandEvents(t, block, pid)
  }

  /** What `start` does with the command of the task's kind, or without one. */
  function CommandEvents(t: Task, block: nat, pid: nat): seq<Event> {
    if HasCommand(t.kind) then
      [Mapped(t.id, block, CmdOf(t))] + BeforeCmd(t) + [Forked(t.id, pid), Reported(t.id, WORKING)]
    else
      [OutputSent(t.id, "Unknown task"), OutputSent(t.id, "Empty cmd"), Reported(t.id, ERROR)]
  }

  function Start(s: State, t: Task): (State, Task) {
    var log := s.log + StartEvents(t, s.blocks, s.procs);
    if HasCommand(t.kind) then
      (s.(cmds := Insert(s.cmds, t.id, s.blocks), pids := Insert(s.pids, t.id, s.procs),
          blocks := s.blocks + 1, procs := s.procs + 1, log := log),
       t.(status := WORKING))
    else
      (s.(log := log), t.(status := ERROR))
  }

  function Verdict(poll: Poll): Status {
    if Succeeds(poll) then SUCCESS else ERROR
  }

  function Sent(id: nat, text: string): seq<Event> {
    if text == "" then [] else [OutputSent(id, text)]
  }

  /** The output that follows the verdict, with the note about a failed child. */
  function LastOutput(poll: Poll): string {
    poll.output + if poll.child != PROCESS_SUCCESS then "Child process failure" else ""
  }

  function VerdictEvents(t: Task, block: nat, poll: Poll): seq<Event> {
    AfterCmd(t.(status := Verdict(poll))) + [Unmapped(t.id, block), Reported(t.id, Verdict(poll))]
  }

  function EndEvents(t: Task, block: nat, poll: Poll): seq<Event> {
    VerdictEvents(t, block, poll) + Sent(t.id, LastOutput(poll))
  }

  function Proceed(s: State, t: Task, shown: Poll): (State, Task) {
    if t.id !in s.cmds then (s, t)
    else
      var poll := if t.id in s.pids then shown else shown.(child := PROCESS_FAIL);
      var polled := if t.id in s.pids then [Polled(t.id, s.pids[t.id], poll)] else [];
      if Ends(poll) then
        (s.(cmds := s.cmds - {t.id}, pids := s.pids - {t.id},
            log := s.log + polled + EndEvents(t, s.cmds[t.id], poll)),
         t.(status := Verdict(poll)))
      else
        (s.(log := s.log + polled + Sent(t.id, poll.output)), t)
  }

  /** The front task waits for another admitted task. */
  predicate Blocked(t: Task, admitted: set<nat>) {
    t.runAftId > 0 && t.runAftId in admitted
  }

  function RunTask(s: State, t: Task, shown: Poll): (State, Task) {
    match t.status
    case WAITING => Start(s, t)
    case WORKING => Proceed(s, t, shown)
    case _ => (s, t)
  }

  function Requeue(s: State, t: Task): State {
    if Terminal(t.status) then
      s.(cmds := s.cmds - {t.id}, admitted := s.admitted - {t.id})
    else
      s.(queue := s.queue + [t])
  }

  function RunNext(s: State, shown: Poll): State
    requires s.queue != []
  {
    var t, popped := s.queue[0], s.(queue := s.queue[1..]);
    if Blocked(t, s.admitted) then popped.(queue := popped.queue + [t])
    else
      var (s', t') := RunTask(popped, t, shown);
      Requeue(s', t')
  }

  // ---------------------------------------------------------------- runs

  /** The calls `check_tasks` of src/daemon.cpp makes; it skips `run_next` on an empty queue. */
  datatype Step =
    | Update(reply: Option<seq<PanelTask>>)
    | CheckAfterCrash(reply: Option<seq<PanelTask>>)
    | Tick(shown: Poll)

  function Next(s: State, step: Step): State {
    match step
    case Update(reply) => Sync(s, reply, TASK_WAITING)
    case CheckAfterCrash(reply) => Sync(s, reply, TASK_WORKING)
    case Tick(shown) => if s.queue == [] then s else RunNext(s, shown)
  }

  function Run(s: State, steps: seq<Step>): State
    decreases steps
  {
    if steps == [] then s else Next(Run(s, steps[..|steps| - 1]), steps[|steps| - 1])
  }

  lemma {:induction false} RunConcat(s: State, a: seq<Step>, b: seq<Step>)
    ensures Run(s, a + b) == Run(Run(s, a), b)
    decreases b
  {
    if b == [] {
      assert a + b == a;
    } else {
      var k := |b| - 1;
      assert (a + b)[..|a| + k] == a + b[..k];
      RunConcat(s, a, b[..k]);
    }
  }

  lemma AdmitSingle(s: State, j: PanelTask)
    ensures Run(s, [Update(Some([j]))]) == Admit(s, j, TASK_WAITING)
  {
    var step := Update(Some([j]));
    assert [step][..0] == [] && [j][..0] == [];
    assert Run(s, []) == s && AdmitAll(s, [], TASK_WAITING) == s;
    assert AdmitAll(s, [j], TASK_WAITING) == Admit(s, j, TASK_WAITING);
  }

  // ---------------------------------------------------------------- the daemon's loop

  /** What one pass of the loop meets: the panel's reply, and what a poll of the front task shows. */
  type LoopInput = (Option<seq<PanelTask>>, Poll)

  /** The steps of the passes of the loop of `check_tasks`. */
  function LoopSteps(inputs: seq<LoopInput>): seq<Step> {
    if inputs == [] then []
    else
      var last := inputs[|inputs| - 1];
      LoopSteps(inputs[..|inputs| - 1]) + [Update(last.0), Tick(last.1)]
  }

  /** Pass after pass, the reply and then the call. */
  lemma {:induction false} LoopStepsAt(inputs: seq<LoopInput>, i: nat)
    requires i < |inputs|
    ensures |LoopSteps(inputs)| == 2 * |inputs|
    ensures LoopSteps(inputs)[2 * i] == Update(inputs[i].0) && LoopSteps(inputs)[2 * i + 1] == Tick(inputs[i].1)
    decreases inputs
  {
    var init := inputs[..|inputs| - 1];
    if i < |init| {
      LoopStepsAt(init, i);
    } else {
      LoopLength(init);
    }
  }

  lemma {:induction false} LoopLength(inputs: seq<LoopInput>)
    ensures |LoopSteps(inputs)| == 2 * |inputs|
  {
    if inputs != [] { LoopLength(inputs[..|inputs| - 1]); }
  }

  lemma RunTwo(s: State, steps: seq<Step>, a: Step, b: Step)
    ensures Run(s, steps + [a, b]) == Next(Next(Run(s, steps), a), b)
  {
    var all := steps + [a, b];
    assert all[..|all| - 1] == steps + [a];
    assert (steps + [a])[..|steps|] == steps;
  }

  /** One more pass. */
  lemma LoopGrows(s: State, first: seq<Step>, inputs: seq<LoopInput>, i: nat)
    requires i < |inputs|
    ensures Run(s, first + LoopSteps(inputs[..i + 1]))
         == Next(Next(Run(s, first + LoopSteps(inputs[..i])), Update(inputs[i].0)), Tick(inputs[i].1))
  {
    var done, last := first + LoopSteps(inputs[..i]), [Update(inputs[i].0), Tick(inputs[i].1)];
    assert inputs[..i + 1][..i] == inputs[..i];
    assert first + LoopSteps(inputs[..i + 1]) == done + last;
    RunTwo(s, done, last[0], last[1]);
  }
}
