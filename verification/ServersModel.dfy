/** The state and the steps of src/classes/servers_tasks.cpp as functions on values, against a
    panel that reads back what `sync_to_api` last wrote. */
module ServersModel {
  import opened Commands
  import opened ServersHeap

  /** The panel's record of a task; `date` is what `human_to_timestamp` makes of its date. */
  datatype Rec = Rec(command: nat, serverId: nat, repeat: nat, repeatPeriod: nat, counter: nat, date: int)

  /** The calls that leave the scheduler, with the clock readings that matter. */
  datatype Event =
    | Started(id: nat, at: int)
    | Mapped(id: nat, block: nat, cmd: Cmd)
    | InstallSet(id: nat, serverId: nat, install: InstallStatus)
    | Forked(id: nat, pid: nat)
    | Polled(id: nat, pid: nat, poll: Poll)
    | FailSaved(id: nat, output: string)
    | Completed(id: nat, at: int)        // the counter and the next date go to the panel
    | Unmapped(id: nat, block: nat)
    | NullCommand(id: nat)               // active_cmds[id] created a null entry

  datatype State = State(
    heap: seq<Task>, exist: set<nat>, cmds: map<nat, nat>, pids: map<nat, nat>, lastSync: map<nat, int>,
    panel: map<nat, Rec>, log: seq<Event>, blocks: nat, procs: nat, clock: int)

  function Initial(panel: map<nat, Rec>, clock: int): State {
    State([], {}, map[], map[], map[], panel, [], 0, 0, clock)
  }

  const CACHE_TTL := 300
  const USHORT := 0x1_0000
  const UINT := 0x1_0000_0000

  const CMD_UPDATE := 8
  const CMD_INSTALL := 9
  const CMD_DELETE := 11

  // ---------------------------------------------------------------- update

  function TaskOf(id: nat, rec: Rec): Task {
    Task(WAITING, id, rec.command, rec.serverId, rec.repeat % USHORT, rec.repeatPeriod, rec.counter, rec.date)
  }

  /** One entry of the loop of `update`; `pushed` is the library's arrangement after the push. */
  function Admit(s: State, id: nat, pushed: seq<Task>): State {
    if id in s.exist || id !in s.panel then s
    else s.(exist := s.exist + {id}, heap := pushed)
  }

  // ---------------------------------------------------------------- sync_from_api

  function Edited(t: Task, rec: Rec): Task {
    t.(command := rec.command, serverId := rec.serverId, repeat := rec.repeat % USHORT,
       repeatPeriod := rec.repeatPeriod, counter := rec.counter, executeDate := rec.date)
  }

  predicate SyncDue(s: State, id: nat, now: int) {
    id !in s.lastSync || s.lastSync[id] < now - CACHE_TTL
  }

  /** The edit of the top element in place; `insert` leaves an old time stamp as it is. */
  function Synced(s: State, now: int, reachable: bool): State
    requires s.heap != []
  {
    var t := s.heap[0];
    if !SyncDue(s, t.id, now) then s
    else
      s.(heap := if reachable && t.id in s.panel then s.heap[0 := Edited(t, s.panel[t.id])] else s.heap,
         lastSync := Insert(s.lastSync, t.id, now))
  }

  // ---------------------------------------------------------------- start, proceed

  predicate Installs(command: nat) {
    command == CMD_INSTALL || command == CMD_UPDATE
  }

  function BeforeCmd(t: Task): seq<Event> {
    if Installs(t.command) then [InstallSet(t.id, t.serverId, SERVER_INSTALL_IN_PROCESS)] else []
  }

  function AfterCmd(t: Task): seq<Event> {
    if Installs(t.command) then
      [InstallSet(t.id, t.serverId, if t.status == SUCCESS then SERVER_INSTALLED else SERVER_NOT_INSTALLED)]
    else if t.command == CMD_DELETE && t.status == SUCCESS then
      [InstallSet(t.id, t.serverId, SERVER_NOT_INSTALLED)]
    else []
  }

  function StartEvents(t: Task, at: int, block: nat, pid: nat): seq<Event> {
    [Started(t.id, at), Mapped(t.id, block, ServerCmd(RESTART, t.serverId))] + BeforeCmd(t) + [Forked(t.id, pid)]
  }

  function Start(s: State, t: Task, at: int): (State, Task) {
    (s.(cmds := Insert(s.cmds, t.id, s.blocks), pids := Insert(s.pids, t.id, s.procs),
        blocks := s.blocks + 1, procs := s.procs + 1, log := s.log + StartEvents(t, at, s.blocks, s.procs)),
     t.(status := WORKING))
  }

  function Verdict(poll: Poll): Status {
    if Succeeds(poll) then SUCCESS else FAIL
  }

  /** The counter is an unsigned int. */
  function Counted(t: Task, poll: Poll, later: int): Task {
    t.(status := Verdict(poll), counter := (t.counter + 1) % UINT, executeDate := later + t.repeatPeriod)
  }

  function EndEvents(t: Task, poll: Poll, later: int): seq<Event> {
    AfterCmd(t.(status := Verdict(poll)))
    + (if Verdict(poll) == FAIL then [FailSaved(t.id, poll.output)] else [])
    + [Completed(t.id, later)]
  }

  /** `sync_to_api` */
  function Written(panel: map<nat, Rec>, t: Task): map<nat, Rec> {
    if t.id in panel then
      panel[t.id := panel[t.id].(counter := t.counter, repeat := t.repeat, date := t.executeDate)]
    else panel
  }

  function Proceed(s: State, t: Task, shown: Poll, later: int): (State, Task) {
    if t.id !in s.cmds then (s, t.(status := FAIL))
    else
      var poll := if t.id in s.pids then shown else shown.(child := PROCESS_FAIL);
      var log := s.log + if t.id in s.pids then [Polled(t.id, s.pids[t.id], poll)] else [];
      if Ends(poll) then
        var t' := Counted(t, poll, later);
        (s.(log := log + EndEvents(t, poll, later), panel := Written(s.panel, t')), t')
      else
        (s.(log := log), t)
  }

  // ---------------------------------------------------------------- run_next

  predicate Exhausted(t: Task) {
    t.repeat != 0 && t.counter >= t.repeat
  }

  predicate Finished(t: Task) {
    t.status == SUCCESS || t.status == FAIL
  }

  function RunTask(s: State, t: Task, shown: Poll, now: int, later: int): (State, Task) {
    match t.status
    case WAITING => Start(s, t, now)
    case WORKING => Proceed(s, t, shown, later)
    case _ => (s, t)
  }

  /** The end of a completed run: the command's block is unmapped and the entries erased. */
  function Release(s: State, id: nat): State {
    s.(cmds := s.cmds - {id}, pids := s.pids - {id}, lastSync := s.lastSync - {id},
       log := s.log + if id in s.cmds then [Unmapped(id, s.cmds[id])] else [NullCommand(id)])
  }

  /** The element that goes back into the queue, if any. */
  function Again(t: Task, later: int): Task {
    if Finished(t) then t.(status := WAITING) else t.(executeDate := later + 30)
  }

  predicate GoesBack(t: Task) {
    Finished(t) ==> !Exhausted(t)
  }

  /** The end of a call in which the task ran. */
  function Ending(s: State, t: Task, pushed: seq<Task>): State {
    var kept := if GoesBack(t) then s.(heap := pushed) else s.(exist := s.exist - {t.id});
    if Finished(t) then Release(kept, t.id) else kept
  }

  /** What happens to the popped task. */
  function Handle(s: State, t: Task, shown: Poll, now: int, later: int, pushed: seq<Task>): State {
    if Exhausted(t) then s
    else
      var (s', t') := RunTask(s, t, shown, now, later);
      Ending(s', t', pushed)
  }

  /** `now` is the first clock reading of the call, `later` the one at its end; `popped` and
      `pushed` are the library's arrangements after the pop and the push. */
  datatype Step =
    | AdmitStep(id: nat, pushed: seq<Task>)
    | RunStep(now: int, later: int, reachable: bool, shown: Poll, popped: seq<Task>, pushed: seq<Task>)

  /** Whether the call gets past the early return for a task that is not due. */
  predicate Due(s: State, step: Step)
    requires s.heap != [] && step.RunStep?
  {
    step.now > Synced(s, step.now, step.reachable).heap[0].executeDate
  }

  function RunNext(s: State, step: Step): State
    requires s.heap != [] && step.RunStep?
  {
    var synced := Synced(s, step.now, step.reachable);
    if !Due(s, step) then synced.(clock := step.now)
    else
      Handle(synced.(heap := step.popped, clock := step.later), synced.heap[0],
             step.shown, step.now, step.later, step.pushed)
  }

  /** The daemon does not call `run_next` on an empty queue. */
  function Next(s: State, step: Step): State {
    if step.AdmitStep? then Admit(s, step.id, step.pushed)
    else if s.heap == [] then s
    else RunNext(s, step)
  }

  /** The clock does not go back, and the arrangements are ones the library may produce. */
  predicate Allowed(s: State, step: Step) {
    match step
    case AdmitStep(id, pushed) =>
      id !in s.exist && id in s.panel ==> Pushed(s.heap, TaskOf(id, s.panel[id]), pushed)
    case RunStep(now, later, reachable, shown, popped, pushed) =>
      && s.clock <= now <= later
      && (s.heap != [] && Due(s, step) ==>
            var synced := Synced(s, now, reachable);
            var t := synced.heap[0];
            && Popped(synced.heap, popped)
            && (!Exhausted(t) ==>
                  var t' := RunTask(synced.(heap := popped, clock := later), t, shown, now, later).1;
                  GoesBack(t') ==> Pushed(popped, Again(t', later), pushed)))
  }

  /** A due call, put together from what the library did. */
  lemma DueStep(s: State, step: Step)
    requires s.heap != [] && step.RunStep? && s.clock <= step.now <= step.later && Due(s, step)
    requires var synced := Synced(s, step.now, step.reachable);
             var t, popped := synced.heap[0], synced.(heap := step.popped, clock := step.later);
             && Popped(synced.heap, step.popped)
             && (!Exhausted(t) ==>
                   var t' := RunTask(popped, t, step.shown, step.now, step.later).1;
                   GoesBack(t') ==> Pushed(step.popped, Again(t', step.later), step.pushed))
    ensures Allowed(s, step)
    ensures var synced := Synced(s, step.now, step.reachable);
            Next(s, step) == Handle(synced.(heap := step.popped, clock := step.later), synced.heap[0],
                                    step.shown, step.now, step.later, step.pushed)
  {
  }

  predicate AllowedRun(s: State, steps: seq<Step>)
    decreases steps
  {
    steps == []
    || (AllowedRun(s, steps[..|steps| - 1]) && Allowed(Run(s, steps[..|steps| - 1]), steps[|steps| - 1]))
  }

  function Run(s: State, steps: seq<Step>): State
    decreases steps
  {
    if steps == [] then s else Next(Run(s, steps[..|steps| - 1]), steps[|steps| - 1])
  }

  lemma {:induction false} RunConcat(s: State, a: seq<Step>, b: seq<Step>)
    ensures Run(s, a + b) == Run(Run(s, a), b)
    ensures AllowedRun(s, a + b) <==> AllowedRun(s, a) && AllowedRun(Run(s, a), b)
    decreases b
  {
    if b == [] {
      assert a + b == a;
    } else {
      var init := b[..|b| - 1];
      RunConcat(s, a, init);
      assert (a + b)[..|a + b| - 1] == a + init;
    }
  }

  lemma HandleKeepsClock(s: State, t: Task, shown: Poll, now: int, later: int, pushed: seq<Task>)
    ensures Handle(s, t, shown, now, later, pushed).clock == s.clock
  {
  }

  lemma ClockAfter(s: State, step: Step)
    requires step.RunStep? && s.clock <= step.now <= step.later
    ensures Next(s, step).clock <= step.later
  {
    if s.heap != [] && Due(s, step) {
      var synced := Synced(s, step.now, step.reachable);
      HandleKeepsClock(synced.(heap := step.popped, clock := step.later), synced.heap[0],
                       step.shown, step.now, step.later, step.pushed);
    }
  }

  lemma RunOne(s: State, step: Step)
    ensures Run(s, [step]) == Next(s, step) && (AllowedRun(s, [step]) <==> Allowed(s, step))
  {
    assert [step][..0] == [];
  }
}
