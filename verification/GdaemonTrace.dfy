/** The life of one admission of a task, read off the log: an automaton that every task's events
    must follow, what it says about reports and results, and that the scheduler follows it. */
module GdaemonTrace {
  import opened Commands
  import opened GdaemonModel
  import opened GdaemonInvariant

  /** Where a task stands in its life. `marked` is whether the install status was set. */
  datatype Phase =
    | Absent
    | Queued(t: Task)
    | Begun(t: Task)
    | Loaded(t: Task, block: nat, marked: bool)
    | Launched(t: Task, block: nat, pid: nat)
    | Running(t: Task, block: nat, pid: nat)
    | Judged(t: Task, block: nat, ok: bool, marked: bool)
    | Released(t: Task, ok: bool)
    | Stray

  predicate MarksAtEnd(kind: Kind, ok: bool) {
    Installs(kind) || (kind == GAME_SERVER_DELETE && ok)
  }

  /** The only orders of events allowed. Output may also follow the last report. */
  function Advance(p: Phase, e: Event): Phase {
    match p
    case Absent =>
      if e.Admitted? && e.task.status == WAITING then Queued(e.task) else if e.OutputSent? then Absent else Stray
    case Queued(t) =>
      if e.Started? then Begun(t) else Stray
    case Begun(t) =>
      if HasCommand(t.kind) then (if e.Mapped? then Loaded(t, e.block, false) else Stray)
      else if e.OutputSent? then p
      else if e.Reported? && e.status == ERROR then Absent
      else Stray
    case Loaded(t, block, marked) =>
      if e.InstallSet? && Installs(t.kind) && !marked && e.serverId == t.serverId
         && e.install == SERVER_INSTALL_IN_PROCESS
        then Loaded(t, block, true)
      else if e.Forked? && marked == Installs(t.kind) then Launched(t, block, e.pid)
      else Stray
    case Launched(t, block, pid) =>
      if e.Reported? && e.status == WORKING then Running(t, block, pid) else Stray
    case Running(t, block, pid) =>
      if e.Polled? && e.pid == pid then
        if Ends(e.poll) then Judged(t, block, Succeeds(e.poll), false) else p
      else if e.OutputSent? then p
      else Stray
    case Judged(t, block, ok, marked) =>
      if e.InstallSet? && MarksAtEnd(t.kind, ok) && !marked && e.serverId == t.serverId
         && e.install == (if Installs(t.kind) && ok then SERVER_INSTALLED else SERVER_NOT_INSTALLED)
        then Judged(t, block, ok, true)
      else if e.Unmapped? && e.block == block && marked == MarksAtEnd(t.kind, ok) then Released(t, ok)
      else Stray
    case Released(t, ok) =>
      if e.Reported? && e.status == (if ok then SUCCESS else ERROR) then Absent else Stray
    case Stray => Stray
  }

  function PhaseAfter(p: Phase, es: seq<Event>, id: nat): Phase
    decreases es
  {
    if es == [] then p
    else PhaseAfter(if es[0].Of() == id then Advance(p, es[0]) else p, es[1..], id)
  }

  function PhaseOf(log: seq<Event>, id: nat): Phase {
    PhaseAfter(Absent, log, id)
  }

  lemma {:induction false} PhaseConcat(p: Phase, a: seq<Event>, b: seq<Event>, id: nat)
    ensures PhaseAfter(p, a + b, id) == PhaseAfter(PhaseAfter(p, a, id), b, id)
    decreases a
  {
    if a == [] {
      assert a + b == b;
    } else {
      assert (a + b)[1..] == a[1..] + b;
      PhaseConcat(if a[0].Of() == id then Advance(p, a[0]) else p, a[1..], b, id);
    }
  }

  lemma PhaseOne(p: Phase, e: Event, id: nat)
    ensures PhaseAfter(p, [e], id) == if e.Of() == id then Advance(p, e) else p
  {
    assert [e][1..] == [];
  }

  predicate AllOf(es: seq<Event>, id: nat) {
    forall e :: e in es ==> e.Of() == id
  }

  lemma {:induction false} PhaseOther(p: Phase, es: seq<Event>, id: nat, other: nat)
    requires AllOf(es, id) && other != id
    ensures PhaseAfter(p, es, other) == p
    decreases es
  {
    if es != [] {
      assert es[0] in es;
      PhaseOther(p, es[1..], id, other);
    }
  }

  // ---------------------------------------------------------------- the events of one step

  lemma StartPhase(t: Task, block: nat, pid: nat)
    requires t.status == WAITING
    ensures PhaseAfter(Queued(t), StartEvents(t, block, pid), t.id)
         == if HasCommand(t.kind) then Running(t, block, pid) else Absent
  {
    PhaseConcat(Queued(t), [Started(t.id)], CommandEvents(t, block, pid), t.id);
    PhaseOne(Queued(t), Started(t.id), t.id);
    CommandPhase(t, block, pid);
  }

  lemma CommandPhase(t: Task, block: nat, pid: nat)
    ensures PhaseAfter(Begun(t), CommandEvents(t, block, pid), t.id)
         == if HasCommand(t.kind) then Running(t, block, pid) else Absent
  {
    var id := t.id;
    if HasCommand(t.kind) {
      var m, b, f, r := [Mapped(id, block, CmdOf(t))], BeforeCmd(t), [Forked(id, pid)], [Reported(id, WORKING)];
      assert CommandEvents(t, block, pid) == m + (b + (f + r));
      PhaseConcat(Begun(t), m, b + (f + r), id);
      PhaseOne(Begun(t), m[0], id);
      PhaseConcat(Loaded(t, block, false), b, f + r, id);
      if b != [] { PhaseOne(Loaded(t, block, false), b[0], id); }
      PhaseConcat(Loaded(t, block, Installs(t.kind)), f, r, id);
      PhaseOne(Loaded(t, block, Installs(t.kind)), f[0], id);
      PhaseOne(Launched(t, block, pid), r[0], id);
    } else {
      var o, p, r := [OutputSent(id, "Unknown task")], [OutputSent(id, "Empty cmd")], [Reported(id, ERROR)];
      assert CommandEvents(t, block, pid) == o + (p + r);
      PhaseConcat(Begun(t), o, p + r, id);
      PhaseOne(Begun(t), o[0], id);
      PhaseConcat(Begun(t), p, r, id);
      PhaseOne(Begun(t), p[0], id);
      PhaseOne(Begun(t), r[0], id);
    }
  }

  lemma SentPhase(p: Phase, id: nat, text: string)
    requires p.Absent? || p.Running?
    ensures PhaseAfter(p, Sent(id, text), id) == p
  {
    if text != "" { PhaseOne(p, OutputSent(id, text), id); }
  }

  lemma AfterCmdPhase(t: Task, block: nat, poll: Poll)
    ensures PhaseAfter(Judged(t, block, Succeeds(poll), false), AfterCmd(t.(status := Verdict(poll))), t.id)
         == Judged(t, block, Succeeds(poll), MarksAtEnd(t.kind, Succeeds(poll)))
  {
    var a := AfterCmd(t.(status := Verdict(poll)));
    if a != [] { PhaseOne(Judged(t, block, Succeeds(poll), false), a[0], t.id); }
  }

  lemma UnmapPhase(t: Task, block: nat, ok: bool, r: Event)
    requires r == Reported(t.id, if ok then SUCCESS else ERROR)
    ensures PhaseAfter(Judged(t, block, ok, MarksAtEnd(t.kind, ok)), [Unmapped(t.id, block), r], t.id) == Absent
  {
    var p, u := Judged(t, block, ok, MarksAtEnd(t.kind, ok)), Unmapped(t.id, block);
    PhaseConcat(p, [u], [r], t.id);
    assert [u] + [r] == [u, r];
    PhaseOne(p, u, t.id);
    PhaseOne(Released(t, ok), r, t.id);
  }

  lemma EndPhase(t: Task, block: nat, poll: Poll)
    ensures PhaseAfter(Judged(t, block, Succeeds(poll), false), EndEvents(t, block, poll), t.id) == Absent
  {
    var id, ok := t.id, Succeeds(poll);
    var p, a := Judged(t, block, ok, false), AfterCmd(t.(status := Verdict(poll)));
    var e := [Unmapped(id, block), Reported(id, Verdict(poll))];
    AfterCmdPhase(t, block, poll);
    PhaseConcat(p, a, e, id);
    UnmapPhase(t, block, ok, Reported(id, Verdict(poll)));
    PhaseConcat(p, VerdictEvents(t, block, poll), Sent(id, LastOutput(poll)), id);
    SentPhase(Absent, id, LastOutput(poll));
  }

  lemma PollPhase(t: Task, block: nat, pid: nat, poll: Poll, tail: seq<Event>)
    requires tail == if Ends(poll) then EndEvents(t, block, poll) else Sent(t.id, poll.output)
    ensures PhaseAfter(Running(t, block, pid), [Polled(t.id, pid, poll)] + tail, t.id)
         == if Ends(poll) then Absent else Running(t, block, pid)
  {
    var p, e := Running(t, block, pid), Polled(t.id, pid, poll);
    PhaseConcat(p, [e], tail, t.id);
    PhaseOne(p, e, t.id);
    if Ends(poll) { EndPhase(t, block, poll); } else { SentPhase(p, t.id, poll.output); }
  }

  /** The events `RunTask` logs for the popped task. */
  function RunEvents(s: State, t: Task, shown: Poll): seq<Event>
    requires t.status == WORKING ==> t.id in s.cmds && t.id in s.pids
  {
    match t.status
    case WAITING => StartEvents(t, s.blocks, s.procs)
    case WORKING =>
      [Polled(t.id, s.pids[t.id], shown)]
      + if Ends(shown) then EndEvents(t, s.cmds[t.id], shown) else Sent(t.id, shown.output)
    case _ => []
  }

  lemma RunEventsLogged(s: State, t: Task, shown: Poll)
    requires t.status == WORKING ==> t.id in s.cmds && t.id in s.pids
    ensures RunTask(s, t, shown).0.log == s.log + RunEvents(s, t, shown)
    ensures AllOf(RunEvents(s, t, shown), t.id)
  {
    if t.status == WORKING {
      var polled := [Polled(t.id, s.pids[t.id], shown)];
      var tail := if Ends(shown) then EndEvents(t, s.cmds[t.id], shown) else Sent(t.id, shown.output);
      assert s.log + polled + tail == s.log + (polled + tail);
    } else if t.status != WAITING {
      assert s.log + [] == s.log;
    }
  }

  // ---------------------------------------------------------------- the scheduler follows it

  /** Where the queue says the task stands. */
  function Expected(s: State, t: Task): Phase {
    if t.status == WAITING then Queued(t)
    else if t.status == WORKING && t.id in s.cmds && t.id in s.pids then
      Running(t.(status := WAITING), s.cmds[t.id], s.pids[t.id])
    else Stray
  }

  ghost predicate Traced(s: State) {
    && (forall id :: id !in s.admitted ==> PhaseOf(s.log, id) == Absent)
    && (forall t :: t in s.queue ==> PhaseOf(s.log, t.id) == Expected(s, t))
  }

  lemma AdmittedPhases(log: seq<Event>, t: Task, j: PanelTask)
    requires t.status == WAITING && PhaseOf(log, t.id) == Absent
    ensures forall id :: PhaseOf(log + [Admitted(t, j)], id) == if id == t.id then Queued(t) else PhaseOf(log, id)
  {
    forall id ensures PhaseOf(log + [Admitted(t, j)], id) == if id == t.id then Queued(t) else PhaseOf(log, id) {
      PhaseConcat(Absent, log, [Admitted(t, j)], id);
      PhaseOne(PhaseOf(log, id), Admitted(t, j), id);
    }
  }

  lemma AdmitKeepsTraced(s: State, j: PanelTask, wanted: nat)
    requires Inv(s) && Traced(s)
    ensures Traced(Admit(s, j, wanted))
  {
    if Admits(s.admitted, j, wanted) {
      AdmittedPhases(s.log, NewTask(j), j);
      PushKeepsTraced(s, NewTask(j), s.log + [Admitted(NewTask(j), j)]);
    }
  }

  lemma PushKeepsTraced(s: State, t: Task, log: seq<Event>)
    requires Inv(s) && Traced(s) && t.id !in s.admitted && t.status == WAITING
    requires forall id :: PhaseOf(log, id) == if id == t.id then Queued(t) else PhaseOf(s.log, id)
    ensures Traced(s.(queue := s.queue + [t], admitted := s.admitted + {t.id}, log := log))
  {
    var s' := s.(queue := s.queue + [t], admitted := s.admitted + {t.id}, log := log);
    forall u | u in s'.queue ensures PhaseOf(s'.log, u.id) == Expected(s', u) {
      if u in s.queue { QueuedElsewhere(s, u, t.id); }
      assert Expected(s', u) == Expected(s, u);
    }
  }

  lemma QueuedElsewhere(s: State, u: Task, id: nat)
    requires Inv(s) && Traced(s) && u in s.queue && id !in s.admitted
    ensures u.id != id && PhaseOf(s.log, u.id) == Expected(s, u)
  {
    assert u.id in s.admitted;
  }

  lemma EventsPhase(t0: Task, events: seq<Event>, block: nat, pid: nat, poll: Poll)
    requires events == [Polled(t0.id, pid, poll)]
                       + if Ends(poll) then EndEvents(t0, block, poll) else Sent(t0.id, poll.output)
    ensures PhaseAfter(Running(t0.(status := WAITING), block, pid), events, t0.id)
         == if Ends(poll) then Absent else Running(t0.(status := WAITING), block, pid)
  {
    var t := t0.(status := WAITING);
    assert AfterCmd(t0.(status := Verdict(poll))) == AfterCmd(t.(status := Verdict(poll)));
    PollPhase(t, block, pid, poll, if Ends(poll) then EndEvents(t, block, poll) else Sent(t.id, poll.output));
  }

  lemma RunTaskPhases(s: State, t: Task, shown: Poll)
    requires t.status == WAITING || t.status == WORKING
    requires t.status == WORKING <==> t.id in s.cmds
    requires t.status == WORKING <==> t.id in s.pids
    requires PhaseOf(s.log, t.id) == Expected(s, t)
    ensures var (s', t') := RunTask(s, t, shown);
            && PhaseOf(s'.log, t.id) == (if Terminal(t'.status) then Absent else Expected(s', t'))
            && (forall id :: id != t.id ==> PhaseOf(s'.log, id) == PhaseOf(s.log, id))
            && (forall id :: id != t.id && id in s.cmds ==> id in s'.cmds && s'.cmds[id] == s.cmds[id])
            && (forall id :: id != t.id && id in s.pids ==> id in s'.pids && s'.pids[id] == s.pids[id])
  {
    var es := RunEvents(s, t, shown);
    RunEventsLogged(s, t, shown);
    forall id ensures PhaseOf(s.log + es, id) == PhaseAfter(PhaseOf(s.log, id), es, id) {
      PhaseConcat(Absent, s.log, es, id);
    }
    forall id | id != t.id ensures PhaseOf(s.log + es, id) == PhaseOf(s.log, id) {
      PhaseOther(PhaseOf(s.log, id), es, t.id, id);
    }
    if t.status == WAITING {
      StartPhase(t, s.blocks, s.procs);
    } else {
      EventsPhase(t, es, s.cmds[t.id], s.pids[t.id], shown);
    }
  }

  /** `s'` and `t'` are the result of running the popped front task of `s`. */
  ghost predicate Ran(s: State, s': State, t': Task)
    requires s.queue != []
  {
    var id0 := s.queue[0].id;
    && s'.queue == s.queue[1..] && s'.admitted == s.admitted && t'.id == id0
    && PhaseOf(s'.log, id0) == (if Terminal(t'.status) then Absent else Expected(s', t'))
    && (forall id :: id != id0 ==> PhaseOf(s'.log, id) == PhaseOf(s.log, id))
    && (forall id :: id != id0 && id in s.cmds ==> id in s'.cmds && s'.cmds[id] == s.cmds[id])
    && (forall id :: id != id0 && id in s.pids ==> id in s'.pids && s'.pids[id] == s.pids[id])
  }

  lemma FrontRan(s: State, shown: Poll)
    requires Inv(s) && Traced(s) && s.queue != []
    ensures var r := RunTask(s.(queue := s.queue[1..]), s.queue[0], shown); Ran(s, r.0, r.1)
  {
    var popped, t := s.(queue := s.queue[1..]), s.queue[0];
    FrontRuns(s);
    assert t in s.queue;
    assert Expected(popped, t) == Expected(s, t);
    RunTaskEffect(popped, t, shown);
    RunTaskPhases(popped, t, shown);
  }

  lemma RestExpected(s: State, s': State, t': Task)
    requires Inv(s) && Traced(s) && s.queue != [] && Ran(s, s', t')
    ensures forall u :: u in s'.queue ==> u.id != t'.id && PhaseOf(s'.log, u.id) == Expected(s', u)
  {
    PopFront(s.queue);
    forall u | u in s'.queue ensures u.id != t'.id && PhaseOf(s'.log, u.id) == Expected(s', u) {
      assert u in s.queue && u.id in Ids(s.queue[1..]);
      assert u.status == WORKING ==> u.id in WorkingIds(s.queue);
    }
  }

  lemma AbsentStay(s: State, s': State, t': Task)
    requires Inv(s) && Traced(s) && s.queue != [] && Ran(s, s', t')
    ensures forall id :: id !in s'.admitted ==> PhaseOf(s'.log, id) == Absent
    ensures t'.id in s'.admitted
  {
    assert s.queue[0] in s.queue;
  }

  lemma RequeueKeepsTraced(s: State, t: Task)
    requires PhaseOf(s.log, t.id) == if Terminal(t.status) then Absent else Expected(s, t)
    requires forall id :: id !in s.admitted ==> PhaseOf(s.log, id) == Absent
    requires forall u :: u in s.queue ==> u.id != t.id && PhaseOf(s.log, u.id) == Expected(s, u)
    ensures Traced(Requeue(s, t))
  {
  }

  lemma RanKeepsTraced(s: State, s': State, t': Task)
    requires Inv(s) && Traced(s) && s.queue != [] && Ran(s, s', t')
    ensures Traced(Requeue(s', t'))
  {
    RestExpected(s, s', t');
    AbsentStay(s, s', t');
    RequeueKeepsTraced(s', t');
  }

  lemma RotateKeepsTraced(s: State)
    requires Traced(s) && s.queue != []
    ensures Traced(s.(queue := s.queue[1..] + [s.queue[0]]))
  {
    assert forall u :: u in s.queue[1..] + [s.queue[0]] ==> u in s.queue;
  }

  lemma RunNextKeepsTraced(s: State, shown: Poll)
    requires Inv(s) && Traced(s) && s.queue != []
    ensures Traced(RunNext(s, shown))
  {
    var t, rest := s.queue[0], s.queue[1..];
    if Blocked(t, s.admitted) {
      RotateKeepsTraced(s);
    } else {
      FrontRan(s, shown);
      var r := RunTask(s.(queue := rest), t, shown);
      RanKeepsTraced(s, r.0, r.1);
    }
  }

  // ---------------------------------------------------------------- reports and results

  /** What the outside heard about the latest admission of a task. */
  datatype Story = Story(admitted: Option<Task>, reports: seq<Status>, poll: Option<Poll>)

  function Tell(st: Story, e: Event): Story {
    match e
    case Admitted(t, _) => Story(Some(t), [], None)
    case Reported(_, status) => st.(reports := st.reports + [status])
    case Polled(_, _, poll) => st.(poll := Some(poll))
    case _ => st
  }

  function StoryAfter(st: Story, es: seq<Event>, id: nat): Story
    decreases es
  {
    if es == [] then st
    else StoryAfter(if es[0].Of() == id then Tell(st, es[0]) else st, es[1..], id)
  }

  function StoryOf(log: seq<Event>, id: nat): Story {
    StoryAfter(Story(None, [], None), log, id)
  }

  /** The reports and the last poll that belong to a phase. */
  predicate Consistent(p: Phase, st: Story) {
    match p
    case Absent => st.admitted.None? || Finished(st)
    case Queued(t) => st == Story(Some(t), [], None)
    case Begun(t) => st == Story(Some(t), [], None)
    case Loaded(t, _, _) => st == Story(Some(t), [], None) && HasCommand(t.kind)
    case Launched(t, _, _) => st == Story(Some(t), [], None) && HasCommand(t.kind)
    case Running(t, _, _) => st.admitted == Some(t) && st.reports == [WORKING] && HasCommand(t.kind)
    case Judged(t, _, ok, _) => EndingIs(st, t, ok)
    case Released(t, ok) => EndingIs(st, t, ok)
    case Stray => true
  }

  predicate EndingIs(st: Story, t: Task, ok: bool) {
    && st.admitted == Some(t) && st.reports == [WORKING] && HasCommand(t.kind)
    && st.poll.Some? && Ends(st.poll.value) && ok == Succeeds(st.poll.value)
  }

  /** A finished life: ERROR alone for an unknown kind; otherwise WORKING and then one verdict,
      SUCCESS exactly if the last poll saw a true result and a normal exit. */
  predicate Finished(st: Story)
    requires st.admitted.Some?
  {
    if !HasCommand(st.admitted.value.kind) then st.reports == [ERROR]
    else
      && st.poll.Some? && Ends(st.poll.value)
      && st.reports == [WORKING, Verdict(st.poll.value)]
  }

  lemma ConsistentStep(p: Phase, st: Story, e: Event)
    requires Consistent(p, st)
    ensures Consistent(Advance(p, e), Tell(st, e))
  {
    assert p.Released? ==> [WORKING] + [if p.ok then SUCCESS else ERROR] == [WORKING, if p.ok then SUCCESS else ERROR];
    assert [] + [ERROR] == [ERROR] && [] + [WORKING] == [WORKING];
  }

  lemma {:induction false} ConsistentAfter(p: Phase, st: Story, es: seq<Event>, id: nat)
    requires Consistent(p, st)
    ensures Consistent(PhaseAfter(p, es, id), StoryAfter(st, es, id))
    decreases es
  {
    if es != [] {
      if es[0].Of() == id {
        ConsistentStep(p, st, es[0]);
        ConsistentAfter(Advance(p, es[0]), Tell(st, es[0]), es[1..], id);
      } else {
        ConsistentAfter(p, st, es[1..], id);
      }
    }
  }
}
