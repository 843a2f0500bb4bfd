/** Whole runs of `ServersTasks` against a read-back panel: how often and how soon a recurring task
    runs, and what happens to command blocks and processes. */
module ServersHistory {
  import opened Commands
  import opened ServersHeap
  import opened ServersModel
  import opened ServersInvariant

  // ---------------------------------------------------------------- a summary of the log

  /** `running` holds the tasks started and not completed, `done` counts completions, `last` is the
      time of the last one, `recent` the time of the last start or completion. */
  datatype Digest = Digest(
    freed: set<nat>, retired: set<nat>, mapped: nat, unmapped: nat,
    running: set<nat>, done: map<nat, nat>, last: map<nat, int>, recent: map<nat, int>)

  function Done(d: Digest, id: nat): nat {
    if id in d.done then d.done[id] else 0
  }

  function Note(d: Digest, e: Event): Digest {
    match e
    case Started(id, at) => d.(recent := d.recent[id := at], running := d.running + {id})
    case Completed(id, at) =>
      d.(running := d.running - {id}, recent := d.recent[id := at], last := d.last[id := at],
         done := d.done[id := Done(d, id) + 1])
    case Mapped(_, _, _) => d.(mapped := d.mapped + 1)
    case Unmapped(_, block) => d.(unmapped := d.unmapped + 1, freed := d.freed + {block})
    case Polled(_, pid, poll) => if Ends(poll) then d.(retired := d.retired + {pid}) else d
    case _ => d
  }

  function Summary(log: seq<Event>): Digest {
    if log == [] then Digest({}, {}, 0, 0, {}, map[], map[], map[])
    else Note(Summary(log[..|log| - 1]), log[|log| - 1])
  }

  /** The date the panel holds: the first one, or the last completion plus the period. */
  function PanelDate(d: Digest, p0: map<nat, Rec>, id: nat): int
    requires id in p0
  {
    if id in d.last then d.last[id] + p0[id].repeatPeriod else p0[id].date
  }

  function Limit(p0: map<nat, Rec>, id: nat): nat
    requires id in p0
  {
    p0[id].repeat % USHORT
  }

  /** What may happen next. */
  predicate Fits(d: Digest, p0: map<nat, Rec>, e: Event) {
    match e
    case Started(id, at) =>
      && id in p0 && id !in d.running && at > PanelDate(d, p0, id)
      && (id in d.recent ==> at > d.recent[id] + p0[id].repeatPeriod)
    case Completed(id, at) =>
      && id in p0 && id in d.running && (id in d.recent ==> at >= d.recent[id])
      && (Limit(p0, id) > 0 ==> Done(d, id) + p0[id].counter < Limit(p0, id))
    case Polled(id, pid, _) => id in d.running && pid !in d.retired
    case Unmapped(_, block) => block !in d.freed
    case NullCommand(_) => false
    case _ => true
  }

  predicate AllFit(log: seq<Event>, p0: map<nat, Rec>) {
    log == [] || (AllFit(log[..|log| - 1], p0) && Fits(Summary(log[..|log| - 1]), p0, log[|log| - 1]))
  }

  lemma AddOne(log: seq<Event>, p0: map<nat, Rec>, e: Event)
    requires AllFit(log, p0) && Fits(Summary(log), p0, e)
    ensures AllFit(log + [e], p0) && Summary(log + [e]) == Note(Summary(log), e)
  {
    assert (log + [e])[..|log|] == log;
  }

  function NoteAll(d: Digest, es: seq<Event>): Digest
    decreases es
  {
    if es == [] then d else NoteAll(Note(d, es[0]), es[1..])
  }

  predicate FitAll(d: Digest, p0: map<nat, Rec>, es: seq<Event>)
    decreases es
  {
    es == [] || (Fits(d, p0, es[0]) && FitAll(Note(d, es[0]), p0, es[1..]))
  }

  lemma {:induction false} AddAll(log: seq<Event>, p0: map<nat, Rec>, es: seq<Event>)
    requires AllFit(log, p0) && FitAll(Summary(log), p0, es)
    ensures AllFit(log + es, p0) && Summary(log + es) == NoteAll(Summary(log), es)
    decreases es
  {
    if es == [] {
      assert log + es == log;
    } else {
      AddOne(log, p0, es[0]);
      AddAll(log + [es[0]], p0, es[1..]);
      assert log + [es[0]] + es[1..] == log + es;
    }
  }

  lemma {:induction false} ThenAll(d: Digest, p0: map<nat, Rec>, a: seq<Event>, b: seq<Event>)
    ensures NoteAll(d, a + b) == NoteAll(NoteAll(d, a), b)
    ensures FitAll(d, p0, a + b) <==> FitAll(d, p0, a) && FitAll(NoteAll(d, a), p0, b)
    decreases a
  {
    if a == [] {
      assert a + b == b;
    } else {
      assert (a + b)[1..] == a[1..] + b;
      ThenAll(Note(d, a[0]), p0, a[1..], b);
    }
  }

  lemma One(d: Digest, p0: map<nat, Rec>, e: Event)
    ensures NoteAll(d, [e]) == Note(d, e) && (FitAll(d, p0, [e]) <==> Fits(d, p0, e))
  {
    assert [e][1..] == [];
  }

  predicate Neutral(e: Event) {
    e.InstallSet? || e.Forked? || e.FailSaved?
  }

  lemma {:induction false} NeutralAll(d: Digest, p0: map<nat, Rec>, es: seq<Event>)
    requires forall e :: e in es ==> Neutral(e)
    ensures NoteAll(d, es) == d && FitAll(d, p0, es)
    decreases es
  {
    if es != [] {
      assert es[0] in es;
      NeutralAll(d, p0, es[1..]);
    }
  }

  // ---------------------------------------------------------------- the events of one step

  lemma StartNoted(d: Digest, p0: map<nat, Rec>, t: Task, at: int, block: nat, pid: nat)
    requires Fits(d, p0, Started(t.id, at))
    ensures FitAll(d, p0, StartEvents(t, at, block, pid))
    ensures NoteAll(d, StartEvents(t, at, block, pid))
         == d.(recent := d.recent[t.id := at], running := d.running + {t.id}, mapped := d.mapped + 1)
  {
    var a, b := [Started(t.id, at)], [Mapped(t.id, block, ServerCmd(RESTART, t.serverId))];
    var tail := BeforeCmd(t) + [Forked(t.id, pid)];
    assert StartEvents(t, at, block, pid) == a + (b + tail);
    ThenAll(d, p0, a, b + tail);
    One(d, p0, a[0]);
    var d1 := Note(d, a[0]);
    ThenAll(d1, p0, b, tail);
    One(d1, p0, b[0]);
    NeutralAll(Note(d1, b[0]), p0, tail);
  }

  /** The log of a poll that ended its task. */
  function EndingEvents(t: Task, pid: nat, block: nat, poll: Poll, later: int): seq<Event> {
    [Polled(t.id, pid, poll)] + EndEvents(t, poll, later) + [Unmapped(t.id, block)]
  }

  /** The summary of the log after a run of task `id` ended. */
  function AfterEnd(d: Digest, id: nat, pid: nat, block: nat, later: int): Digest {
    d.(retired := d.retired + {pid}, freed := d.freed + {block}, unmapped := d.unmapped + 1,
       running := d.running - {id},
       recent := d.recent[id := later], last := d.last[id := later], done := d.done[id := Done(d, id) + 1])
  }

  lemma LastTwoNoted(d: Digest, p0: map<nat, Rec>, id: nat, block: nat, later: int)
    requires id in d.running && block !in d.freed && Fits(d, p0, Completed(id, later))
    ensures var es := [Completed(id, later), Unmapped(id, block)];
            FitAll(d, p0, es) && NoteAll(d, es) == Note(Note(d, es[0]), es[1])
  {
    Two(d, p0, Completed(id, later), Unmapped(id, block));
  }

  lemma EndingParts(t: Task, pid: nat, block: nat, poll: Poll, later: int, n: seq<Event>)
    requires n == AfterCmd(t.(status := Verdict(poll)))
                  + if Verdict(poll) == FAIL then [FailSaved(t.id, poll.output)] else []
    ensures EndingEvents(t, pid, block, poll, later)
         == [Polled(t.id, pid, poll)] + (n + [Completed(t.id, later), Unmapped(t.id, block)])
  {
  }

  lemma EndNoted(d: Digest, p0: map<nat, Rec>, t: Task, pid: nat, block: nat, poll: Poll, later: int)
    requires t.id in d.running && Ends(poll) && pid !in d.retired && block !in d.freed
    requires Fits(d, p0, Completed(t.id, later))
    ensures FitAll(d, p0, EndingEvents(t, pid, block, poll, later))
    ensures NoteAll(d, EndingEvents(t, pid, block, poll, later)) == AfterEnd(d, t.id, pid, block, later)
  {
    var p, last := [Polled(t.id, pid, poll)], [Completed(t.id, later), Unmapped(t.id, block)];
    var n := AfterCmd(t.(status := Verdict(poll)))
             + if Verdict(poll) == FAIL then [FailSaved(t.id, poll.output)] else [];
    EndingParts(t, pid, block, poll, later, n);
    ThenAll(d, p0, p, n + last);
    One(d, p0, p[0]);
    var d1 := d.(retired := d.retired + {pid});
    ThenAll(d1, p0, n, last);
    NeutralAll(d1, p0, n);
    LastTwoNoted(d1, p0, t.id, block, later);
  }

  lemma Two(d: Digest, p0: map<nat, Rec>, a: Event, b: Event)
    ensures NoteAll(d, [a, b]) == Note(Note(d, a), b)
    ensures FitAll(d, p0, [a, b]) <==> Fits(d, p0, a) && Fits(Note(d, a), p0, b)
  {
    assert [a, b] == [a] + [b];
    ThenAll(d, p0, [a], [b]);
    One(d, p0, a);
    One(Note(d, a), p0, b);
  }

  // ---------------------------------------------------------------- the history invariant

  /** The panel's record against its first value and the log. */
  predicate RowOk(s: State, p0: map<nat, Rec>, d: Digest, id: nat)
    requires id in p0 && id in s.panel
  {
    var r := s.panel[id];
    && r.repeat % USHORT == Limit(p0, id) && r.repeatPeriod == p0[id].repeatPeriod
    && r.date == PanelDate(d, p0, id)
    && (Limit(p0, id) > 0 ==> r.counter == p0[id].counter + Done(d, id))
    && (id in d.recent ==> d.recent[id] <= s.clock && (id in s.cmds || d.recent[id] + p0[id].repeatPeriod <= r.date))
  }

  predicate RowsOk(s: State, p0: map<nat, Rec>, d: Digest) {
    s.panel.Keys == p0.Keys && forall id :: id in p0 ==> RowOk(s, p0, d, id)
  }

  predicate Owned(s: State, d: Digest) {
    && Holds(s.cmds, d.freed, s.blocks)
    && Holds(s.pids, d.retired, s.procs)
    && d.mapped == d.unmapped + |s.cmds|
    && d.running == s.cmds.Keys
  }

  predicate HInv(s: State, p0: map<nat, Rec>) {
    AllFit(s.log, p0) && RowsOk(s, p0, Summary(s.log)) && Owned(s, Summary(s.log))
  }

  /** The scheduler's entries and the panel are those of `s`; the clock may be later. */
  predicate SameBooks(s: State, s': State) {
    && s'.log == s.log && s'.panel == s.panel && s'.cmds == s.cmds && s'.pids == s.pids
    && s'.blocks == s.blocks && s'.procs == s.procs && s.clock <= s'.clock
  }

  lemma SameBooksKeepHInv(s: State, s': State, p0: map<nat, Rec>)
    requires HInv(s, p0) && SameBooks(s, s')
    ensures HInv(s', p0)
  {
    var d := Summary(s.log);
    forall id | id in p0 ensures RowOk(s', p0, d, id) { assert RowOk(s, p0, d, id); }
  }

  lemma RowsAfterStart(s: State, s': State, p0: map<nat, Rec>, d: Digest, d': Digest, id: nat, at: int)
    requires RowsOk(s, p0, d) && s'.panel == s.panel && s'.cmds.Keys == s.cmds.Keys + {id} && s.clock <= at <= s'.clock
    requires d' == d.(recent := d.recent[id := at], running := d.running + {id}, mapped := d.mapped + 1)
    ensures RowsOk(s', p0, d')
  {
    forall i | i in p0 ensures RowOk(s', p0, d', i) { assert RowOk(s, p0, d, i); }
  }

  lemma StartOwned(s: State, s': State, d: Digest, d': Digest, id: nat)
    requires Owned(s, d) && id !in s.cmds && id !in s.pids
    requires s'.cmds == Insert(s.cmds, id, s.blocks) && s'.pids == Insert(s.pids, id, s.procs)
    requires s'.blocks == s.blocks + 1 && s'.procs == s.procs + 1
    requires d' == d.(recent := d'.recent, running := d.running + {id}, mapped := d.mapped + 1)
    ensures Owned(s', d')
  {
    HoldsMore(s.cmds, d.freed, s.blocks, id);
    HoldsMore(s.pids, d.retired, s.procs, id);
  }

  lemma StartFits(s: State, p0: map<nat, Rec>, id: nat, at: int)
    requires RowsOk(s, p0, Summary(s.log)) && Owned(s, Summary(s.log))
    requires id in s.panel && id !in s.cmds && at > s.panel[id].date
    ensures Fits(Summary(s.log), p0, Started(id, at))
  {
    assert RowOk(s, p0, Summary(s.log), id);
  }

  lemma StartLogged(log: seq<Event>, p0: map<nat, Rec>, t: Task, at: int, block: nat, pid: nat)
    requires AllFit(log, p0) && Fits(Summary(log), p0, Started(t.id, at))
    ensures var d, log' := Summary(log), log + StartEvents(t, at, block, pid);
            AllFit(log', p0)
            && Summary(log') == d.(recent := d.recent[t.id := at], running := d.running + {t.id},
                                   mapped := d.mapped + 1)
  {
    StartNoted(Summary(log), p0, t, at, block, pid);
    AddAll(log, p0, StartEvents(t, at, block, pid));
  }

  lemma StartBooks(s: State, s': State, p0: map<nat, Rec>, d: Digest, id: nat, at: int)
    requires RowsOk(s, p0, d) && Owned(s, d) && id !in s.cmds && id !in s.pids
    requires s.clock <= at <= s'.clock && s'.panel == s.panel
    requires s'.cmds == Insert(s.cmds, id, s.blocks) && s'.pids == Insert(s.pids, id, s.procs)
    requires s'.blocks == s.blocks + 1 && s'.procs == s.procs + 1
    ensures var d' := d.(recent := d.recent[id := at], running := d.running + {id}, mapped := d.mapped + 1);
            RowsOk(s', p0, d') && Owned(s', d')
  {
    var d' := d.(recent := d.recent[id := at], running := d.running + {id}, mapped := d.mapped + 1);
    RowsAfterStart(s, s', p0, d, d', id, at);
    StartOwned(s, s', d, d', id);
  }

  lemma StartKeepsHInv(s: State, s': State, p0: map<nat, Rec>, t: Task, at: int)
    requires HInv(s, p0) && t.id in s.panel && t.id !in s.cmds && t.id !in s.pids
    requires s.clock <= at <= s'.clock && at > s.panel[t.id].date
    requires s'.log == s.log + StartEvents(t, at, s.blocks, s.procs) && s'.panel == s.panel
    requires s'.cmds == Insert(s.cmds, t.id, s.blocks) && s'.pids == Insert(s.pids, t.id, s.procs)
    requires s'.blocks == s.blocks + 1 && s'.procs == s.procs + 1
    ensures HInv(s', p0)
  {
    var d := Summary(s.log);
    StartFits(s, p0, t.id, at);
    StartLogged(s.log, p0, t, at, s.blocks, s.procs);
    StartBooks(s, s', p0, d, t.id, at);
    HInvFrom(s', p0, d.(recent := d.recent[t.id := at], running := d.running + {t.id}, mapped := d.mapped + 1));
  }

  lemma HInvFrom(s: State, p0: map<nat, Rec>, d: Digest)
    requires Summary(s.log) == d && AllFit(s.log, p0) && RowsOk(s, p0, d) && Owned(s, d)
    ensures HInv(s, p0)
  {
  }

  lemma PollKeepsHInv(s: State, s': State, p0: map<nat, Rec>, id: nat, poll: Poll)
    requires HInv(s, p0) && id in s.cmds && id in s.pids && !Ends(poll)
    requires s'.log == s.log + [Polled(id, s.pids[id], poll)] && SameBooks(s, s'.(log := s.log))
    ensures HInv(s', p0)
  {
    SameBooksKeepHInv(s, s'.(log := s.log), p0);
    AddOne(s.log, p0, Polled(id, s.pids[id], poll));
  }

  lemma RowAfterEnd(s: State, s': State, p0: map<nat, Rec>, d: Digest, d': Digest, t: Task, poll: Poll, later: int)
    requires t.id in p0 && t.id in s.panel && RowOk(s, p0, d, t.id) && Matches(t, s.panel[t.id]) && later <= s'.clock
    requires Limit(p0, t.id) > 0 ==> t.counter < Limit(p0, t.id)
    requires s'.panel == Written(s.panel, Counted(t, poll, later)) && t.id !in s'.cmds
    requires d'.recent == d.recent[t.id := later] && d'.last == d.last[t.id := later]
             && d'.done == d.done[t.id := Done(d, t.id) + 1]
    ensures RowOk(s', p0, d', t.id)
  {
    assert t.repeat < USHORT;
  }

  lemma RowsAfterEnd(s: State, s': State, p0: map<nat, Rec>, d: Digest, d': Digest, t: Task, poll: Poll, later: int)
    requires RowsOk(s, p0, d) && t.id in s.panel && Matches(t, s.panel[t.id]) && s.clock <= later <= s'.clock
    requires Limit(p0, t.id) > 0 ==> t.counter < Limit(p0, t.id)
    requires s'.panel == Written(s.panel, Counted(t, poll, later)) && s'.cmds.Keys == s.cmds.Keys - {t.id}
    requires d'.recent == d.recent[t.id := later] && d'.last == d.last[t.id := later]
             && d'.done == d.done[t.id := Done(d, t.id) + 1]
    ensures RowsOk(s', p0, d')
  {
    assert RowOk(s, p0, d, t.id);
    RowAfterEnd(s, s', p0, d, d', t, poll, later);
    forall i | i in p0 && i != t.id ensures RowOk(s', p0, d', i) { assert RowOk(s, p0, d, i); }
  }

  lemma EndFits(s: State, p0: map<nat, Rec>, t: Task, later: int)
    requires RowsOk(s, p0, Summary(s.log)) && Owned(s, Summary(s.log))
    requires t.id in s.panel && t.id in s.cmds && Matches(t, s.panel[t.id])
    requires s.clock <= later && !Exhausted(t)
    ensures Fits(Summary(s.log), p0, Completed(t.id, later))
    ensures Limit(p0, t.id) > 0 ==> t.counter < Limit(p0, t.id)
  {
    assert RowOk(s, p0, Summary(s.log), t.id);
  }

  lemma EndOwned(s: State, s': State, d: Digest, d': Digest, id: nat)
    requires Owned(s, d) && id in s.cmds && id in s.pids
    requires s'.cmds == s.cmds - {id} && s'.pids == s.pids - {id} && s'.blocks == s.blocks && s'.procs == s.procs
    requires d'.freed == d.freed + {s.cmds[id]} && d'.retired == d.retired + {s.pids[id]}
    requires d'.mapped == d.mapped && d'.unmapped == d.unmapped + 1 && d'.running == d.running - {id}
    ensures Owned(s', d')
  {
    HoldsLess(s.cmds, d.freed, s.blocks, id);
    HoldsLess(s.pids, d.retired, s.procs, id);
  }

  lemma EndLogged(log: seq<Event>, p0: map<nat, Rec>, t: Task, pid: nat, block: nat, poll: Poll, later: int)
    requires AllFit(log, p0) && Ends(poll) && Fits(Summary(log), p0, Completed(t.id, later))
    requires t.id in Summary(log).running && pid !in Summary(log).retired && block !in Summary(log).freed
    ensures var d, log' := Summary(log), log + EndingEvents(t, pid, block, poll, later);
            && AllFit(log', p0)
            && Summary(log') == AfterEnd(d, t.id, pid, block, later)
  {
    EndNoted(Summary(log), p0, t, pid, block, poll, later);
    AddAll(log, p0, EndingEvents(t, pid, block, poll, later));
  }

  lemma EndBooks(s: State, s': State, p0: map<nat, Rec>, d: Digest, t: Task, poll: Poll, later: int)
    requires RowsOk(s, p0, d) && Owned(s, d) && t.id in s.panel && t.id in s.cmds && t.id in s.pids
    requires Matches(t, s.panel[t.id]) && s.clock <= later <= s'.clock
    requires Limit(p0, t.id) > 0 ==> t.counter < Limit(p0, t.id)
    requires s'.panel == Written(s.panel, Counted(t, poll, later))
    requires s'.cmds == s.cmds - {t.id} && s'.pids == s.pids - {t.id} && s'.blocks == s.blocks && s'.procs == s.procs
    ensures var d' := AfterEnd(d, t.id, s.pids[t.id], s.cmds[t.id], later); RowsOk(s', p0, d') && Owned(s', d')
  {
    var d' := AfterEnd(d, t.id, s.pids[t.id], s.cmds[t.id], later);
    RowsAfterEnd(s, s', p0, d, d', t, poll, later);
    EndOwned(s, s', d, d', t.id);
  }

  lemma EndKeepsHInv(s: State, s': State, p0: map<nat, Rec>, t: Task, poll: Poll, later: int)
    requires HInv(s, p0) && t.id in s.panel && t.id in s.cmds && t.id in s.pids && Matches(t, s.panel[t.id])
    requires Ends(poll) && s.clock <= later <= s'.clock && !Exhausted(t)
    requires s'.log == s.log + EndingEvents(t, s.pids[t.id], s.cmds[t.id], poll, later)
    requires s'.panel == Written(s.panel, Counted(t, poll, later))
    requires s'.cmds == s.cmds - {t.id} && s'.pids == s.pids - {t.id} && s'.blocks == s.blocks && s'.procs == s.procs
    ensures HInv(s', p0)
  {
    var d := Summary(s.log);
    EndFits(s, p0, t, later);
    EndLogged(s.log, p0, t, s.pids[t.id], s.cmds[t.id], poll, later);
    EndBooks(s, s', p0, d, t, poll, later);
    HInvFrom(s', p0, AfterEnd(d, t.id, s.pids[t.id], s.cmds[t.id], later));
  }

  lemma EndLog(s: State, t: Task, shown: Poll, now: int, later: int, pushed: seq<Task>)
    requires t.status == WORKING && t.id in s.cmds && t.id in s.pids && Ends(shown) && !Exhausted(t)
    ensures var s' := Handle(s, t, shown, now, later, pushed);
            && s'.log == s.log + EndingEvents(t, s.pids[t.id], s.cmds[t.id], shown, later)
            && s'.panel == Written(s.panel, Counted(t, shown, later))
            && s'.cmds == s.cmds - {t.id} && s'.pids == s.pids - {t.id}
            && s'.blocks == s.blocks && s'.procs == s.procs && s'.clock == s.clock
  {
    var p, e, u := [Polled(t.id, s.pids[t.id], shown)], EndEvents(t, shown, later), [Unmapped(t.id, s.cmds[t.id])];
    assert s.log + p + e + u == s.log + (p + e + u);
  }

  lemma RunningKeepsHInv(s: State, p0: map<nat, Rec>, t: Task, t0: Task, shown: Poll, now: int, later: int,
                         popped: seq<Task>, pushed: seq<Task>)
    requires HInv(s, p0) && Popping(s, t, t0, now) && s.clock <= now <= later && t.status == WORKING && !Exhausted(t)
    ensures HInv(Handle(s.(heap := popped, clock := later), t, shown, now, later, pushed), p0)
  {
    var s1 := s.(heap := popped, clock := later);
    var s' := Handle(s1, t, shown, now, later, pushed);
    if Ends(shown) {
      EndLog(s1, t, shown, now, later, pushed);
      EndKeepsHInv(s, s', p0, t, shown, later);
    } else {
      PollKeepsHInv(s, s', p0, t.id, shown);
    }
  }

  lemma HandleKeepsHInv(s: State, p0: map<nat, Rec>, t: Task, t0: Task, shown: Poll, now: int, later: int,
                        popped: seq<Task>, pushed: seq<Task>)
    requires HInv(s, p0) && Popping(s, t, t0, now) && s.clock <= now <= later
    ensures HInv(Handle(s.(heap := popped, clock := later), t, shown, now, later, pushed), p0)
  {
    var s1 := s.(heap := popped, clock := later);
    if Exhausted(t) {
      SameBooksKeepHInv(s, s1, p0);
    } else if t.status == WAITING {
      StartKeepsHInv(s, Handle(s1, t, shown, now, later, pushed), p0, t, now);
    } else {
      RunningKeepsHInv(s, p0, t, t0, shown, now, later, popped, pushed);
    }
  }

  lemma SyncedBooks(s: State, now: int, reachable: bool)
    requires s.heap != []
    ensures SameBooks(s, Synced(s, now, reachable)) && Synced(s, now, reachable).heap != []
  {
  }

  lemma IdleBooks(s: State, step: Step)
    requires Allowed(s, step) && (step.AdmitStep? || s.heap == [] || !Due(s, step))
    ensures SameBooks(s, Next(s, step))
  {
    if step.RunStep? && s.heap != [] { SyncedBooks(s, step.now, step.reachable); }
  }

  lemma DueKeepsHInv(s: State, p0: map<nat, Rec>, step: Step)
    requires SInv(s) && HInv(s, p0) && step.RunStep? && s.heap != []
    requires s.clock <= step.now <= step.later && Due(s, step)
    ensures HInv(RunNext(s, step), p0)
  {
    var synced := Synced(s, step.now, step.reachable);
    SyncedBooks(s, step.now, step.reachable);
    SameBooksKeepHInv(s, synced, p0);
    HeadPopping(s, step);
    HandleKeepsHInv(synced, p0, synced.heap[0], s.heap[0], step.shown, step.now, step.later, step.popped, step.pushed);
  }

  lemma NextKeepsHInv(s: State, p0: map<nat, Rec>, step: Step)
    requires SInv(s) && HInv(s, p0) && Allowed(s, step)
    ensures HInv(Next(s, step), p0)
  {
    if step.AdmitStep? || s.heap == [] || !Due(s, step) {
      IdleBooks(s, step);
      SameBooksKeepHInv(s, Next(s, step), p0);
    } else {
      DueKeepsHInv(s, p0, step);
    }
  }

  lemma {:induction false} RunKeepsHInv(p0: map<nat, Rec>, clock: int, steps: seq<Step>)
    requires AllowedRun(Initial(p0, clock), steps)
    ensures SInv(Run(Initial(p0, clock), steps)) && HInv(Run(Initial(p0, clock), steps), p0)
    decreases steps
  {
    var s0 := Initial(p0, clock);
    InitialSInv(p0, clock);
    if steps != [] {
      var before := steps[..|steps| - 1];
      RunKeepsHInv(p0, clock, before);
      RunKeepsSInv(s0, steps);
      NextKeepsHInv(Run(s0, before), p0, steps[|steps| - 1]);
    }
  }

  // ---------------------------------------------------------------- main results

  lemma {:induction false} FitAt(log: seq<Event>, p0: map<nat, Rec>, i: nat)
    requires AllFit(log, p0) && i < |log|
    ensures Fits(Summary(log[..i]), p0, log[i]) && AllFit(log[..i], p0)
    decreases log
  {
    var init := log[..|log| - 1];
    if i < |log| - 1 {
      FitAt(init, p0, i);
      assert init[..i] == log[..i];
    }
  }

  function CountCompleted(log: seq<Event>, id: nat): nat {
    if log == [] then 0
    else CountCompleted(log[..|log| - 1], id) + if log[|log| - 1].Completed? && log[|log| - 1].id == id then 1 else 0
  }

  lemma {:induction false} DoneCounts(log: seq<Event>, id: nat)
    ensures Done(Summary(log), id) == CountCompleted(log, id)
  {
    if log != [] { DoneCounts(log[..|log| - 1], id); }
  }

  lemma {:induction false} DoneWithinLimit(log: seq<Event>, p0: map<nat, Rec>, id: nat)
    requires AllFit(log, p0) && id in p0 && Limit(p0, id) > 0
    ensures Done(Summary(log), id) > 0 ==> Done(Summary(log), id) + p0[id].counter <= Limit(p0, id)
    decreases log
  {
    if log != [] { DoneWithinLimit(log[..|log| - 1], p0, id); }
  }

  /** A task with a non-zero repeat completes at most `repeat` less its first counter times over any
      run, re-admission after it left `exists_tasks` included. */
  lemma CompletionsBounded(p0: map<nat, Rec>, clock: int, steps: seq<Step>, id: nat)
    requires AllowedRun(Initial(p0, clock), steps) && id in p0 && Limit(p0, id) > 0
    ensures CountCompleted(Run(Initial(p0, clock), steps).log, id)
         <= if Limit(p0, id) > p0[id].counter then Limit(p0, id) - p0[id].counter else 0
  {
    var s := Run(Initial(p0, clock), steps);
    RunKeepsHInv(p0, clock, steps);
    DoneCounts(s.log, id);
    DoneWithinLimit(s.log, p0, id);
  }

  predicate TimedOf(e: Event, id: nat) {
    (e.Started? || e.Completed?) && e.id == id
  }

  /** `recent` bounds the time of every earlier start and completion. */
  lemma {:induction false} RecentIsLatest(log: seq<Event>, p0: map<nat, Rec>, i: nat, id: nat)
    requires AllFit(log, p0) && i < |log| && TimedOf(log[i], id)
    ensures id in Summary(log).recent && log[i].at <= Summary(log).recent[id] && id in p0
    decreases log
  {
    var init := log[..|log| - 1];
    if i < |log| - 1 { RecentIsLatest(init, p0, i, id); }
  }

  /** Every start is strictly later than every earlier start or completion of the task plus its
      period. */
  lemma StartsAreSpaced(p0: map<nat, Rec>, clock: int, steps: seq<Step>, i: nat, j: nat, id: nat)
    requires AllowedRun(Initial(p0, clock), steps)
    requires var log := Run(Initial(p0, clock), steps).log;
             i < j < |log| && TimedOf(log[i], id) && log[j].Started? && log[j].id == id
    ensures id in p0
    ensures var log := Run(Initial(p0, clock), steps).log; log[j].at > log[i].at + p0[id].repeatPeriod
  {
    var log := Run(Initial(p0, clock), steps).log;
    RunKeepsHInv(p0, clock, steps);
    FitAt(log, p0, j);
    RecentIsLatest(log[..j], p0, i, id);
  }

  lemma {:induction false} RunningSince(log: seq<Event>, i: nat, id: nat)
    requires i < |log| && log[i].Started? && log[i].id == id
    requires forall k :: i < k < |log| ==> !(log[k].Completed? && log[k].id == id)
    ensures id in Summary(log).running
    decreases log
  {
    if i < |log| - 1 { RunningSince(log[..|log| - 1], i, id); }
  }

  /** A task is not started again before its last run was completed. */
  lemma OneRunAtATime(p0: map<nat, Rec>, clock: int, steps: seq<Step>, i: nat, j: nat, id: nat)
    requires AllowedRun(Initial(p0, clock), steps)
    requires var log := Run(Initial(p0, clock), steps).log;
             i < j < |log| && log[i].Started? && log[i].id == id && log[j].Started? && log[j].id == id
    ensures var log := Run(Initial(p0, clock), steps).log;
            exists k :: i < k < j && log[k].Completed? && log[k].id == id
  {
    var log := Run(Initial(p0, clock), steps).log;
    RunKeepsHInv(p0, clock, steps);
    FitAt(log, p0, j);
    if !exists k :: i < k < j && log[k].Completed? && log[k].id == id {
      RunningSince(log[..j], i, id);
    }
  }

  /** No start at or before the date the panel holds at that moment. */
  lemma StartsOnlyWhenDue(p0: map<nat, Rec>, clock: int, steps: seq<Step>, j: nat)
    requires AllowedRun(Initial(p0, clock), steps)
    requires var log := Run(Initial(p0, clock), steps).log; j < |log| && log[j].Started?
    ensures var log := Run(Initial(p0, clock), steps).log;
            log[j].id in p0 && log[j].at > PanelDate(Summary(log[..j]), p0, log[j].id)
  {
    RunKeepsHInv(p0, clock, steps);
    FitAt(Run(Initial(p0, clock), steps).log, p0, j);
  }

  /** Positions of starts of one task, in order. */
  predicate StartsOf(log: seq<Event>, at: seq<nat>, id: nat) {
    && (forall k :: 0 <= k < |at| ==> at[k] < |log| && log[at[k]].Started? && log[at[k]].id == id)
    && forall k :: 0 < k < |at| ==> at[k - 1] < at[k]
  }

  predicate Spaced(log: seq<Event>, id: nat, p: nat) {
    forall i, j :: 0 <= i < j < |log| && TimedOf(log[i], id) && log[j].Started? && log[j].id == id ==>
      log[j].at > log[i].at + p
  }

  lemma OneMore(n: nat, p: nat, span: int, gap: int)
    requires n > 0 && span >= (n - 1) * (p + 1) && gap > p
    ensures span + gap >= n * (p + 1)
  {
    assert n * (p + 1) == (n - 1) * (p + 1) + (p + 1);
  }

  /** The starts at the given positions take at least (n - 1) * (p + 1) seconds. */
  predicate SpanAtLeast(log: seq<Event>, at: seq<nat>, p: nat)
    requires at != [] && at[0] < |log| && at[|at| - 1] < |log|
    requires log[at[0]].Started? && log[at[|at| - 1]].Started?
  {
    log[at[|at| - 1]].at - log[at[0]].at >= (|at| - 1) * (p + 1)
  }

  lemma {:induction false} SpacedSpan(log: seq<Event>, at: seq<nat>, id: nat, p: nat)
    requires at != [] && StartsOf(log, at, id)
    requires Spaced(log, id, p)
    ensures SpanAtLeast(log, at, p)
    decreases at
  {
    if |at| > 1 {
      var init := at[..|at| - 1];
      SpacedSpan(log, init, id, p);
      var i, j := at[|at| - 2], at[|at| - 1];
      assert TimedOf(log[i], id) && log[j].at > log[i].at + p;
      OneMore(|at| - 1, p, log[i].at - log[at[0]].at, log[j].at - log[i].at);
    }
  }

  lemma RunIsSpaced(p0: map<nat, Rec>, clock: int, steps: seq<Step>, id: nat)
    requires AllowedRun(Initial(p0, clock), steps) && id in p0
    ensures Spaced(Run(Initial(p0, clock), steps).log, id, p0[id].repeatPeriod)
  {
    var log := Run(Initial(p0, clock), steps).log;
    forall i, j | 0 <= i < j < |log| && TimedOf(log[i], id) && log[j].Started? && log[j].id == id
      ensures log[j].at > log[i].at + p0[id].repeatPeriod
    {
      StartsAreSpaced(p0, clock, steps, i, j, id);
    }
  }

  /** n starts span at least (n - 1) * (period + 1) seconds, which bounds the starts in a window. */
  lemma StartsInWindow(p0: map<nat, Rec>, clock: int, steps: seq<Step>, at: seq<nat>, id: nat)
    requires AllowedRun(Initial(p0, clock), steps) && at != [] && id in p0
    requires StartsOf(Run(Initial(p0, clock), steps).log, at, id)
    ensures var log := Run(Initial(p0, clock), steps).log;
            SpanAtLeast(log, at, p0[id].repeatPeriod)
  {
    RunIsSpaced(p0, clock, steps, id);
    SpacedSpan(Run(Initial(p0, clock), steps).log, at, id, p0[id].repeatPeriod);
  }

  function CountMapped(log: seq<Event>): nat {
    if log == [] then 0 else CountMapped(log[..|log| - 1]) + if log[|log| - 1].Mapped? then 1 else 0
  }

  function CountUnmapped(log: seq<Event>): nat {
    if log == [] then 0 else CountUnmapped(log[..|log| - 1]) + if log[|log| - 1].Unmapped? then 1 else 0
  }

  lemma {:induction false} MappedCounts(log: seq<Event>)
    ensures Summary(log).mapped == CountMapped(log) && Summary(log).unmapped == CountUnmapped(log)
  {
    if log != [] { MappedCounts(log[..|log| - 1]); }
  }

  /** Command blocks mapped, less those unmapped, are the entries of `active_cmds`. */
  lemma BlocksConserved(p0: map<nat, Rec>, clock: int, steps: seq<Step>)
    requires AllowedRun(Initial(p0, clock), steps)
    ensures var s := Run(Initial(p0, clock), steps); CountMapped(s.log) == CountUnmapped(s.log) + |s.cmds|
  {
    RunKeepsHInv(p0, clock, steps);
    MappedCounts(Run(Initial(p0, clock), steps).log);
  }

  lemma {:induction false} Remembered(log: seq<Event>, i: nat)
    requires i < |log|
    ensures log[i].Unmapped? ==> log[i].block in Summary(log).freed
    ensures log[i].Polled? && Ends(log[i].poll) ==> log[i].pid in Summary(log).retired
    decreases log
  {
    if i < |log| - 1 { Remembered(log[..|log| - 1], i); }
  }

  /** No block is unmapped twice, no process is polled again after a poll that ended its task, and
      the lookup of the command on completion never creates a null entry. */
  lemma CommandsUsedOnce(p0: map<nat, Rec>, clock: int, steps: seq<Step>, i: nat, j: nat)
    requires AllowedRun(Initial(p0, clock), steps) && i < j < |Run(Initial(p0, clock), steps).log|
    ensures var log := Run(Initial(p0, clock), steps).log;
            && (log[i].Unmapped? && log[j].Unmapped? ==> log[i].block != log[j].block)
            && (log[i].Polled? && Ends(log[i].poll) && log[j].Polled? ==> log[i].pid != log[j].pid)
            && !log[i].NullCommand? && !log[j].NullCommand?
  {
    var log := Run(Initial(p0, clock), steps).log;
    RunKeepsHInv(p0, clock, steps);
    FitAt(log, p0, i);
    FitAt(log, p0, j);
    Remembered(log[..j], i);
  }
}
