/** What every step of `ServersTasks` keeps against a read-back panel: the queue stays ordered
    under in-place edits, and the queue, the two resource maps and the panel stay in step. */
module ServersInvariant {
  import opened Commands
  import opened ServersHeap
  import opened ServersModel

  predicate Uniq(m: multiset<Task>) {
    forall t, u :: t in m && u in m && t.id == u.id ==> t == u && m[t] == 1
  }

  function Workers(m: multiset<Task>): set<nat> {
    set t | t in m && t.status == WORKING :: t.id
  }

  /** The fields `sync_from_api` reads, except the date. */
  predicate Matches(t: Task, rec: Rec) {
    && t.command == rec.command && t.serverId == rec.serverId
    && t.repeat == rec.repeat % USHORT && t.repeatPeriod == rec.repeatPeriod && t.counter == rec.counter
  }

  /** A waiting task carries the panel's date; a working one was due before now and has a later
      date of its own. */
  predicate InPlace(s: State, t: Task) {
    && t.id in s.exist && t.id in s.panel && Matches(t, s.panel[t.id])
    && (t.status == WAITING || t.status == WORKING)
    && (t.status == WAITING ==> t.executeDate == s.panel[t.id].date)
    && (t.status == WORKING ==> s.panel[t.id].date < t.executeDate && s.panel[t.id].date < s.clock && !Exhausted(t))
  }

  predicate Settled(s: State, m: multiset<Task>) {
    && Uniq(m)
    && (forall t :: t in m ==> InPlace(s, t))
    && s.cmds.Keys == Workers(m)
    && s.pids.Keys == Workers(m)
  }

  predicate SInv(s: State) {
    HeapOrdered(s.heap) && Settled(s, multiset(s.heap))
  }

  // ---------------------------------------------------------------- the edit of the head

  /** The edit moves at most the date, and only back into the past. */
  lemma SyncedHead(s: State, now: int, reachable: bool)
    requires SInv(s) && s.heap != [] && s.clock <= now
    ensures var synced, t := Synced(s, now, reachable), s.heap[0];
            && synced.heap == s.heap[0 := synced.heap[0]] && synced.heap != []
            && synced.heap[0] == t.(executeDate := synced.heap[0].executeDate)
            && (synced.heap[0] == t || (t.status == WORKING && synced.heap[0].executeDate == s.panel[t.id].date < now))
            && HeapOrdered(synced.heap)
  {
    var t := s.heap[0];
    assert t in multiset(s.heap);
    var synced := Synced(s, now, reachable);
    if synced.heap[0].executeDate != t.executeDate {
      EarlierHeadKeepsOrder(s.heap, synced.heap[0]);
    } else {
      assert s.heap[0 := t] == s.heap;
    }
  }

  // ---------------------------------------------------------------- one task out, one task in

  lemma TakeOut(m: multiset<Task>, t: Task)
    requires Uniq(m) && t in m
    ensures var rest := m - multiset{t};
            && Uniq(rest) && (forall u :: u in rest ==> u in m && u.id != t.id)
            && t.id !in Workers(rest)
            && Workers(m) == Workers(rest) + if t.status == WORKING then {t.id} else {}
  {
    var rest := m - multiset{t};
    assert rest[t] == 0;
    forall u | u in m ensures u == t || u in rest { if u != t { assert rest[u] == m[u]; } }
  }

  lemma PutIn(rest: multiset<Task>, t: Task)
    requires Uniq(rest) && forall u :: u in rest ==> u.id != t.id
    ensures var m := rest + multiset{t};
            && Uniq(m) && (forall u :: u in m ==> u in rest || u == t)
            && Workers(m) == Workers(rest) + if t.status == WORKING then {t.id} else {}
  {
    var m := rest + multiset{t};
    assert rest[t] == 0;
    assert t in m && forall u :: u in rest ==> u in m;
  }

  /** Nothing but the entries of `id` differs, and the clock does not go back. */
  predicate OthersSame(s: State, s': State, id: nat) {
    && s.clock <= s'.clock
    && s'.panel.Keys == s.panel.Keys
    && (forall i :: i in s.panel && i != id ==> s'.panel[i] == s.panel[i])
    && (forall i :: i in s.exist && i != id ==> i in s'.exist)
  }

  lemma SettledWithout(s: State, s': State, m: multiset<Task>, t: Task)
    requires Settled(s, m) && t in m && OthersSame(s, s', t.id)
    requires s'.cmds.Keys == s.cmds.Keys - {t.id} && s'.pids.Keys == s.pids.Keys - {t.id}
    ensures Settled(s', m - multiset{t})
  {
    TakeOut(m, t);
    forall u | u in m - multiset{t} ensures InPlace(s', u) { assert InPlace(s, u); }
  }

  /** `t'` joins; `s'` has its entries besides those of `s`. */
  lemma SettledPlus(s: State, s': State, rest: multiset<Task>, t': Task)
    requires Settled(s, rest) && s' == s.(cmds := s'.cmds, pids := s'.pids) && InPlace(s', t')
    requires forall u :: u in rest ==> u.id != t'.id
    requires s'.cmds.Keys == s.cmds.Keys + if t'.status == WORKING then {t'.id} else {}
    requires s'.pids.Keys == s.pids.Keys + if t'.status == WORKING then {t'.id} else {}
    ensures Settled(s', rest + multiset{t'})
  {
    PutIn(rest, t');
  }

  lemma SettledWith(s: State, s': State, m: multiset<Task>, t: Task, t': Task)
    requires Settled(s, m) && t in m && OthersSame(s, s', t.id) && t'.id == t.id && InPlace(s', t')
    requires s'.cmds.Keys == s.cmds.Keys - {t.id} + if t'.status == WORKING then {t.id} else {}
    requires s'.pids.Keys == s.pids.Keys - {t.id} + if t'.status == WORKING then {t.id} else {}
    ensures Settled(s', m - multiset{t} + multiset{t'})
  {
    var without := s'.(cmds := s'.cmds - {t.id}, pids := s'.pids - {t.id});
    SettledWithout(s, without, m, t);
    TakeOut(m, t);
    SettledPlus(without, s', m - multiset{t}, t');
  }

  // ---------------------------------------------------------------- the popped task

  /** What is known of the popped task `t`, the head `t0` after the edit. */
  predicate Popping(s: State, t: Task, t0: Task, now: int) {
    && InPlace(s, t0) && t == t0.(executeDate := t.executeDate)
    && (t0.status == WAITING ==> t == t0 && now > s.panel[t.id].date)
    && (t.status == WORKING <==> t.id in s.cmds) && (t.status == WORKING <==> t.id in s.pids)
  }

  lemma RunEffect(s: State, t: Task, t0: Task, shown: Poll, now: int, later: int)
    requires Popping(s, t, t0, now) && !Exhausted(t) && s.clock <= now <= later
    ensures var (s', t') := RunTask(s.(clock := later), t, shown, now, later);
            && OthersSame(s, s', t.id) && t'.id == t.id && s'.exist == s.exist
            && s'.cmds.Keys == s.cmds.Keys + {t.id} && s'.pids.Keys == s.pids.Keys + {t.id}
            && t.id in s'.panel && t.id in s.exist && s'.heap == s.heap
            && (if Finished(t') then
                  Matches(t', s'.panel[t.id]) && s'.panel[t.id].date == t'.executeDate
                else
                  t'.status == WORKING && InPlace(s', Again(t', later)))
  {
    var r := RunTask(s.(clock := later), t, shown, now, later);
    assert t.repeat < USHORT;
  }

  lemma MultisetHead(q: seq<Task>)
    requires q != []
    ensures multiset(q[1..]) == multiset(q) - multiset{q[0]} && q[0] in multiset(q)
  {
    assert q == [q[0]] + q[1..];
  }

  /** What is left after `t` ran: `s'` and `t'` are the outcome. */
  predicate Ran(s: State, s': State, t: Task, t': Task, later: int) {
    && OthersSame(s, s', t.id) && t'.id == t.id && s'.exist == s.exist
    && s'.cmds.Keys == s.cmds.Keys + {t.id} && s'.pids.Keys == s.pids.Keys + {t.id}
    && t.id in s.exist && t.id in s'.panel
    && (if Finished(t') then
          Matches(t', s'.panel[t.id]) && s'.panel[t.id].date == t'.executeDate
        else
          t'.status == WORKING && InPlace(s', Again(t', later)))
  }

  lemma GoneKeepsSInv(s: State, m: multiset<Task>, t: Task, s': State, t': Task, later: int, pushed: seq<Task>)
    requires Settled(s, m) && t in m && Ran(s, s', t, t', later) && !GoesBack(t')
    requires multiset(s'.heap) == m - multiset{t} && HeapOrdered(s'.heap)
    ensures SInv(Ending(s', t', pushed))
  {
    SettledWithout(s, Ending(s', t', pushed), m, t);
  }

  lemma BackKeepsSInv(s: State, m: multiset<Task>, t: Task, s': State, t': Task, later: int, pushed: seq<Task>)
    requires Settled(s, m) && t in m && Ran(s, s', t, t', later) && GoesBack(t')
    requires multiset(pushed) == m - multiset{t} + multiset{Again(t', later)} && HeapOrdered(pushed)
    ensures SInv(Ending(s', t', pushed))
  {
    SettledWith(s, Ending(s', t', pushed), m, t, Again(t', later));
  }

  lemma DroppedKeepsSInv(s: State, m: multiset<Task>, t: Task, s': State)
    requires Settled(s, m) && t in m && t.status == WAITING
    requires s' == s.(heap := s'.heap, clock := s'.clock) && s.clock <= s'.clock
    requires multiset(s'.heap) == m - multiset{t} && HeapOrdered(s'.heap)
    ensures SInv(s')
  {
    TakeOut(m, t);
    SettledWithout(s, s', m, t);
  }

  lemma HandleKeepsSInv(s: State, m: multiset<Task>, t: Task, t0: Task, shown: Poll, now: int, later: int,
                        popped: seq<Task>, pushed: seq<Task>)
    requires Settled(s, m) && t0 in m && Popping(s, t, t0, now) && s.clock <= now <= later
    requires multiset(popped) == m - multiset{t0} && HeapOrdered(popped)
    requires !Exhausted(t) ==>
               var t' := RunTask(s.(heap := popped, clock := later), t, shown, now, later).1;
               GoesBack(t') ==> Pushed(popped, Again(t', later), pushed)
    ensures SInv(Handle(s.(heap := popped, clock := later), t, shown, now, later, pushed))
  {
    var s1 := s.(heap := popped, clock := later);
    if Exhausted(t) {
      DroppedKeepsSInv(s, m, t0, s1);
    } else {
      RunEffect(s.(heap := popped), t, t0, shown, now, later);
      var r := RunTask(s1, t, shown, now, later);
      assert r.0.heap == popped;
      assert Ran(s, r.0, t0, r.1, later);
      if GoesBack(r.1) {
        BackKeepsSInv(s, m, t0, r.0, r.1, later, pushed);
      } else {
        GoneKeepsSInv(s, m, t0, r.0, r.1, later, pushed);
      }
    }
  }

  // ---------------------------------------------------------------- every step keeps SInv

  lemma SettledElsewhere(s: State, s': State, m: multiset<Task>)
    requires Settled(s, m) && s' == s.(heap := s'.heap, lastSync := s'.lastSync, clock := s'.clock)
    requires s.clock <= s'.clock
    ensures Settled(s', m)
  {
  }

  lemma WorkerIffMapped(s: State, m: multiset<Task>, t: Task)
    requires Settled(s, m) && t in m
    ensures (t.status == WORKING <==> t.id in s.cmds) && (t.status == WORKING <==> t.id in s.pids)
  {
    TakeOut(m, t);
  }

  lemma HeadPopping(s: State, step: Step)
    requires SInv(s) && s.heap != [] && step.RunStep? && s.clock <= step.now && Due(s, step)
    ensures var synced := Synced(s, step.now, step.reachable);
            synced.heap != [] && Popping(synced, synced.heap[0], s.heap[0], step.now)
  {
    SyncedHead(s, step.now, step.reachable);
    MultisetHead(s.heap);
    WorkerIffMapped(s, multiset(s.heap), s.heap[0]);
  }

  lemma HeadRemoved(s: State, now: int, reachable: bool)
    requires SInv(s) && s.heap != [] && s.clock <= now
    ensures var synced := Synced(s, now, reachable);
            && Settled(synced, multiset(s.heap)) && s.heap[0] in multiset(s.heap)
            && synced.heap != [] && multiset(synced.heap[1..]) == multiset(s.heap) - multiset{s.heap[0]}
  {
    var synced := Synced(s, now, reachable);
    SyncedHead(s, now, reachable);
    MultisetHead(s.heap);
    assert synced.heap[1..] == s.heap[1..];
    SettledElsewhere(s, synced, multiset(s.heap));
  }

  lemma DueStepKeepsSInv(s: State, step: Step)
    requires SInv(s) && s.heap != [] && step.RunStep? && Allowed(s, step) && Due(s, step)
    ensures SInv(RunNext(s, step))
  {
    var synced := Synced(s, step.now, step.reachable);
    SyncedHead(s, step.now, step.reachable);
    HeadPopping(s, step);
    HeadRemoved(s, step.now, step.reachable);
    HandleKeepsSInv(synced, multiset(s.heap), synced.heap[0], s.heap[0],
                    step.shown, step.now, step.later, step.popped, step.pushed);
  }

  lemma EarlyReturnKeepsSInv(s: State, step: Step)
    requires SInv(s) && s.heap != [] && step.RunStep? && s.clock <= step.now && !Due(s, step)
    ensures SInv(RunNext(s, step))
  {
    SyncedHead(s, step.now, step.reachable);
    var s' := RunNext(s, step);
    assert s'.heap == s.heap;
    SettledElsewhere(s, s', multiset(s.heap));
  }

  lemma RunStepKeepsSInv(s: State, step: Step)
    requires SInv(s) && s.heap != [] && step.RunStep? && Allowed(s, step)
    ensures SInv(RunNext(s, step))
  {
    if Due(s, step) { DueStepKeepsSInv(s, step); } else { EarlyReturnKeepsSInv(s, step); }
  }

  lemma SettledJoin(s: State, s': State, m: multiset<Task>, t: Task)
    requires Settled(s, m) && s' == s.(exist := s.exist + {t.id}, heap := s'.heap)
    requires t.id !in s.exist && t.status == WAITING && InPlace(s', t)
    ensures Settled(s', m + multiset{t})
  {
    forall u | u in m ensures u.id != t.id && InPlace(s', u) { assert InPlace(s, u); }
    PutIn(m, t);
  }

  lemma AdmitKeepsSInv(s: State, id: nat, pushed: seq<Task>)
    requires SInv(s) && Allowed(s, AdmitStep(id, pushed))
    ensures SInv(Admit(s, id, pushed))
  {
    if id !in s.exist && id in s.panel {
      SettledJoin(s, Admit(s, id, pushed), multiset(s.heap), TaskOf(id, s.panel[id]));
    }
  }

  lemma {:induction false} RunKeepsSInv(s: State, steps: seq<Step>)
    requires SInv(s) && AllowedRun(s, steps)
    ensures SInv(Run(s, steps))
    decreases steps
  {
    if steps != [] {
      var before, last := Run(s, steps[..|steps| - 1]), steps[|steps| - 1];
      RunKeepsSInv(s, steps[..|steps| - 1]);
      if last.AdmitStep? {
        AdmitKeepsSInv(before, last.id, last.pushed);
      } else if before.heap != [] {
        RunStepKeepsSInv(before, last);
      }
    }
  }

  lemma InitialSInv(panel: map<nat, Rec>, clock: int)
    ensures SInv(Initial(panel, clock))
  {
  }

  // ---------------------------------------------------------------- main results on the queue

  /** In every run the head of the queue is first under `CompareTask`. */
  lemma HeadAlwaysFirst(panel: map<nat, Rec>, clock: int, steps: seq<Step>, i: nat)
    requires AllowedRun(Initial(panel, clock), steps) && i < |Run(Initial(panel, clock), steps).heap|
    ensures !After(Run(Initial(panel, clock), steps).heap[0], Run(Initial(panel, clock), steps).heap[i])
    ensures var q := Run(Initial(panel, clock), steps).heap;
            && (q[0].status == q[i].status ==> q[0].executeDate <= q[i].executeDate)
            && (q[i].status == WAITING ==> q[0].status == WAITING)
  {
    InitialSInv(panel, clock);
    RunKeepsSInv(Initial(panel, clock), steps);
    HeadIsFirst(Run(Initial(panel, clock), steps).heap, i);
  }

  /** An edit of the element still in the queue keeps the order; it leaves the date or moves it
      before the current time, and then the same call pops the element. */
  lemma EditsKeepOrder(panel: map<nat, Rec>, clock: int, steps: seq<Step>, step: Step)
    requires AllowedRun(Initial(panel, clock), steps) && step.RunStep?
    requires var s := Run(Initial(panel, clock), steps); s.heap != [] && s.clock <= step.now
    ensures var s := Run(Initial(panel, clock), steps);
            var synced := Synced(s, step.now, step.reachable);
            && HeapOrdered(synced.heap)
            && (synced.heap == s.heap || (synced.heap[0].executeDate < step.now && Due(s, step)))
  {
    var s := Run(Initial(panel, clock), steps);
    InitialSInv(panel, clock);
    RunKeepsSInv(Initial(panel, clock), steps);
    SyncedHead(s, step.now, step.reachable);
  }

  /** The exhausted-repeat return never drops a working task, so no running command is lost. */
  lemma WorkingNeverDropped(panel: map<nat, Rec>, clock: int, steps: seq<Step>, step: Step)
    requires AllowedRun(Initial(panel, clock), steps) && step.RunStep?
    requires var s := Run(Initial(panel, clock), steps); s.heap != [] && s.clock <= step.now
    ensures var t := Synced(Run(Initial(panel, clock), steps), step.now, step.reachable).heap[0];
            Exhausted(t) ==> t.status == WAITING && t.id !in Run(Initial(panel, clock), steps).cmds
  {
    var s := Run(Initial(panel, clock), steps);
    InitialSInv(panel, clock);
    RunKeepsSInv(Initial(panel, clock), steps);
    SyncedHead(s, step.now, step.reachable);
    MultisetHead(s.heap);
    TakeOut(multiset(s.heap), s.heap[0]);
    assert InPlace(s, s.heap[0]);
  }
}
