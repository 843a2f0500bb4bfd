/** Which tasks of `GdaemonTasks` end and which stay: a task whose `run_aft_id` chain never leaves
    the admission set is never touched again, and all the others end within a bounded number of
    `run_next` calls. */
module GdaemonLiveness {
  import opened Commands
  import opened GdaemonModel
  import opened GdaemonInvariant

  // ---------------------------------------------------------------- chains of run_aft_id

  function RunAft(q: seq<Task>, id: nat): nat {
    if q == [] then 0 else if q[0].id == id then q[0].runAftId else RunAft(q[1..], id)
  }

  /** Every queued task and the task it is to follow; 0 is none. */
  function Waits(q: seq<Task>): map<nat, nat> {
    map id | id in Ids(q) :: RunAft(q, id)
  }

  /** The chain from `id` leaves the map after at most `k` more tasks. */
  predicate Escapes(w: map<nat, nat>, id: nat, k: nat)
    requires id in w
    decreases k
  {
    w[id] == 0 || w[id] !in w || (k > 0 && Escapes(w, w[id], k - 1))
  }

  /** The tasks whose chain never leaves: it runs into a cycle. */
  ghost function Doomed(w: map<nat, nat>): set<nat> {
    set id | id in w && forall k: nat :: !Escapes(w, id, k)
  }

  /** A set of tasks each of which waits for another of the set. */
  predicate Trapped(w: map<nat, nat>, d: set<nat>) {
    forall id :: id in d ==> id in w && w[id] > 0 && w[id] in d
  }

  lemma {:induction false} TrappedNeverEscapes(w: map<nat, nat>, d: set<nat>, id: nat, k: nat)
    requires Trapped(w, d) && id in d
    ensures !Escapes(w, id, k)
    decreases k
  {
    if k > 0 { TrappedNeverEscapes(w, d, w[id], k - 1); }
  }

  /** The doomed tasks are the largest trapped set. */
  lemma DoomedIsLargestTrapped(w: map<nat, nat>, d: set<nat>)
    ensures Trapped(w, Doomed(w))
    ensures Trapped(w, d) ==> d <= Doomed(w)
  {
    forall id | id in Doomed(w) ensures w[id] > 0 && w[id] in Doomed(w) {
      assert !Escapes(w, id, 0);
      forall k: nat ensures !Escapes(w, w[id], k) { assert !Escapes(w, id, k + 1); }
    }
    if Trapped(w, d) {
      forall id, k: nat | id in d ensures !Escapes(w, id, k) { TrappedNeverEscapes(w, d, id, k); }
    }
  }

  /** The ids whose chain has not left after `k` more tasks. */
  function StillIn(w: map<nat, nat>, k: nat): set<nat> {
    set id | id in w && !Escapes(w, id, k)
  }

  lemma {:induction false} EscapesLater(w: map<nat, nat>, id: nat, k: nat)
    requires id in w && Escapes(w, id, k)
    ensures Escapes(w, id, k + 1)
    decreases k
  {
    if w[id] != 0 && w[id] in w { EscapesLater(w, w[id], k - 1); }
  }

  lemma StillInShrinks(w: map<nat, nat>, k: nat)
    ensures Doomed(w) <= StillIn(w, k + 1) <= StillIn(w, k)
    ensures StillIn(w, k + 1) == StillIn(w, k) ==> StillIn(w, k) == Doomed(w)
  {
    forall id | id in w && Escapes(w, id, k) ensures Escapes(w, id, k + 1) { EscapesLater(w, id, k); }
    if StillIn(w, k + 1) == StillIn(w, k) {
      forall id | id in StillIn(w, k) ensures w[id] > 0 && w[id] in StillIn(w, k) {
        assert id in StillIn(w, k + 1);
      }
      DoomedIsLargestTrapped(w, StillIn(w, k));
    }
  }

  lemma {:induction false} StillInBound(w: map<nat, nat>, k: nat)
    ensures Doomed(w) <= StillIn(w, k)
    ensures StillIn(w, k) == Doomed(w) || |StillIn(w, k)| + k <= |w|
    decreases k
  {
    if k == 0 {
      Subset(StillIn(w, 0), w.Keys);
      assert |w.Keys| == |w|;
    } else {
      StillInBound(w, k - 1);
      StillInShrinks(w, k - 1);
      if StillIn(w, k) != StillIn(w, k - 1) { Subset(StillIn(w, k), StillIn(w, k - 1)); }
    }
  }

  lemma {:induction false} Subset(a: set<nat>, b: set<nat>)
    requires a <= b
    ensures |a| <= |b| && (a != b ==> |a| < |b|)
    decreases a
  {
    if a != {} {
      var x :| x in a;
      Subset(a - {x}, b - {x});
    }
  }

  /** Following the chain once per queued task decides whether a task is doomed. */
  lemma DoomedIsDecidable(w: map<nat, nat>, id: nat)
    ensures id in Doomed(w) <==> id in w && !Escapes(w, id, |w|)
  {
    StillInBound(w, |w|);
    assert id in StillIn(w, |w|) <==> id in w && !Escapes(w, id, |w|);
    assert |StillIn(w, |w|)| == 0 ==> StillIn(w, |w|) == {};
  }

  lemma {:induction false} RunAftOf(q: seq<Task>, t: Task)
    requires DistinctIds(q) && t in q
    ensures RunAft(q, t.id) == t.runAftId
    decreases q
  {
    if q[0].id == t.id {
      SameId(q, q[0], t);
    } else {
      PopFront(q);
      RunAftOf(q[1..], t);
    }
  }

  lemma WaitsOf(s: State, t: Task)
    requires Inv(s) && t in s.queue
    ensures t.id in Waits(s.queue) && Waits(s.queue)[t.id] == t.runAftId
    ensures Waits(s.queue).Keys == s.admitted
  {
    RunAftOf(s.queue, t);
  }

  // ---------------------------------------------------------------- one call of run_next

  lemma RunNextShape(s: State, shown: Poll)
    requires Inv(s) && s.queue != []
    ensures var t, rest, s' := s.queue[0], s.queue[1..], RunNext(s, shown);
            if Blocked(t, s.admitted) then s' == s.(queue := rest + [t])
            else if t.status == WAITING && HasCommand(t.kind) then
              s'.queue == rest + [t.(status := WORKING)] && s'.admitted == s.admitted
            else if t.status == WORKING && !Ends(shown) then
              s'.queue == rest + [t] && s'.admitted == s.admitted
            else s'.queue == rest && s'.admitted == s.admitted - {t.id}
  {
    FrontRuns(s);
  }

  // ---------------------------------------------------------------- trapped tasks stay for ever

  /** Nothing about the tasks of `d` changes from `s` to `s'`. */
  ghost predicate Untouched(s: State, s': State, d: set<nat>) {
    && s.log <= s'.log
    && (forall i :: |s.log| <= i < |s'.log| ==> s'.log[i].Of() !in d)
    && (forall t :: t in s.queue && t.id in d ==> t in s'.queue)
  }

  lemma UntouchedTransitive(a: State, b: State, c: State, d: set<nat>)
    requires Untouched(a, b, d) && Untouched(b, c, d)
    ensures Untouched(a, c, d)
  {
    forall i | |a.log| <= i < |c.log| ensures c.log[i].Of() !in d {
      if i < |b.log| { assert c.log[i] == b.log[i]; }
    }
  }

  lemma TrappedStays(s: State, s': State, d: set<nat>)
    requires Inv(s) && Inv(s') && Trapped(Waits(s.queue), d) && Untouched(s, s', d)
    ensures Trapped(Waits(s'.queue), d)
  {
    forall id | id in d
      ensures id in Waits(s'.queue) && Waits(s'.queue)[id] > 0 && Waits(s'.queue)[id] in d
    {
      var t :| t in s.queue && t.id == id;
      WaitsOf(s, t);
      WaitsOf(s', t);
    }
  }

  lemma AdmitUntouched(s: State, j: PanelTask, wanted: nat, d: set<nat>)
    requires Inv(s) && d <= s.admitted
    ensures Untouched(s, Admit(s, j, wanted), d)
  {
  }

  lemma {:induction false} AdmitAllUntouched(s: State, js: seq<PanelTask>, wanted: nat, d: set<nat>)
    requires Inv(s) && d <= s.admitted
    ensures Untouched(s, AdmitAll(s, js, wanted), d) && d <= AdmitAll(s, js, wanted).admitted
    decreases js
  {
    if js != [] {
      var before := AdmitAll(s, js[..|js| - 1], wanted);
      AdmitAllUntouched(s, js[..|js| - 1], wanted, d);
      AdmitAllKeepsInv(s, js[..|js| - 1], wanted);
      AdmitUntouched(before, js[|js| - 1], wanted, d);
      UntouchedTransitive(s, before, AdmitAll(s, js, wanted), d);
    }
  }

  lemma StartLogGrows(s: State, t: Task)
    ensures s.log <= Start(s, t).0.log
    ensures forall i :: |s.log| <= i < |Start(s, t).0.log| ==> Start(s, t).0.log[i].Of() == t.id
  {
  }

  lemma ProceedLogGrows(s: State, t: Task, shown: Poll)
    ensures s.log <= Proceed(s, t, shown).0.log
    ensures forall i :: |s.log| <= i < |Proceed(s, t, shown).0.log| ==> Proceed(s, t, shown).0.log[i].Of() == t.id
  {
  }

  lemma LogGrows(s: State, t: Task, shown: Poll)
    ensures s.log <= RunTask(s, t, shown).0.log
    ensures forall i :: |s.log| <= i < |RunTask(s, t, shown).0.log| ==> RunTask(s, t, shown).0.log[i].Of() == t.id
  {
    if t.status == WAITING {
      StartLogGrows(s, t);
    } else if t.status == WORKING {
      ProceedLogGrows(s, t, shown);
    }
  }

  lemma TrappedFrontBlocked(s: State, d: set<nat>)
    requires Inv(s) && s.queue != [] && Trapped(Waits(s.queue), d) && s.queue[0].id in d
    ensures Blocked(s.queue[0], s.admitted)
  {
    assert s.queue[0] in s.queue;
    WaitsOf(s, s.queue[0]);
  }

  lemma RunNextLog(s: State, shown: Poll)
    requires Inv(s) && s.queue != []
    ensures var log, log', t := s.log, RunNext(s, shown).log, s.queue[0];
            && log <= log'
            && (Blocked(t, s.admitted) ==> log' == log)
            && forall i :: |log| <= i < |log'| ==> log'[i].Of() == t.id
  {
    var t, popped := s.queue[0], s.(queue := s.queue[1..]);
    if !Blocked(t, s.admitted) {
      LogGrows(popped, t, shown);
      assert RunNext(s, shown).log == RunTask(popped, t, shown).0.log;
    }
  }

  lemma RunNextUntouched(s: State, shown: Poll, d: set<nat>)
    requires Inv(s) && s.queue != [] && Trapped(Waits(s.queue), d)
    ensures Untouched(s, RunNext(s, shown), d)
  {
    var t, rest := s.queue[0], s.queue[1..];
    RunNextShape(s, shown);
    RunNextLog(s, shown);
    assert forall u :: u in s.queue ==> u == t || u in rest;
    if t.id in d { TrappedFrontBlocked(s, d); }
  }

  lemma NextUntouched(s: State, step: Step, d: set<nat>)
    requires Inv(s) && Trapped(Waits(s.queue), d)
    ensures Untouched(s, Next(s, step), d)
  {
    assert d <= s.admitted;
    match step
    case Update(reply) => if reply.Some? { AdmitAllUntouched(s, reply.value, TASK_WAITING, d); }
    case CheckAfterCrash(reply) => if reply.Some? { AdmitAllUntouched(s, reply.value, TASK_WORKING, d); }
    case Tick(shown) => if s.queue != [] { RunNextUntouched(s, shown, d); }
  }

  /** Tasks caught in a waiting cycle are never started, polled or reported in any run, whatever
      `update` and `check_after_crash` admit in between, and they stay in the queue as they are. */
  lemma {:induction false} TrappedForever(s: State, steps: seq<Step>, d: set<nat>)
    requires Inv(s) && Trapped(Waits(s.queue), d)
    ensures Untouched(s, Run(s, steps), d) && Trapped(Waits(Run(s, steps).queue), d)
    decreases steps
  {
    if steps != [] {
      var before := Run(s, steps[..|steps| - 1]);
      TrappedForever(s, steps[..|steps| - 1], d);
      RunKeepsInv(s, steps[..|steps| - 1]);
      NextKeepsInv(before, steps[|steps| - 1]);
      NextUntouched(before, steps[|steps| - 1], d);
      UntouchedTransitive(s, before, Run(s, steps), d);
      TrappedStays(s, Run(s, steps), d);
    }
  }

  // ---------------------------------------------------------------- repeated calls of run_next

  /** How children behave: `shows(id, k)` is what a poll of task `id` shows when k more polls will
      not end it. */
  type Children = (nat, nat) -> Poll

  ghost predicate Finishing(shows: Children) {
    forall id: nat, k: nat :: Ends(shows(id, k)) <==> k == 0
  }

  /** The polls still needed after that call. */
  function LeftAfter(q: seq<Task>, admitted: set<nat>, left: map<nat, nat>): map<nat, nat>
    requires q != [] && Ids(q) <= left.Keys
  {
    var t := q[0];
    assert t in q;
    if !Blocked(t, admitted) && t.status == WORKING && left[t.id] > 0 then left[t.id := left[t.id] - 1] else left
  }

  /** One call, with the poll that the front task's child shows. */
  function Call(s: State, left: map<nat, nat>, shows: Children): State
    requires s.queue != [] && Ids(s.queue) <= left.Keys
  {
    assert s.queue[0] in s.queue && s.queue[0].id in Ids(s.queue);
    RunNext(s, shows(s.queue[0].id, left[s.queue[0].id]))
  }

  lemma CallKeepsInv(s: State, left: map<nat, nat>, shows: Children)
    requires Inv(s) && s.queue != [] && s.admitted <= left.Keys
    ensures var s' := Call(s, left, shows);
            Inv(s') && s'.admitted <= s.admitted && |s'.queue| <= |s.queue|
    ensures LeftAfter(s.queue, s.admitted, left).Keys == left.Keys
  {
    assert s.queue[0] in s.queue;
    var shown := shows(s.queue[0].id, left[s.queue[0].id]);
    RunNextKeepsInv(s, shown);
    RunNextShape(s, shown);
  }

  /** The scheduler and the polls its tasks still need. */
  datatype Config = Config(s: State, left: map<nat, nat>)

  /** One round of the daemon's loop without an update: `run_next` unless the queue is empty. */
  function Round(c: Config, shows: Children): Config {
    if c.s.queue == [] || !(Ids(c.s.queue) <= c.left.Keys) then c
    else Config(Call(c.s, c.left, shows), LeftAfter(c.s.queue, c.s.admitted, c.left))
  }

  function Rounds(c: Config, shows: Children, m: nat): Config {
    if m == 0 then c else Round(Rounds(c, shows, m - 1), shows)
  }

  /** One start and the remaining polls; a task not in the running costs nothing. */
  function Work(t: Task, left: map<nat, nat>, d: set<nat>): nat
    requires t.id in left
  {
    if t.id in d then 0 else left[t.id] + if t.status == WAITING then 2 else 1
  }

  function TotalWork(q: seq<Task>, left: map<nat, nat>, d: set<nat>): nat
    requires Ids(q) <= left.Keys
  {
    if q == [] then 0
    else
      assert forall t :: t in q[1..] ==> t in q && t.id in Ids(q);
      assert q[0] in q;
      Work(q[0], left, d) + TotalWork(q[1..], left, d)
  }

  lemma {:induction false} WorkAppend(q: seq<Task>, t: Task, left: map<nat, nat>, d: set<nat>)
    requires Ids(q + [t]) <= left.Keys && Ids(q) <= left.Keys && t.id in left
    ensures TotalWork(q + [t], left, d) == TotalWork(q, left, d) + Work(t, left, d)
    decreases q
  {
    if q == [] {
      assert [] + [t] == [t] && [t][1..] == [];
    } else {
      assert (q + [t])[1..] == q[1..] + [t];
      assert forall u :: u in q[1..] + [t] ==> u in q + [t] && u.id in Ids(q + [t]);
      assert forall u :: u in q[1..] ==> u in q && u.id in Ids(q);
      WorkAppend(q[1..], t, left, d);
    }
  }

  lemma {:induction false} WorkFrame(q: seq<Task>, left: map<nat, nat>, left': map<nat, nat>, d: set<nat>)
    requires Ids(q) <= left.Keys && Ids(q) <= left'.Keys
    requires forall id :: id in Ids(q) ==> left'[id] == left[id]
    ensures TotalWork(q, left', d) == TotalWork(q, left, d)
    decreases q
  {
    if q != [] {
      assert q[0] in q && q[0].id in Ids(q);
      assert forall t :: t in q[1..] ==> t in q && t.id in Ids(q);
      WorkFrame(q[1..], left, left', d);
    }
  }

  lemma {:induction false} NoWorkLeft(q: seq<Task>, left: map<nat, nat>, d: set<nat>)
    requires Ids(q) <= left.Keys
    ensures TotalWork(q, left, d) == 0 <==> Ids(q) <= d
    decreases q
  {
    if q != [] {
      assert q[0] in q && q[0].id in Ids(q);
      assert forall t :: t in q <==> t == q[0] || t in q[1..];
      NoWorkLeft(q[1..], left, d);
    }
  }

  /** The position of the first task that is not blocked, |q| if there is none. */
  function FirstFree(q: seq<Task>, admitted: set<nat>): (i: nat)
    ensures i <= |q|
    ensures forall j :: 0 <= j < i ==> Blocked(q[j], admitted)
    ensures i < |q| ==> !Blocked(q[i], admitted)
  {
    if q == [] || !Blocked(q[0], admitted) then 0 else 1 + FirstFree(q[1..], admitted)
  }

  lemma FirstFreeRotates(q: seq<Task>, admitted: set<nat>)
    requires q != [] && Blocked(q[0], admitted) && FirstFree(q, admitted) < |q|
    ensures FirstFree(q[1..] + [q[0]], admitted) == FirstFree(q, admitted) - 1
  {
    var i, r := FirstFree(q, admitted), q[1..] + [q[0]];
    assert r[i - 1] == q[i];
    assert forall j :: 0 <= j < i - 1 ==> r[j] == q[j + 1];
    var k := FirstFree(r, admitted);
  }

  // ---------------------------------------------------------------- who escapes stays the same

  /** The tasks of `d` are trapped; the others escape within the given number of hops. */
  ghost predicate SplitBy(s: State, d: set<nat>, hops: map<nat, nat>) {
    && Trapped(Waits(s.queue), d)
    && forall id :: id in Waits(s.queue) && id !in d ==> id in hops && Escapes(Waits(s.queue), id, hops[id])
  }

  lemma {:induction false} EscapesFewer(w: map<nat, nat>, w': map<nat, nat>, id: nat, k: nat)
    requires id in w && id in w' && Escapes(w, id, k)
    requires w'.Keys <= w.Keys && forall x :: x in w' ==> w'[x] == w[x]
    ensures Escapes(w', id, k)
    decreases k
  {
    if w[id] != 0 && w[id] in w' { EscapesFewer(w, w', w[id], k - 1); }
  }

  /** Every task of the new queue was in the old one, with the same predecessor. */
  predicate Derived(s: State, s': State) {
    forall u :: u in s'.queue ==> exists v :: v in s.queue && v.id == u.id && v.runAftId == u.runAftId
  }

  lemma RunNextDerived(s: State, shown: Poll)
    requires Inv(s) && s.queue != []
    ensures Derived(s, RunNext(s, shown))
  {
    var t, rest := s.queue[0], s.queue[1..];
    RunNextShape(s, shown);
    assert t in s.queue;
    forall u | u in RunNext(s, shown).queue
      ensures exists v :: v in s.queue && v.id == u.id && v.runAftId == u.runAftId
    {
      if u in rest { assert u in s.queue; }
    }
  }

  lemma WaitsShrink(s: State, s': State)
    requires Inv(s) && Inv(s') && Derived(s, s')
    ensures var w, w' := Waits(s.queue), Waits(s'.queue);
            w'.Keys <= w.Keys && forall x :: x in w' ==> w'[x] == w[x]
  {
    forall x | x in Waits(s'.queue) ensures x in Waits(s.queue) && Waits(s'.queue)[x] == Waits(s.queue)[x] {
      var u :| u in s'.queue && u.id == x;
      var v :| v in s.queue && v.id == u.id && v.runAftId == u.runAftId;
      WaitsOf(s', u);
      WaitsOf(s, v);
    }
  }

  lemma SplitStays(s: State, shown: Poll, d: set<nat>, hops: map<nat, nat>)
    requires Inv(s) && s.queue != [] && SplitBy(s, d, hops)
    ensures SplitBy(RunNext(s, shown), d, hops)
  {
    var s' := RunNext(s, shown);
    RunNextKeepsInv(s, shown);
    RunNextUntouched(s, shown, d);
    TrappedStays(s, s', d);
    RunNextDerived(s, shown);
    WaitsShrink(s, s');
    forall id | id in Waits(s'.queue) && id !in d
      ensures id in hops && Escapes(Waits(s'.queue), id, hops[id])
    {
      EscapesFewer(Waits(s.queue), Waits(s'.queue), id, hops[id]);
    }
  }

  lemma {:induction false} SomeoneIsFree(s: State, id: nat, k: nat) returns (t: Task)
    requires Inv(s) && id in Waits(s.queue) && Escapes(Waits(s.queue), id, k)
    ensures t in s.queue && !Blocked(t, s.admitted)
    decreases k
  {
    t :| t in s.queue && t.id == id;
    WaitsOf(s, t);
    if Blocked(t, s.admitted) { t := SomeoneIsFree(s, t.runAftId, k - 1); }
  }

  lemma FreeTaskFound(q: seq<Task>, admitted: set<nat>, t: Task)
    requires t in q && !Blocked(t, admitted)
    ensures FirstFree(q, admitted) < |q|
  {
    var i :| 0 <= i < |q| && q[i] == t;
  }

  lemma WorkMeansEscape(s: State, left: map<nat, nat>, d: set<nat>) returns (id: nat)
    requires Inv(s) && s.admitted <= left.Keys && TotalWork(s.queue, left, d) > 0
    ensures id in Waits(s.queue) && id !in d
  {
    NoWorkLeft(s.queue, left, d);
    id :| id in Ids(s.queue) && id !in d;
  }

  lemma WorkMeansFree(s: State, left: map<nat, nat>, d: set<nat>, hops: map<nat, nat>)
    requires Inv(s) && s.admitted <= left.Keys && SplitBy(s, d, hops) && TotalWork(s.queue, left, d) > 0
    ensures FirstFree(s.queue, s.admitted) < |s.queue|
  {
    var id := WorkMeansEscape(s, left, d);
    var t := SomeoneIsFree(s, id, hops[id]);
    FreeTaskFound(s.queue, s.admitted, t);
  }

  // ---------------------------------------------------------------- the bound

  /** Running an unblocked front task costs one unit of work. */
  lemma FreeFrontWorks(s: State, left: map<nat, nat>, shows: Children, d: set<nat>, hops: map<nat, nat>)
    requires Inv(s) && s.queue != [] && s.admitted <= left.Keys && SplitBy(s, d, hops) && Finishing(shows)
    requires !Blocked(s.queue[0], s.admitted)
    ensures s.queue[0].id in left
    ensures var shown := shows(s.queue[0].id, left[s.queue[0].id]);
            var s', left' := RunNext(s, shown), LeftAfter(s.queue, s.admitted, left);
            && |s'.queue| <= |s.queue| && Ids(s'.queue) <= left'.Keys
            && TotalWork(s'.queue, left', d) < TotalWork(s.queue, left, d)
  {
    var t, rest := s.queue[0], s.queue[1..];
    assert t in s.queue;
    var shown := shows(t.id, left[t.id]);
    var s', left' := RunNext(s, shown), LeftAfter(s.queue, s.admitted, left);
    if t.id in d { TrappedFrontBlocked(s, d); }
    PopFront(s.queue);
    RunNextShape(s, shown);
    RunNextKeepsInv(s, shown);
    WorkFrame(rest, left, left', d);
    if s'.queue != rest {
      var t' := s'.queue[|rest|];
      assert t'.id == t.id;
      WorkAppend(rest, t', left', d);
    }
  }

  lemma BlockedFrontRotates(s: State, left: map<nat, nat>, shown: Poll, d: set<nat>)
    requires Inv(s) && s.queue != [] && s.admitted <= left.Keys
    requires Blocked(s.queue[0], s.admitted)
    ensures var s' := RunNext(s, shown);
            && Ids(s'.queue) <= left.Keys && TotalWork(s'.queue, left, d) == TotalWork(s.queue, left, d)
  {
    PopFront(s.queue);
    RunNextShape(s, shown);
    RunNextKeepsInv(s, shown);
    WorkAppend(s.queue[1..], s.queue[0], left, d);
  }

  /** w * n, unfolding by one n. */
  function Times(w: nat, n: nat): nat {
    if w == 0 then 0 else n + Times(w - 1, n)
  }

  lemma {:induction false} TimesIsProduct(w: nat, n: nat)
    ensures Times(w, n) == n * w
  {
    if w > 0 { TimesIsProduct(w - 1, n); }
  }

  lemma {:induction false} TimesMonotone(w': nat, w: nat, n: nat)
    requires w' <= w
    ensures Times(w', n) <= Times(w, n)
    decreases w
  {
    if w' < w { TimesMonotone(w', w - 1, n); }
  }

  /** The measure (work left, distance to the first unblocked task) as one number. */
  predicate Enough(work: nat, free: nat, n: nat, m: nat) {
    work > 0 ==> m >= Times(work - 1, n) + free + 1
  }

  lemma EnoughAfterWork(work: nat, free: nat, work': nat, free': nat, n: nat, m: nat)
    requires Enough(work, free, n, m) && work' < work && (work' > 0 ==> free' < n)
    ensures m > 0 && Enough(work', free', n, m - 1)
  {
    if work' > 0 { TimesMonotone(work' - 1, work - 2, n); }
  }

  lemma CallKeeps(s: State, left: map<nat, nat>, shows: Children, d: set<nat>, hops: map<nat, nat>)
    requires Inv(s) && s.queue != [] && s.admitted <= left.Keys && SplitBy(s, d, hops)
    ensures var s' := Call(s, left, shows);
            && Inv(s') && SplitBy(s', d, hops) && s'.admitted <= s.admitted && |s'.queue| <= |s.queue|
            && LeftAfter(s.queue, s.admitted, left).Keys == left.Keys
  {
    assert s.queue[0] in s.queue;
    CallKeepsInv(s, left, shows);
    SplitStays(s, shows(s.queue[0].id, left[s.queue[0].id]), d, hops);
  }

  lemma EnoughAfterRotate(s: State, left: map<nat, nat>, shows: Children, d: set<nat>, hops: map<nat, nat>,
                          n: nat, m: nat)
    requires Inv(s) && s.queue != [] && s.admitted <= left.Keys && SplitBy(s, d, hops)
    requires Blocked(s.queue[0], s.admitted) && m > 0
    requires Enough(TotalWork(s.queue, left, d), FirstFree(s.queue, s.admitted), n, m)
    ensures var s' := Call(s, left, shows);
            && Ids(s'.queue) <= left.Keys && LeftAfter(s.queue, s.admitted, left) == left
            && Enough(TotalWork(s'.queue, left, d), FirstFree(s'.queue, s'.admitted), n, m - 1)
  {
    assert s.queue[0] in s.queue;
    BlockedFrontRotates(s, left, shows(s.queue[0].id, left[s.queue[0].id]), d);
    if TotalWork(s.queue, left, d) > 0 {
      WorkMeansFree(s, left, d, hops);
      FirstFreeRotates(s.queue, s.admitted);
    }
  }

  lemma EnoughAfterRun(s: State, left: map<nat, nat>, shows: Children, d: set<nat>, hops: map<nat, nat>, n: nat, m: nat)
    requires Inv(s) && s.queue != [] && s.admitted <= left.Keys && SplitBy(s, d, hops)
    requires Finishing(shows) && |s.queue| <= n
    requires !Blocked(s.queue[0], s.admitted) && m > 0
    requires Enough(TotalWork(s.queue, left, d), FirstFree(s.queue, s.admitted), n, m)
    ensures var s', left' := Call(s, left, shows), LeftAfter(s.queue, s.admitted, left);
            && Ids(s'.queue) <= left'.Keys
            && Enough(TotalWork(s'.queue, left', d), FirstFree(s'.queue, s'.admitted), n, m - 1)
  {
    var s', left' := Call(s, left, shows), LeftAfter(s.queue, s.admitted, left);
    FreeFrontWorks(s, left, shows, d, hops);
    CallKeeps(s, left, shows, d, hops);
    var work' := TotalWork(s'.queue, left', d);
    if work' > 0 { WorkMeansFree(s', left', d, hops); }
    EnoughAfterWork(TotalWork(s.queue, left, d), FirstFree(s.queue, s.admitted),
                    work', FirstFree(s'.queue, s'.admitted), n, m);
  }

  /** What every round keeps. */
  ghost predicate Steady(c: Config, d: set<nat>, hops: map<nat, nat>, n: nat) {
    Inv(c.s) && c.s.admitted <= c.left.Keys && SplitBy(c.s, d, hops) && |c.s.queue| <= n
  }

  predicate Counted(c: Config) {
    Ids(c.s.queue) <= c.left.Keys
  }

  /** The rounds that are enough. */
  function Needed(c: Config, d: set<nat>, n: nat): nat {
    if Counted(c) && TotalWork(c.s.queue, c.left, d) > 0 then
      Times(TotalWork(c.s.queue, c.left, d) - 1, n) + FirstFree(c.s.queue, c.s.admitted) + 1
    else 0
  }

  lemma SteadyRound(c: Config, shows: Children, d: set<nat>, hops: map<nat, nat>, n: nat)
    requires Steady(c, d, hops, n)
    ensures Steady(Round(c, shows), d, hops, n)
  {
    if c.s.queue != [] { CallKeeps(c.s, c.left, shows, d, hops); }
  }

  lemma NeededEnough(c: Config, d: set<nat>, n: nat, m: nat)
    requires Counted(c)
    ensures Enough(TotalWork(c.s.queue, c.left, d), FirstFree(c.s.queue, c.s.admitted), n, m) <==> Needed(c, d, n) <= m
  {
  }

  lemma RotateRoundLess(c: Config, shows: Children, d: set<nat>, hops: map<nat, nat>, n: nat, m: nat)
    requires Steady(c, d, hops, n) && c.s.queue != [] && Blocked(c.s.queue[0], c.s.admitted)
    requires Needed(c, d, n) <= m && m > 0
    ensures Needed(Round(c, shows), d, n) <= m - 1
  {
    NeededEnough(c, d, n, m);
    EnoughAfterRotate(c.s, c.left, shows, d, hops, n, m);
    NeededEnough(Config(Call(c.s, c.left, shows), c.left), d, n, m - 1);
  }

  lemma RunRoundLess(c: Config, shows: Children, d: set<nat>, hops: map<nat, nat>, n: nat, m: nat)
    requires Steady(c, d, hops, n) && c.s.queue != [] && !Blocked(c.s.queue[0], c.s.admitted) && Finishing(shows)
    requires Needed(c, d, n) <= m && m > 0
    ensures Needed(Round(c, shows), d, n) <= m - 1
  {
    NeededEnough(c, d, n, m);
    EnoughAfterRun(c.s, c.left, shows, d, hops, n, m);
    NeededEnough(Config(Call(c.s, c.left, shows), LeftAfter(c.s.queue, c.s.admitted, c.left)), d, n, m - 1);
  }

  lemma OneRoundLess(c: Config, shows: Children, d: set<nat>, hops: map<nat, nat>, n: nat)
    requires Steady(c, d, hops, n) && Finishing(shows)
    ensures Needed(Round(c, shows), d, n) == 0 || Needed(Round(c, shows), d, n) < Needed(c, d, n)
  {
    var m := if Needed(c, d, n) > 0 then Needed(c, d, n) else 1;
    if c.s.queue == [] {
      assert TotalWork([], c.left, d) == 0;
    } else if Blocked(c.s.queue[0], c.s.admitted) {
      RotateRoundLess(c, shows, d, hops, n, m);
    } else {
      RunRoundLess(c, shows, d, hops, n, m);
    }
  }

  lemma {:induction false} SteadyRounds(c: Config, shows: Children, d: set<nat>, hops: map<nat, nat>, n: nat, j: nat)
    requires Steady(c, d, hops, n)
    ensures Steady(Rounds(c, shows, j), d, hops, n)
    decreases j
  {
    if j > 0 {
      SteadyRounds(c, shows, d, hops, n, j - 1);
      SteadyRound(Rounds(c, shows, j - 1), shows, d, hops, n);
    }
  }

  lemma {:induction false} RoundsLess(c: Config, shows: Children, d: set<nat>, hops: map<nat, nat>, n: nat, j: nat)
    requires Steady(c, d, hops, n) && Finishing(shows)
    ensures Needed(Rounds(c, shows, j), d, n) == 0 || Needed(Rounds(c, shows, j), d, n) + j <= Needed(c, d, n)
    decreases j
  {
    if j > 0 {
      RoundsLess(c, shows, d, hops, n, j - 1);
      SteadyRounds(c, shows, d, hops, n, j - 1);
      OneRoundLess(Rounds(c, shows, j - 1), shows, d, hops, n);
    }
  }

  lemma NoneNeeded(c: Config, d: set<nat>, hops: map<nat, nat>, n: nat)
    requires SplitBy(c.s, d, hops) && Counted(c) && Needed(c, d, n) == 0
    ensures Ids(c.s.queue) == d
  {
    NoWorkLeft(c.s.queue, c.left, d);
    TrappedQueued(c.s, d, hops);
  }

  lemma RoundsEnd(c: Config, shows: Children, d: set<nat>, hops: map<nat, nat>, n: nat, m: nat)
    requires Steady(c, d, hops, n) && Finishing(shows) && Needed(c, d, n) <= m
    ensures Ids(Rounds(c, shows, m).s.queue) == d
  {
    RoundsLess(c, shows, d, hops, n, m);
    SteadyRounds(c, shows, d, hops, n, m);
    NoneNeeded(Rounds(c, shows, m), d, hops, n);
  }

  /** A number of hops after which each escaping chain has left. */
  ghost function HopCount(w: map<nat, nat>): (hops: map<nat, nat>)
    ensures forall id :: id in w && id !in Doomed(w) ==> id in hops && Escapes(w, id, hops[id])
  {
    map id | id in w && id !in Doomed(w) :: var k: nat :| Escapes(w, id, k); k
  }

  lemma TrappedQueued(s: State, d: set<nat>, hops: map<nat, nat>)
    requires SplitBy(s, d, hops)
    ensures d <= Ids(s.queue)
  {
    assert Waits(s.queue).Keys == Ids(s.queue);
  }

  lemma ProductIsEnough(c: Config, d: set<nat>, hops: map<nat, nat>, m: nat)
    requires Inv(c.s) && Counted(c) && SplitBy(c.s, d, hops)
    requires m >= |c.s.queue| * TotalWork(c.s.queue, c.left, d)
    ensures Needed(c, d, |c.s.queue|) <= m
  {
    TimesIsProduct(TotalWork(c.s.queue, c.left, d), |c.s.queue|);
    if TotalWork(c.s.queue, c.left, d) > 0 { WorkMeansFree(c.s, c.left, d, hops); }
  }

  lemma DoomedSplit(s: State) returns (hops: map<nat, nat>)
    ensures SplitBy(s, Doomed(Waits(s.queue)), hops)
  {
    DoomedIsLargestTrapped(Waits(s.queue), {});
    hops := HopCount(Waits(s.queue));
  }

  /** With no new admissions and children that finish, n * W rounds leave exactly the tasks whose
      chain of predecessors never leaves the admission set. */
  lemma ExactlyTheDoomedStay(s: State, left: map<nat, nat>, shows: Children, m: nat)
    requires Inv(s) && s.admitted <= left.Keys && Finishing(shows)
    requires m >= |s.queue| * TotalWork(s.queue, left, Doomed(Waits(s.queue)))
    ensures Ids(Rounds(Config(s, left), shows, m).s.queue) == Doomed(Waits(s.queue))
  {
    var c, d := Config(s, left), Doomed(Waits(s.queue));
    var hops := DoomedSplit(s);
    ProductIsEnough(c, d, hops, m);
    RoundsEnd(c, shows, d, hops, |s.queue|, m);
  }

  /** In particular the queue runs empty when every chain leaves the admission set. */
  lemma QueueRunsEmpty(s: State, left: map<nat, nat>, shows: Children, m: nat)
    requires Inv(s) && s.admitted <= left.Keys && Finishing(shows)
    requires forall id :: id in Waits(s.queue) ==> exists k: nat :: Escapes(Waits(s.queue), id, k)
    requires m >= |s.queue| * TotalWork(s.queue, left, {})
    ensures Rounds(Config(s, left), shows, m).s.queue == []
  {
    assert Doomed(Waits(s.queue)) == {};
    ExactlyTheDoomedStay(s, left, shows, m);
    NoIds(Rounds(Config(s, left), shows, m).s.queue);
  }

  lemma NoIds(q: seq<Task>)
    ensures Ids(q) == {} <==> q == []
  {
    if q != [] { assert q[0] in q && q[0].id in Ids(q); }
  }

  /** A task that names itself as its predecessor is admitted and never runs. */
  lemma SelfWaiterIsDoomed()
    ensures var j := PanelTask(1, TASK_WAITING, 0, false, 1, "gsstart", None);
            1 in Doomed(Waits(Run(INITIAL, [Update(Some([j]))]).queue))
  {
    var j := PanelTask(1, TASK_WAITING, 0, false, 1, "gsstart", None);
    AdmitSingle(INITIAL, j);
    var s := Admit(INITIAL, j, TASK_WAITING);
    assert s.queue == [NewTask(j)];
    assert s.queue[0] in s.queue && 1 in Ids(s.queue);
    assert Trapped(Waits(s.queue), {1});
    DoomedIsLargestTrapped(Waits(s.queue), {1});
  }

  // ---------------------------------------------------------------- rounds of the daemon's loop

  /** What the poll of a round shows; on an empty queue nothing is polled. */
  function RoundPoll(c: Config, shows: Children): Poll {
    if c.s.queue != [] && c.s.queue[0].id in c.left then shows(c.s.queue[0].id, c.left[c.s.queue[0].id])
    else shows(0, 0)
  }

  /** What the passes of the loop meet when the panel's replies are `replies`. */
  function RoundInputs(c: Config, shows: Children, replies: seq<Option<seq<PanelTask>>>): (inputs: seq<LoopInput>)
    ensures |inputs| == |replies|
    decreases |replies|
  {
    if replies == [] then []
    else
      var k := |replies| - 1;
      RoundInputs(c, shows, replies[..k]) + [(replies[k], RoundPoll(Rounds(c, shows, k), shows))]
  }

  /** No reply admits a task in the round it comes. */
  ghost predicate Quiet(c: Config, shows: Children, replies: seq<Option<seq<PanelTask>>>) {
    forall i :: 0 <= i < |replies| ==>
      Sync(Rounds(c, shows, i).s, replies[i], TASK_WAITING) == Rounds(c, shows, i).s
  }

  lemma RoundIsTick(c: Config, shows: Children)
    requires Counted(c)
    ensures Round(c, shows).s == Next(c.s, Tick(RoundPoll(c, shows)))
  {
    if c.s.queue != [] { assert c.s.queue[0] in c.s.queue && c.s.queue[0].id in Ids(c.s.queue); }
  }

  lemma RoundKeepsCounted(c: Config, shows: Children)
    requires Inv(c.s) && Counted(c)
    ensures Inv(Round(c, shows).s) && Counted(Round(c, shows))
  {
    if c.s.queue != [] { CallKeepsInv(c.s, c.left, shows); }
  }

  lemma {:induction false} RoundsCounted(c: Config, shows: Children, m: nat)
    requires Inv(c.s) && Counted(c)
    ensures Inv(Rounds(c, shows, m).s) && Counted(Rounds(c, shows, m))
    decreases m
  {
    if m > 0 {
      RoundsCounted(c, shows, m - 1);
      RoundKeepsCounted(Rounds(c, shows, m - 1), shows);
    }
  }

  lemma PassOnRun(s: State, inputs: seq<LoopInput>, reply: Option<seq<PanelTask>>, c: Config, shows: Children)
    requires Counted(c) && Sync(c.s, reply, TASK_WAITING) == c.s && c.s == Run(s, LoopSteps(inputs))
    ensures Round(c, shows).s == Run(s, LoopSteps(inputs + [(reply, RoundPoll(c, shows))]))
  {
    var all := inputs + [(reply, RoundPoll(c, shows))];
    RoundIsTick(c, shows);
    assert all[..|inputs|] == inputs;
    RunTwo(s, LoopSteps(inputs), Update(reply), Tick(RoundPoll(c, shows)));
  }

  lemma {:induction false} RoundsRun(c: Config, shows: Children, replies: seq<Option<seq<PanelTask>>>)
    requires Quiet(c, shows, replies)
    requires forall i :: 0 <= i < |replies| ==> Counted(Rounds(c, shows, i))
    ensures Rounds(c, shows, |replies|).s == Run(c.s, LoopSteps(RoundInputs(c, shows, replies)))
    decreases |replies|
  {
    if replies != [] {
      var k := |replies| - 1;
      RoundsRun(c, shows, replies[..k]);
      PassOnRun(c.s, RoundInputs(c, shows, replies[..k]), replies[k], Rounds(c, shows, k), shows);
    }
  }

  /** Rounds are what the daemon's loop does while the panel sends nothing new. */
  lemma RoundsAreRun(c: Config, shows: Children, replies: seq<Option<seq<PanelTask>>>)
    requires Inv(c.s) && Counted(c) && Quiet(c, shows, replies)
    ensures Rounds(c, shows, |replies|).s == Run(c.s, LoopSteps(RoundInputs(c, shows, replies)))
  {
    forall i | 0 <= i < |replies| ensures Counted(Rounds(c, shows, i)) { RoundsCounted(c, shows, i); }
    RoundsRun(c, shows, replies);
  }

  /** The daemon's loop, from any state it can be in: once the panel sends nothing new and children
      finish, n * W passes leave exactly the doomed tasks. */
  lemma LoopLeavesTheDoomed(steps: seq<Step>, left: map<nat, nat>, shows: Children,
                            replies: seq<Option<seq<PanelTask>>>)
    requires var s := Run(INITIAL, steps);
             && Ids(s.queue) <= left.Keys && Finishing(shows) && Quiet(Config(s, left), shows, replies)
             && |replies| >= |s.queue| * TotalWork(s.queue, left, Doomed(Waits(s.queue)))
    ensures var s := Run(INITIAL, steps);
            Ids(Run(INITIAL, steps + LoopSteps(RoundInputs(Config(s, left), shows, replies))).queue)
            == Doomed(Waits(s.queue))
  {
    var s := Run(INITIAL, steps);
    var inputs := RoundInputs(Config(s, left), shows, replies);
    RunKeepsInv(INITIAL, steps);
    ExactlyTheDoomedStay(s, left, shows, |replies|);
    RoundsAreRun(Config(s, left), shows, replies);
    RunConcat(INITIAL, steps, LoopSteps(inputs));
  }
}
