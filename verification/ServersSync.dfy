/** src/classes/game_servers_list.cpp: reconciling the panel's record of a server with the daemon's
    own writes by time stamp, as functions on values. */
module ServersSync {
  import opened Commands

  /** The fields `sync_from_api` takes over only if the panel's stamp is newer. */
  datatype Held = Held(enabled: bool, installed: InstallStatus, blocked: bool)

  datatype Entry = Entry(held: Held, updatedAt: int)  // the daemon's record

  datatype Row = Row(shown: Held, stamp: int)         // the panel's record

  datatype State = State(local: map<nat, Entry>, panel: map<nat, Row>, clock: int)

  /** What became of the PATCH of `sync_all`: it may fail, and the panel gives any of the rows, say
      those it changed, a new stamp each. */
  datatype Patch = Lost | Applied(stamps: map<nat, int>)

  /** `rewrites` holds the clock reading at which `sync_all` reaches each server, `end` the clock
      when the call is over. */
  datatype Op =
    | Listed(id: nat, held: Held)
    | PanelEdit(id: nat, shown: Held, at: int)
    | SetInstallStatus(id: nat, status: InstallStatus, at: int, rewrites: map<nat, int>, patch: Patch, end: int)
    | SyncAll(rewrites: map<nat, int>, patch: Patch, end: int)
    | SyncFromApi(id: nat, reached: bool)

  function Rewritten(local: map<nat, Entry>, rewrites: map<nat, int>): map<nat, Entry> {
    map id | id in local :: if id in rewrites then local[id].(updatedAt := rewrites[id]) else local[id]
  }

  function PatchedRow(r: Row, id: nat, e: Entry, stamps: map<nat, int>): Row {
    Row(r.shown.(installed := e.held.installed), if id in stamps then stamps[id] else r.stamp)
  }

  function Patched(panel: map<nat, Row>, local: map<nat, Entry>, patch: Patch): map<nat, Row> {
    if patch.Lost? then panel
    else map id | id in panel :: if id in local then PatchedRow(panel[id], id, local[id], patch.stamps) else panel[id]
  }

  function AllSynced(s: State, rewrites: map<nat, int>, patch: Patch, end: int): State {
    State(Rewritten(s.local, rewrites), Patched(s.panel, s.local, patch), end)
  }

  function Installed(e: Entry, status: InstallStatus, at: int): Entry {
    Entry(e.held.(installed := status), at)
  }

  /** `update_list` adds a server it does not know, without a stamp. */
  function Joined(local: map<nat, Entry>, id: nat, held: Held): map<nat, Entry> {
    if id in local then local else local[id := Entry(held, 0)]
  }

  /** The stamp is taken over in any case, so `updated_at` may go back. */
  function Taken(e: Entry, r: Row): Entry {
    Entry(if r.stamp > e.updatedAt then r.shown else e.held, r.stamp)
  }

  function Next(s: State, op: Op): State {
    match op
    case Listed(id, held) => s.(local := Joined(s.local, id, held))
    case PanelEdit(id, shown, at) => s.(panel := s.panel[id := Row(shown, at)], clock := at)
    case SetInstallStatus(id, status, at, rewrites, patch, end) =>
      if id !in s.local then s
      else AllSynced(s.(local := s.local[id := Installed(s.local[id], status, at)]), rewrites, patch, end)
    case SyncAll(rewrites, patch, end) => AllSynced(s, rewrites, patch, end)
    case SyncFromApi(id, reached) =>
      if reached && id in s.local && id in s.panel then s.(local := s.local[id := Taken(s.local[id], s.panel[id])])
      else s
  }

  /** One nondecreasing clock. */
  predicate Timely(s: State, start: int, rewrites: map<nat, int>, patch: Patch, end: int) {
    && s.clock <= start <= end
    && rewrites.Keys == s.local.Keys
    && (forall id :: id in rewrites ==> start <= rewrites[id] <= end)
    && (patch.Applied? ==> forall id :: id in patch.stamps ==> start <= patch.stamps[id] <= end)
  }

  predicate Allowed(s: State, op: Op) {
    match op
    case Listed(id, held) => id in s.panel
    case PanelEdit(id, shown, at) => id in s.panel && at >= s.clock
    case SetInstallStatus(id, status, at, rewrites, patch, end) => Timely(s, at, rewrites, patch, end)
    case SyncAll(rewrites, patch, end) => Timely(s, s.clock, rewrites, patch, end)
    case SyncFromApi(id, reached) => true
  }

  function Run(s: State, ops: seq<Op>): State
    decreases ops
  {
    if ops == [] then s else Next(Run(s, ops[..|ops| - 1]), ops[|ops| - 1])
  }

  predicate AllowedRun(s: State, ops: seq<Op>)
    decreases ops
  {
    ops == [] || (AllowedRun(s, ops[..|ops| - 1]) && Allowed(Run(s, ops[..|ops| - 1]), ops[|ops| - 1]))
  }

  lemma RunGrows(s: State, ops: seq<Op>, op: Op)
    ensures Run(s, ops + [op]) == Next(Run(s, ops), op)
    ensures AllowedRun(s, ops + [op]) <==> AllowedRun(s, ops) && Allowed(Run(s, ops), op)
  {
    assert (ops + [op])[..|ops|] == ops;
  }

  /** The operation sends every status held and rewrites the stamp of `id`. */
  predicate Rewrites(s: State, op: Op, id: nat) {
    id in s.local && (op.SyncAll? || (op.SetInstallStatus? && op.id in s.local))
  }

  /** The start: no server is listed yet, and the panel's rows are stamped. */
  predicate Fresh(s: State) {
    s.local == map[] && forall id :: id in s.panel ==> 0 < s.panel[id].stamp <= s.clock
  }

  // ---------------------------------------------------------------- the last writer

  /** The last writer after one more operation. */
  function TruthAfter(s: State, op: Op, truth: Option<InstallStatus>, id: nat): Option<InstallStatus> {
    match op
    case Listed(_, _) => truth
    case PanelEdit(i, shown, _) => if i == id then Some(shown.installed) else truth
    case SetInstallStatus(i, status, _, _, _, _) =>
      if !Rewrites(s, op, id) then truth
      else if i == id then Some(status) else Some(s.local[id].held.installed)
    case SyncAll(_, _, _) => if Rewrites(s, op, id) then Some(s.local[id].held.installed) else truth
    case SyncFromApi(_, _) => truth
  }

  /** The install status written last by either side, where every `sync_all` counts as the daemon
      writing again what it holds. Time stamps play no part in it. */
  function Truth(s: State, ops: seq<Op>, id: nat): Option<InstallStatus>
    decreases ops
  {
    if ops == [] then (if id in s.panel then Some(s.panel[id].shown.installed) else None)
    else
      var before := ops[..|ops| - 1];
      TruthAfter(Run(s, before), ops[|ops| - 1], Truth(s, before, id), id)
  }

  /** The edit is stamped later than the daemon's record, if there is one. */
  predicate Seen(s: State, id: nat, at: int) {
    id in s.local ==> at > s.local[id].updatedAt
  }

  /** The last writer was the daemon, or an edit stamped later than the daemon's record. */
  predicate LastIsSeen(s: State, ops: seq<Op>, id: nat)
    decreases ops
  {
    ops == []
    || (var before, op := ops[..|ops| - 1], ops[|ops| - 1];
        if op.PanelEdit? && op.id == id then Seen(Run(s, before), id, op.at)
        else Rewrites(Run(s, before), op, id) || LastIsSeen(s, before, id))
  }

  /** Either the panel wrote last and its stamp shows it, or the daemon holds the last value and the
      panel's row cannot take it back. */
  predicate Reconciled(e: Entry, r: Row, truth: InstallStatus, clock: int) {
    && e.updatedAt <= clock && r.stamp <= clock
    && ((r.shown.installed == truth && r.stamp > e.updatedAt)
        || (e.held.installed == truth && (r.stamp <= e.updatedAt || r.shown.installed == truth)))
  }

  predicate ReconciledAt(s: State, truth: Option<InstallStatus>, id: nat)
    requires id in s.panel
  {
    && truth.Some?
    && (if id in s.local then Reconciled(s.local[id], s.panel[id], truth.value, s.clock)
        else s.panel[id].shown.installed == truth.value && 0 < s.panel[id].stamp <= s.clock)
  }

  /** The panel wrote last and its stamp does not show it. */
  predicate Unseen(s: State, truth: Option<InstallStatus>, id: nat)
    requires id in s.panel
  {
    && id in s.local && truth == Some(s.panel[id].shown.installed)
    && s.panel[id].stamp <= s.local[id].updatedAt <= s.clock
  }

  predicate Follows(s: State, truth: Option<InstallStatus>, seen: bool, id: nat)
    requires id in s.panel
  {
    if seen then ReconciledAt(s, truth, id) else Unseen(s, truth, id)
  }

  lemma SyncAllReconciles(s: State, rewrites: map<nat, int>, patch: Patch, start: int, end: int, id: nat)
    requires id in s.local && id in s.panel && s.panel[id].stamp <= start && start <= end
    requires id in rewrites && start <= rewrites[id] <= end
    requires patch.Applied? && id in patch.stamps ==> start <= patch.stamps[id] <= end
    ensures ReconciledAt(AllSynced(s, rewrites, patch, end), Some(s.local[id].held.installed), id)
  {
  }

  /** Over every run: after a last writer that is seen, either the panel wrote last and its stamp shows
      it, or the daemon holds the last value and the panel's row cannot take it back. */
  lemma {:induction false} RunReconciles(s: State, ops: seq<Op>, id: nat)
    requires Fresh(s) && AllowedRun(s, ops) && id in s.panel
    ensures id in Run(s, ops).panel
    ensures Follows(Run(s, ops), Truth(s, ops, id), LastIsSeen(s, ops, id), id)
    decreases ops
  {
    if ops != [] {
      var before, op := ops[..|ops| - 1], ops[|ops| - 1];
      RunReconciles(s, before, id);
      StepReconciles(Run(s, before), op, Truth(s, before, id), LastIsSeen(s, before, id), id);
    }
  }

  lemma StepReconciles(s: State, op: Op, truth: Option<InstallStatus>, seen: bool, id: nat)
    requires id in s.panel && Follows(s, truth, seen, id) && Allowed(s, op)
    ensures id in Next(s, op).panel
    ensures var seen' := if op.PanelEdit? && op.id == id then Seen(s, id, op.at) else Rewrites(s, op, id) || seen;
            Follows(Next(s, op), TruthAfter(s, op, truth, id), seen', id)
  {
    match op
    case Listed(i, held) =>
    case PanelEdit(i, shown, at) =>
    case SetInstallStatus(i, status, at, rewrites, patch, end) =>
      if Rewrites(s, op, id) {
        SyncAllReconciles(s.(local := s.local[i := Installed(s.local[i], status, at)]), rewrites, patch, at, end, id);
      }
    case SyncAll(rewrites, patch, end) =>
      if Rewrites(s, op, id) { SyncAllReconciles(s, rewrites, patch, s.clock, end, id); }
    case SyncFromApi(i, reached) =>
  }

  /** After an answered `sync_from_api` the daemon holds the status of the last writer exactly if that
      writer was the daemon, or its edit was stamped later than the daemon's record, or the daemon
      held that status anyway. Stamps may have gone back on the way. */
  lemma LastWriterWins(s: State, ops: seq<Op>, id: nat)
    requires Fresh(s) && AllowedRun(s, ops) && id in s.panel && id in Run(s, ops).local
    ensures var end := Next(Run(s, ops), SyncFromApi(id, true));
            id in end.local
            && (Truth(s, ops, id) == Some(end.local[id].held.installed)
                <==> LastIsSeen(s, ops, id) || Truth(s, ops, id) == Some(Run(s, ops).local[id].held.installed))
  {
    RunReconciles(s, ops, id);
  }

  /** A PATCH that arrives shows the daemon's status in every row it holds, and nothing else changes
      but stamps; one that is lost changes no row. The daemon's stamps are rewritten in any case. */
  lemma PatchTells(s: State, rewrites: map<nat, int>, patch: Patch, end: int, id: nat)
    requires Allowed(s, SyncAll(rewrites, patch, end)) && id in s.local && id in s.panel
    ensures var s' := Next(s, SyncAll(rewrites, patch, end));
            && s'.local.Keys == s.local.Keys && s'.panel.Keys == s.panel.Keys
            && s'.local[id] == Entry(s.local[id].held, rewrites[id])
            && (patch.Lost? ==> s'.panel[id] == s.panel[id])
            && (patch.Applied? ==>
                  && s'.panel[id].shown.installed == s.local[id].held.installed
                  && s'.panel[id].shown.enabled == s.panel[id].shown.enabled
                  && s'.panel[id].shown.blocked == s.panel[id].shown.blocked
                  && s'.panel[id].stamp == if id in patch.stamps then patch.stamps[id] else s.panel[id].stamp)
  {
  }

  // ---------------------------------------------------------------- edits that are lost

  /** The fields only the panel writes. */
  function Flags(h: Held): (bool, bool) { (h.enabled, h.blocked) }

  /** What the last edit of `id` says of them. */
  function LastEdit(s: State, ops: seq<Op>, id: nat): (bool, bool)
    requires id in s.panel
    decreases ops
  {
    if ops == [] then Flags(s.panel[id].shown)
    else
      var op := ops[|ops| - 1];
      if op.PanelEdit? && op.id == id then Flags(op.shown) else LastEdit(s, ops[..|ops| - 1], id)
  }

  /** The PATCH gave `id` a stamp later than the one the daemon gave itself. */
  predicate Restamps(op: Op, id: nat)
    requires op.SyncAll? || op.SetInstallStatus?
  {
    op.patch.Applied? && id in op.patch.stamps && id in op.rewrites && op.patch.stamps[id] > op.rewrites[id]
  }

  predicate OutstandingAfter(s: State, op: Op, open: bool, id: nat) {
    if op.PanelEdit? && op.id == id then Seen(s, id, op.at)
    else if Rewrites(s, op, id) then Restamps(op, id)
    else open && !(op == SyncFromApi(id, true) && id in s.local)
  }

  /** What came last for `id` was an edit later than the daemon's record, or a rewrite of the daemon's
      stamps whose PATCH restamped the row later still; no sync has read the row since. A row that
      the daemon has not listed is outstanding. */
  predicate Outstanding(s: State, ops: seq<Op>, id: nat)
    decreases ops
  {
    ops == []
    || (var before, op := ops[..|ops| - 1], ops[|ops| - 1];
        OutstandingAfter(Run(s, before), op, Outstanding(s, before, id), id))
  }

  /** What the two stamps say of it. */
  predicate Stamped(s: State, flags: (bool, bool), open: bool, id: nat) {
    && id in s.panel && Flags(s.panel[id].shown) == flags && 0 < s.panel[id].stamp <= s.clock
    && (if id in s.local then
          s.local[id].updatedAt <= s.clock && (open <==> s.panel[id].stamp > s.local[id].updatedAt)
        else open)
  }

  lemma StepStamped(s: State, op: Op, flags: (bool, bool), open: bool, id: nat)
    requires Stamped(s, flags, open, id) && Allowed(s, op)
    ensures var flags' := if op.PanelEdit? && op.id == id then Flags(op.shown) else flags;
            Stamped(Next(s, op), flags', OutstandingAfter(s, op, open, id), id)
  {
    match op
    case Listed(i, held) =>
    case PanelEdit(i, shown, at) =>
    case SetInstallStatus(i, status, at, rewrites, patch, end) =>
    case SyncAll(rewrites, patch, end) =>
    case SyncFromApi(i, reached) =>
  }

  lemma {:induction false} RunStamped(s: State, ops: seq<Op>, id: nat)
    requires Fresh(s) && AllowedRun(s, ops) && id in s.panel
    ensures Stamped(Run(s, ops), LastEdit(s, ops, id), Outstanding(s, ops, id), id)
    decreases ops
  {
    if ops != [] {
      var before, op := ops[..|ops| - 1], ops[|ops| - 1];
      RunStamped(s, before, id);
      StepStamped(Run(s, before), op, LastEdit(s, before, id), Outstanding(s, before, id), id);
    }
  }

  /** In every run: the next answered sync shows the last edit exactly if it is outstanding, or the
      daemon's record said the same already. */
  lemma EditTakenIff(s: State, ops: seq<Op>, id: nat)
    requires Fresh(s) && AllowedRun(s, ops) && id in s.panel && id in Run(s, ops).local
    ensures var end := Next(Run(s, ops), SyncFromApi(id, true));
            id in end.local
            && (Flags(end.local[id].held) == LastEdit(s, ops, id)
                <==> Outstanding(s, ops, id) || Flags(Run(s, ops).local[id].held) == LastEdit(s, ops, id))
  {
    RunStamped(s, ops, id);
  }

  /** The operation may make the row of `id` readable again. */
  predicate Reopens(s: State, op: Op, id: nat) {
    || (op.PanelEdit? && op.id == id)
    || (Rewrites(s, op, id) && Restamps(op, id))
  }

  predicate NeverReopened(s: State, ops: seq<Op>, id: nat)
    decreases ops
  {
    ops == [] || (NeverReopened(s, ops[..|ops| - 1], id) && !Reopens(Run(s, ops[..|ops| - 1]), ops[|ops| - 1], id))
  }

  predicate Closed(s: State, id: nat) {
    id in s.local && id in s.panel && s.panel[id].stamp <= s.local[id].updatedAt && s.panel[id].stamp <= s.clock
  }

  lemma StepStaysClosed(s: State, op: Op, id: nat)
    requires Closed(s, id) && Allowed(s, op) && !Reopens(s, op, id)
    ensures Closed(Next(s, op), id) && Flags(Next(s, op).local[id].held) == Flags(s.local[id].held)
  {
    match op
    case Listed(i, held) =>
    case PanelEdit(i, shown, at) =>
    case SetInstallStatus(i, status, at, rewrites, patch, end) =>
    case SyncAll(rewrites, patch, end) =>
    case SyncFromApi(i, reached) =>
  }

  /** A row that is not outstanding is never read: until the next edit, or a rewrite whose PATCH
      restamps the row later still, no run changes what the daemon holds of its flags. */
  lemma {:induction false} LostForGood(s: State, ops: seq<Op>, id: nat)
    requires Closed(s, id) && AllowedRun(s, ops) && NeverReopened(s, ops, id)
    ensures Closed(Run(s, ops), id) && Flags(Run(s, ops).local[id].held) == Flags(s.local[id].held)
    decreases ops
  {
    if ops != [] {
      var before, op := ops[..|ops| - 1], ops[|ops| - 1];
      LostForGood(s, before, id);
      StepStaysClosed(Run(s, before), op, id);
    }
  }

  // ---------------------------------------------------------------- lost edits

  /** A fresh panel with one server, which the daemon has listed and read. */
  function OneServer(h: Held): State { State(map[], map[1 := Row(h, 5)], 9) }

  function ListedAndRead(h: Held): seq<Op> { [Listed(1, h), SyncFromApi(1, true)] }

  lemma OneServerRead(h: Held)
    ensures Fresh(OneServer(h)) && AllowedRun(OneServer(h), ListedAndRead(h))
    ensures Run(OneServer(h), ListedAndRead(h)) == State(map[1 := Entry(h, 5)], map[1 := Row(h, 5)], 9)
  {
    RunGrows(OneServer(h), [], Listed(1, h));
    RunGrows(OneServer(h), [Listed(1, h)], SyncFromApi(1, true));
    assert [Listed(1, h)] + [SyncFromApi(1, true)] == ListedAndRead(h);
    assert [] + [Listed(1, h)] == [Listed(1, h)];
  }

  /** An edit in the second of the last local write is lost: the daemon writes at 10, the panel edits
      at 10. */
  lemma SameSecondEditIsLost(h: Held)
    ensures var write := SetInstallStatus(1, SERVER_INSTALLED, 10, map[1 := 10], Lost, 10);
            var edit := PanelEdit(1, h.(blocked := !h.blocked), 10);
            var ops := ListedAndRead(h) + [write] + [edit] + [SyncFromApi(1, true)];
            var end := Run(OneServer(h), ops);
            && AllowedRun(OneServer(h), ops) && 1 in end.local && 1 in end.panel
            && end.local[1].held.blocked == h.blocked != end.panel[1].shown.blocked
  {
    var write := SetInstallStatus(1, SERVER_INSTALLED, 10, map[1 := 10], Lost, 10);
    var edit := PanelEdit(1, h.(blocked := !h.blocked), 10);
    OneServerRead(h);
    RunGrows(OneServer(h), ListedAndRead(h), write);
    RunGrows(OneServer(h), ListedAndRead(h) + [write], edit);
    RunGrows(OneServer(h), ListedAndRead(h) + [write] + [edit], SyncFromApi(1, true));
  }

  /** An edit later than every local write is lost if the stamps are rewritten before it is read,
      say for the install status of another server. */
  lemma RewriteLosesEdit(h: Held)
    ensures var edit, rewrite := PanelEdit(1, h.(blocked := !h.blocked), 10), SyncAll(map[1 := 11], Applied(map[]), 11);
            var ops := ListedAndRead(h) + [edit] + [rewrite] + [SyncFromApi(1, true)];
            var end := Run(OneServer(h), ops);
            && AllowedRun(OneServer(h), ops) && Seen(Run(OneServer(h), ListedAndRead(h)), 1, 10)
            && 1 in end.local && 1 in end.panel
            && end.local[1].held == h && end.panel[1].shown.blocked != h.blocked
  {
    var edit, rewrite := PanelEdit(1, h.(blocked := !h.blocked), 10), SyncAll(map[1 := 11], Applied(map[]), 11);
    OneServerRead(h);
    RunGrows(OneServer(h), ListedAndRead(h), edit);
    RunGrows(OneServer(h), ListedAndRead(h) + [edit], rewrite);
    RunGrows(OneServer(h), ListedAndRead(h) + [edit] + [rewrite], SyncFromApi(1, true));
  }

  /** Repeated syncs of one server. */
  function Syncs(s: State, id: nat, n: nat): State {
    if n == 0 then s else Next(Syncs(s, id, n - 1), SyncFromApi(id, true))
  }

  /** An edit the guard skips once stays skipped, however often the server is synced: the sync that
      skips it also takes its stamp. */
  lemma {:induction false} SkippedForGood(s: State, id: nat, n: nat)
    requires id in s.local && id in s.panel && s.panel[id].stamp <= s.local[id].updatedAt
    ensures var end := Syncs(s, id, n);
            && id in end.local && end.local[id].held == s.local[id].held && end.panel == s.panel
            && s.panel[id].stamp <= end.local[id].updatedAt
            && (n > 0 ==> end.local[id].updatedAt == s.panel[id].stamp)
    decreases n
  {
    if n > 0 { SkippedForGood(s, id, n - 1); }
  }
}
