/** What the two schedulers share: the child-process interface of src/functions/gsystem.cpp as a
    poll shows it, and the bookkeeping of command blocks and pids. */
module Commands {
  datatype Option<+T> = None | Some(value: T)

  datatype ProcessStatus = PROCESS_FAIL | PROCESS_SUCCESS | PROCESS_WORKING

  datatype InstallStatus = SERVER_NOT_INSTALLED | SERVER_INSTALLED | SERVER_INSTALL_IN_PROCESS

  /** The commands of src/commands/game_server_cmd.h the schedulers build for a server, and the shell
      command of src/commands/dedicated_server_cmd.h. */
  datatype Action = START | STOP | RESTART | INSTALL | UPDATE | DELETE

  datatype Cmd = ServerCmd(action: Action, serverId: nat) | ShellCmd(text: string)

  /** What one look at a command and its child process shows: the drained output, the answer of
      `child_process_status`, and the flags `is_complete()` and `result()`. */
  datatype Poll = Poll(output: string, child: ProcessStatus, complete: bool, result: bool)

  /** Whether a poll ends the task. */
  predicate Ends(poll: Poll) {
    poll.complete || poll.child != PROCESS_WORKING
  }

  predicate Succeeds(poll: Poll) {
    poll.result && poll.child == PROCESS_SUCCESS
  }

  // ---------------------------------------------------------------- blocks and processes

  /** `std::unordered_map::insert`: an existing entry stays. */
  function Insert<V>(m: map<nat, V>, k: nat, v: V): map<nat, V> {
    if k in m then m else m[k := v]
  }

  predicate Injective(m: map<nat, nat>) {
    forall i, j :: i in m && j in m && m[i] == m[j] ==> i == j
  }

  /** The entries of a resource map are distinct, were created, and are not given back yet. */
  predicate Holds(m: map<nat, nat>, gone: set<nat>, created: nat) {
    && Injective(m)
    && (forall i :: i in m ==> m[i] < created && m[i] !in gone)
    && (forall v :: v in gone ==> v < created)
  }

  lemma HoldsMore(m: map<nat, nat>, gone: set<nat>, created: nat, k: nat)
    requires Holds(m, gone, created) && k !in m
    ensures Holds(Insert(m, k, created), gone, created + 1) && |Insert(m, k, created)| == |m| + 1
  {
    assert |m[k := created]| == |m| + 1;
  }

  lemma HoldsLess(m: map<nat, nat>, gone: set<nat>, created: nat, k: nat)
    requires Holds(m, gone, created) && k in m
    ensures Holds(m - {k}, gone + {m[k]}, created) && Holds(m - {k}, gone, created) && |m - {k}| == |m| - 1
  {
    assert (m - {k}).Keys == m.Keys - {k};
    assert |m.Keys| == |m| && |(m - {k}).Keys| == |m - {k}|;
  }
}
