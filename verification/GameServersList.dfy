/** src/classes/game_servers_list.cpp: the server list with its records updated in place, and the
    overlay of server variables on the defaults of the game mod. */
module GameServersList {
  import opened Commands
  import S = ServersSync
  import opened Numerals

  // ---------------------------------------------------------------- variables

  /** The kinds of JSON value the two loops tell apart. */
  datatype JValue = JNull | JString(s: string) | JInt(i: int) | JOther

  type Member = (string, JValue)

  /** The text of a supported server variable. */
  function OwnText(v: JValue): Option<string> {
    match v
    case JString(s) => Some(s)
    case JInt(i) => Some(IntText(i))
    case _ => None
  }

  /** The text of a supported default of the mod; null is the empty string. */
  function DefaultText(v: JValue): Option<string> {
    if v == JNull then Some("") else OwnText(v)
  }

  /** The first supported default of the mod for `key`. */
  function FirstDefault(defaults: seq<Member>, key: string): Option<string> {
    if defaults == [] then None
    else if defaults[0].0 == key && DefaultText(defaults[0].1).Some? then DefaultText(defaults[0].1)
    else FirstDefault(defaults[1..], key)
  }

  /** The members of a JSON object have distinct names. */
  ghost predicate DistinctNames(own: seq<Member>) {
    forall i, j :: 0 <= i < j < |own| ==> own[i].0 != own[j].0
  }

  /** The server's own supported value of `key`. */
  function OwnValue(own: seq<Member>, key: string): Option<string> {
    if own == [] then None
    else if own[0].0 == key then OwnText(own[0].1)
    else OwnValue(own[1..], key)
  }

  /** What `key` is to be: the server's own value, else the first default, else nothing. */
  function VarOf(defaults: seq<Member>, own: seq<Member>, key: string): Option<string> {
    if OwnValue(own, key).Some? then OwnValue(own, key) else FirstDefault(defaults, key)
  }

  function Lookup(m: map<string, string>, key: string): Option<string> {
    if key in m then Some(m[key]) else None
  }

  lemma {:induction false} FirstDefaultSnoc(defaults: seq<Member>, last: Member, key: string)
    ensures FirstDefault(defaults + [last], key)
         == if FirstDefault(defaults, key).Some? then FirstDefault(defaults, key)
            else if last.0 == key then DefaultText(last.1) else None
    decreases defaults
  {
    var all := defaults + [last];
    if defaults == [] {
      assert all[1..] == [];
    } else {
      assert all[1..] == defaults[1..] + [last];
      FirstDefaultSnoc(defaults[1..], last, key);
    }
  }

  lemma {:induction false} OwnValueSnoc(own: seq<Member>, last: Member, key: string)
    requires forall i :: 0 <= i < |own| ==> own[i].0 != last.0
    ensures OwnValue(own + [last], key) == if last.0 == key then OwnText(last.1) else OwnValue(own, key)
    decreases own
  {
    var all := own + [last];
    if own == [] {
      assert all[1..] == [];
    } else {
      assert all[1..] == own[1..] + [last];
      OwnValueSnoc(own[1..], last, key);
    }
  }

  /** The first loop: `insert` keeps the first value of a key. */
  method ModDefaults(defaults: seq<Member>) returns (vars: map<string, string>)
    ensures forall key :: Lookup(vars, key) == FirstDefault(defaults, key)
  {
    vars := map[];
    for i := 0 to |defaults|
      invariant forall key :: Lookup(vars, key) == FirstDefault(defaults[..i], key)
    {
      var (name, default) := defaults[i];
      ghost var before := vars;
      forall key ensures FirstDefault(defaults[..i + 1], key)
                      == if FirstDefault(defaults[..i], key).Some? then FirstDefault(defaults[..i], key)
                         else if name == key then DefaultText(default) else None
      {
        assert defaults[..i + 1] == defaults[..i] + [defaults[i]];
        FirstDefaultSnoc(defaults[..i], defaults[i], key);
      }
      assert Lookup(vars, name) == FirstDefault(defaults[..i], name);
      if default.JNull? {
        if name !in vars { vars := vars[name := ""]; }
      } else if default.JString? {
        if name !in vars { vars := vars[name := default.s]; }
      } else if default.JInt? {
        if name !in vars { vars := vars[name := IntText(default.i)]; }
      }
      assert forall key :: key != name ==> Lookup(vars, key) == Lookup(before, key);
    }
    assert defaults[..|defaults|] == defaults;
  }

  /** The second loop: the server's own values replace the defaults. */
  method OverlayVars(defaults: seq<Member>, own: seq<Member>) returns (vars: map<string, string>)
    requires DistinctNames(own)
    ensures forall key :: Lookup(vars, key) == VarOf(defaults, own, key)
    ensures forall i :: 0 <= i < |own| && own[i].1.JString? ==> own[i].0 in vars && vars[own[i].0] == own[i].1.s
    ensures forall i :: 0 <= i < |own| && own[i].1.JInt? ==>
              own[i].0 in vars && vars[own[i].0] == IntText(own[i].1.i)
    ensures forall i :: 0 <= i < |defaults| && !defaults[i].1.JOther?
                        && (forall k :: 0 <= k < i && defaults[k].0 == defaults[i].0 ==> defaults[k].1.JOther?)
                        && (forall k :: 0 <= k < |own| && own[k].0 == defaults[i].0 ==>
                              own[k].1.JNull? || own[k].1.JOther?) ==>
              && defaults[i].0 in vars
              && (defaults[i].1.JNull? ==> vars[defaults[i].0] == "")
              && (defaults[i].1.JString? ==> vars[defaults[i].0] == defaults[i].1.s)
              && (defaults[i].1.JInt? ==> vars[defaults[i].0] == IntText(defaults[i].1.i))
    ensures forall key :: key in vars ==>
              || (exists i :: 0 <= i < |own| && own[i].0 == key && (own[i].1.JString? || own[i].1.JInt?))
              || (exists i :: 0 <= i < |defaults| && defaults[i].0 == key && !defaults[i].1.JOther?)
  {
    vars := OverlayLoop(defaults, own);
    VarsByIndex(vars, defaults, own);
  }

  /** The two loops, one after the other. */
  method OverlayLoop(defaults: seq<Member>, own: seq<Member>) returns (vars: map<string, string>)
    requires DistinctNames(own)
    ensures forall key :: Lookup(vars, key) == VarOf(defaults, own, key)
  {
    vars := ModDefaults(defaults);
    for i := 0 to |own|
      invariant forall key :: Lookup(vars, key) == VarOf(defaults, own[..i], key)
    {
      var (name, value) := own[i];
      ghost var before := vars;
      forall key ensures OwnValue(own[..i + 1], key) == if name == key then OwnText(value) else OwnValue(own[..i], key)
      {
        assert own[..i + 1] == own[..i] + [own[i]];
        OwnValueSnoc(own[..i], own[i], key);
      }
      NotYetNamed(own, i, name);
      assert Lookup(vars, name) == VarOf(defaults, own[..i], name);
      if value.JString? {
        vars := vars[name := value.s];
      } else if value.JInt? {
        vars := vars[name := IntText(value.i)];
      }
      assert forall key :: key != name ==> Lookup(vars, key) == Lookup(before, key);
    }
    assert own[..|own|] == own;
  }

  lemma {:induction false} Unnamed(own: seq<Member>, name: string)
    requires forall i :: 0 <= i < |own| ==> own[i].0 != name
    ensures OwnValue(own, name) == None
    decreases own
  {
    if own != [] { Unnamed(own[1..], name); }
  }

  lemma NotYetNamed(own: seq<Member>, i: nat, name: string)
    requires DistinctNames(own) && i < |own| && own[i].0 == name
    ensures OwnValue(own[..i], name) == None
  {
    Unnamed(own[..i], name);
  }

  // ---------------------------------------------------------------- variables by index

  lemma {:induction false} OwnValueAt(own: seq<Member>, i: nat)
    requires DistinctNames(own) && i < |own|
    ensures OwnValue(own, own[i].0) == OwnText(own[i].1)
    decreases own
  {
    if i > 0 {
      assert own[0].0 != own[i].0;
      OwnValueAt(own[1..], i - 1);
    }
  }

  lemma {:induction false} OwnValueSome(own: seq<Member>, key: string) returns (i: nat)
    requires OwnValue(own, key).Some?
    ensures i < |own| && own[i].0 == key && OwnText(own[i].1) == OwnValue(own, key)
    decreases own
  {
    if own[0].0 == key {
      i := 0;
    } else {
      var j := OwnValueSome(own[1..], key);
      i := j + 1;
    }
  }

  lemma {:induction false} FirstDefaultAt(defaults: seq<Member>, i: nat)
    requires i < |defaults| && !defaults[i].1.JOther?
    requires forall k :: 0 <= k < i && defaults[k].0 == defaults[i].0 ==> defaults[k].1.JOther?
    ensures FirstDefault(defaults, defaults[i].0) == DefaultText(defaults[i].1)
    decreases defaults
  {
    if i > 0 {
      assert defaults[0].0 == defaults[i].0 ==> defaults[0].1.JOther?;
      FirstDefaultAt(defaults[1..], i - 1);
    }
  }

  lemma {:induction false} FirstDefaultSome(defaults: seq<Member>, key: string) returns (i: nat)
    requires FirstDefault(defaults, key).Some?
    ensures i < |defaults| && defaults[i].0 == key && !defaults[i].1.JOther?
    decreases defaults
  {
    if defaults[0].0 == key && DefaultText(defaults[0].1).Some? {
      i := 0;
    } else {
      var j := FirstDefaultSome(defaults[1..], key);
      i := j + 1;
    }
  }

  /** The server's own strings and numbers count. */
  ghost predicate OwnCount(vars: map<string, string>, own: seq<Member>) {
    forall i :: 0 <= i < |own| ==>
      && (own[i].1.JString? ==> own[i].0 in vars && vars[own[i].0] == own[i].1.s)
      && (own[i].1.JInt? ==> own[i].0 in vars && vars[own[i].0] == IntText(own[i].1.i))
  }

  /** Elsewhere the first null, string or number among the mod's defaults counts. */
  ghost predicate DefaultsCount(vars: map<string, string>, defaults: seq<Member>, own: seq<Member>) {
    forall i :: 0 <= i < |defaults| && !defaults[i].1.JOther?
                && (forall k :: 0 <= k < i && defaults[k].0 == defaults[i].0 ==> defaults[k].1.JOther?)
                && (forall k :: 0 <= k < |own| && own[k].0 == defaults[i].0 ==> own[k].1.JNull? || own[k].1.JOther?) ==>
      && defaults[i].0 in vars
      && (defaults[i].1.JNull? ==> vars[defaults[i].0] == "")
      && (defaults[i].1.JString? ==> vars[defaults[i].0] == defaults[i].1.s)
      && (defaults[i].1.JInt? ==> vars[defaults[i].0] == IntText(defaults[i].1.i))
  }

  /** There are no other variables. */
  ghost predicate NoOthers(vars: map<string, string>, defaults: seq<Member>, own: seq<Member>) {
    forall key :: key in vars ==>
      || (exists i :: 0 <= i < |own| && own[i].0 == key && (own[i].1.JString? || own[i].1.JInt?))
      || (exists i :: 0 <= i < |defaults| && defaults[i].0 == key && !defaults[i].1.JOther?)
  }

  lemma VarsByIndex(vars: map<string, string>, defaults: seq<Member>, own: seq<Member>)
    requires DistinctNames(own) && forall key :: Lookup(vars, key) == VarOf(defaults, own, key)
    ensures OwnCount(vars, own) && DefaultsCount(vars, defaults, own) && NoOthers(vars, defaults, own)
  {
    OwnByIndex(vars, defaults, own);
    DefaultsByIndex(vars, defaults, own);
    forall key | key in vars
      ensures || (exists i :: 0 <= i < |own| && own[i].0 == key && (own[i].1.JString? || own[i].1.JInt?))
              || (exists i :: 0 <= i < |defaults| && defaults[i].0 == key && !defaults[i].1.JOther?)
    {
      assert Lookup(vars, key) == VarOf(defaults, own, key);
      if OwnValue(own, key).Some? {
        var i := OwnValueSome(own, key);
        assert own[i].0 == key;
      } else {
        var i := FirstDefaultSome(defaults, key);
        assert defaults[i].0 == key;
      }
    }
  }

  lemma OwnByIndex(vars: map<string, string>, defaults: seq<Member>, own: seq<Member>)
    requires DistinctNames(own) && forall key :: Lookup(vars, key) == VarOf(defaults, own, key)
    ensures OwnCount(vars, own)
  {
    forall i | 0 <= i < |own|
      ensures own[i].1.JString? ==> own[i].0 in vars && vars[own[i].0] == own[i].1.s
      ensures own[i].1.JInt? ==> own[i].0 in vars && vars[own[i].0] == IntText(own[i].1.i)
    {
      OwnValueAt(own, i);
      assert Lookup(vars, own[i].0) == VarOf(defaults, own, own[i].0);
    }
  }

  lemma DefaultsByIndex(vars: map<string, string>, defaults: seq<Member>, own: seq<Member>)
    requires DistinctNames(own) && forall key :: Lookup(vars, key) == VarOf(defaults, own, key)
    ensures DefaultsCount(vars, defaults, own)
  {
    forall i | 0 <= i < |defaults| && !defaults[i].1.JOther?
               && (forall k :: 0 <= k < i && defaults[k].0 == defaults[i].0 ==> defaults[k].1.JOther?)
               && (forall k :: 0 <= k < |own| && own[k].0 == defaults[i].0 ==> own[k].1.JNull? || own[k].1.JOther?)
      ensures Lookup(vars, defaults[i].0) == DefaultText(defaults[i].1)
    {
      FirstDefaultAt(defaults, i);
      if OwnValue(own, defaults[i].0).Some? {
        var k := OwnValueSome(own, defaults[i].0);
      }
      assert Lookup(vars, defaults[i].0) == VarOf(defaults, own, defaults[i].0);
    }
  }

  // ---------------------------------------------------------------- settings

  type Setting = (string, string)

  /** The last value the reply gives for `key`. */
  function LastValue(settings: seq<Setting>, key: string): Option<string> {
    if settings == [] then None
    else
      var last := settings[|settings| - 1];
      if last.0 == key then Some(last.1) else LastValue(settings[..|settings| - 1], key)
  }

  /** Named settings take the reply's last value, the others stay. */
  ghost predicate SettingsTaken(before: map<string, string>, settings: seq<Setting>, after: map<string, string>) {
    forall key ::
      Lookup(after, key) == if LastValue(settings, key).Some? then LastValue(settings, key) else Lookup(before, key)
  }

  lemma SettingsStep(before: map<string, string>, settings: seq<Setting>, i: nat, after: map<string, string>)
    requires i < |settings| && SettingsTaken(before, settings[..i], after)
    ensures SettingsTaken(before, settings[..i + 1], after[settings[i].0 := settings[i].1])
  {
    var done := settings[..i + 1];
    assert done[..i] == settings[..i] && done[i] == settings[i];
    forall key
      ensures LastValue(done, key)
           == if settings[i].0 == key then Some(settings[i].1) else LastValue(settings[..i], key)
    {
    }
  }

  lemma {:induction false} LastValueAt(settings: seq<Setting>, i: nat)
    requires i < |settings| && forall k :: i < k < |settings| ==> settings[k].0 != settings[i].0
    ensures LastValue(settings, settings[i].0) == Some(settings[i].1)
    decreases settings
  {
    if i < |settings| - 1 {
      LastValueAt(settings[..|settings| - 1], i);
    }
  }

  lemma {:induction false} UnnamedSetting(settings: seq<Setting>, key: string)
    requires forall k :: 0 <= k < |settings| ==> settings[k].0 != key
    ensures LastValue(settings, key) == None
    decreases settings
  {
    if settings != [] { UnnamedSetting(settings[..|settings| - 1], key); }
  }

  /** By index: the last setting of a name counts, and no other name changes. */
  ghost predicate LastCounts(before: map<string, string>, settings: seq<Setting>, after: map<string, string>) {
    && (forall i :: 0 <= i < |settings| && (forall k :: i < k < |settings| ==> settings[k].0 != settings[i].0) ==>
          settings[i].0 in after && after[settings[i].0] == settings[i].1)
    && (forall key :: (forall k :: 0 <= k < |settings| ==> settings[k].0 != key) ==>
          (key in after <==> key in before) && (key in after ==> after[key] == before[key]))
  }

  lemma SettingsByIndex(before: map<string, string>, settings: seq<Setting>, after: map<string, string>)
    requires SettingsTaken(before, settings, after)
    ensures LastCounts(before, settings, after)
  {
    forall i | 0 <= i < |settings| && (forall k :: i < k < |settings| ==> settings[k].0 != settings[i].0)
      ensures settings[i].0 in after && after[settings[i].0] == settings[i].1
    {
      LastValueAt(settings, i);
      assert Lookup(after, settings[i].0) == Some(settings[i].1);
    }
    forall key | forall k :: 0 <= k < |settings| ==> settings[k].0 != key
      ensures (key in after <==> key in before) && (key in after ==> after[key] == before[key])
    {
      UnnamedSetting(settings, key);
      assert Lookup(after, key) == Lookup(before, key);
    }
  }

  // ---------------------------------------------------------------- the list

  datatype Game = Game(
    code: string, startCode: string, name: string, engine: string, engineVersion: string,
    steamAppId: nat, steamAppSetConfig: string, remoteRepository: string, localRepository: string)

  datatype GameMod = GameMod(
    id: nat, name: string, remoteRepository: string, localRepository: string,
    defaultStartCmdLinux: string, defaultStartCmdWindows: string)

  /** The fields `sync_from_api` copies without a condition. */
  datatype Profile = Profile(
    name: string, uuid: string, uuidShort: string,
    startCommand: string, stopCommand: string, forceStopCommand: string, restartCommand: string,
    game: Game, gameMod: GameMod, ip: string, rconPassword: string)

  /** One entry of the reply to `update_list`. */
  datatype Listing = Listing(
    held: S.Held, name: string, uuid: string, uuidShort: string, gameId: string, gameModId: nat,
    ip: string, rconPassword: string,
    startCommand: string, stopCommand: string, forceStopCommand: string, restartCommand: string,
    processActive: bool, serverPort: nat, queryPort: nat, rconPort: nat, dir: string, user: string)

  /** The fields only `update_list` sets. */
  datatype Place = Place(connectPort: nat, queryPort: nat, rconPort: nat, dir: string, user: string)

  const USHORT := 0x1_0000

  /** The ports are cut to 16 bits. */
  function ListedPlace(l: Listing): Place {
    Place(l.serverPort % USHORT, l.queryPort % USHORT, l.rconPort % USHORT, l.dir, l.user)
  }

  /** A listing names the game and its mod and knows no more of them. */
  function ListedProfile(l: Listing): Profile {
    Profile(l.name, l.uuid, l.uuidShort, l.startCommand, l.stopCommand, l.forceStopCommand, l.restartCommand,
            Game(l.gameId, "", "", "", "", 0, "", "", ""), GameMod(l.gameModId, "", "", "", "", ""),
            l.ip, l.rconPassword)
  }

  /** The reply to `sync_from_api`. */
  datatype Reply = Reply(
    shown: S.Held, updatedAt: int, profile: Profile, defaults: seq<Member>, vars: seq<Member>, settings: seq<Setting>)

  /** The result of the last check of a server's process. */
  datatype Check = Check(at: int, active: bool)

  class Server {
    const id: nat
    const place: Place
    var enabled: bool
    var installed: InstallStatus
    var blocked: bool
    var name: string
    var uuid: string
    var uuidShort: string
    var game: Game
    var gameMod: GameMod
    var ip: string
    var rconPassword: string
    var startCommand: string
    var stopCommand: string
    var forceStopCommand: string
    var restartCommand: string
    var processActive: bool
    var lastProcessCheck: int
    var vars: map<string, string>
    var settings: map<string, string>
    var updatedAt: int

    constructor (id: nat, l: Listing)
      ensures View() == S.Entry(l.held, 0) && this.id == id && Copied() == ListedProfile(l) && place == ListedPlace(l)
      ensures LastCheck() == Check(0, l.processActive) && vars == map[] && settings == map[]
      ensures enabled == l.held.enabled && installed == l.held.installed && blocked == l.held.blocked
      ensures place.connectPort == l.serverPort % 0x1_0000 && place.queryPort == l.queryPort % 0x1_0000
      ensures place.rconPort == l.rconPort % 0x1_0000 && place.dir == l.dir && place.user == l.user
      ensures name == l.name && uuid == l.uuid && uuidShort == l.uuidShort
      ensures game == Game(l.gameId, "", "", "", "", 0, "", "", "")
      ensures gameMod == GameMod(l.gameModId, "", "", "", "", "")
      ensures startCommand == l.startCommand && stopCommand == l.stopCommand
      ensures forceStopCommand == l.forceStopCommand && restartCommand == l.restartCommand
      ensures ip == l.ip && rconPassword == l.rconPassword
      ensures processActive == l.processActive && lastProcessCheck == 0 && updatedAt == 0
    {
      this.id := id;
      place := Place(l.serverPort % USHORT, l.queryPort % USHORT, l.rconPort % USHORT, l.dir, l.user);
      enabled, installed, blocked := l.held.enabled, l.held.installed, l.held.blocked;
      name, uuid, uuidShort := l.name, l.uuid, l.uuidShort;
      game, gameMod := Game(l.gameId, "", "", "", "", 0, "", "", ""), GameMod(l.gameModId, "", "", "", "", "");
      ip, rconPassword := l.ip, l.rconPassword;
      startCommand, stopCommand := l.startCommand, l.stopCommand;
      forceStopCommand, restartCommand := l.forceStopCommand, l.restartCommand;
      processActive, lastProcessCheck := l.processActive, 0;
      vars, settings, updatedAt := map[], map[], 0;
    }

    function View(): S.Entry
      reads this
    {
      S.Entry(S.Held(enabled, installed, blocked), updatedAt)
    }

    function Copied(): Profile
      reads this
    {
      Profile(name, uuid, uuidShort, startCommand, stopCommand, forceStopCommand, restartCommand,
              game, gameMod, ip, rconPassword)
    }

    function LastCheck(): Check
      reads this
    {
      Check(lastProcessCheck, processActive)
    }

    method SetSetting(name: string, value: string)
      modifies this`settings
      ensures settings == old(settings)[name := value]
    {
      settings := settings[name := value];
    }

    /** The row `sync_all` sends for the server. */
    method Row(timeDiff: int) returns (row: Sent)
      ensures row == SentRow(View(), LastCheck(), timeDiff)
      ensures row.installed == installed
      ensures if lastProcessCheck > timeDiff then row.check == Some(Check(lastProcessCheck - timeDiff, processActive))
              else row.check == None
    {
      var at := lastProcessCheck - timeDiff;
      if at > 0 {
        row := Sent(installed, Some(Check(at, processActive)));
      } else {
        row := Sent(installed, None);
      }
    }

    /** The stamp is taken in any case, the guarded fields only if it is newer. */
    method TakeHeld(shown: S.Held, updatedAt: int)
      modifies this`enabled, this`installed, this`blocked, this`updatedAt
      ensures View() == S.Taken(old(View()), S.Row(shown, updatedAt))
      ensures this.updatedAt == updatedAt
      ensures updatedAt > old(this.updatedAt) ==>
                enabled == shown.enabled && installed == shown.installed && blocked == shown.blocked
      ensures updatedAt <= old(this.updatedAt) ==>
                enabled == old(enabled) && installed == old(installed) && blocked == old(blocked)
    {
      if updatedAt > this.updatedAt {
        enabled := shown.enabled;
        installed := shown.installed;
        blocked := shown.blocked;
      }
      this.updatedAt := updatedAt;
    }

    method CopyProfile(p: Profile)
      modifies this`name, this`uuid, this`uuidShort, this`startCommand, this`stopCommand, this`forceStopCommand
      modifies this`restartCommand, this`game, this`gameMod, this`ip, this`rconPassword
      ensures Copied() == p
      ensures name == p.name && uuid == p.uuid && uuidShort == p.uuidShort && game == p.game && gameMod == p.gameMod
      ensures startCommand == p.startCommand && stopCommand == p.stopCommand
      ensures forceStopCommand == p.forceStopCommand && restartCommand == p.restartCommand
      ensures ip == p.ip && rconPassword == p.rconPassword
    {
      name, uuid, uuidShort := p.name, p.uuid, p.uuidShort;
      startCommand, stopCommand := p.startCommand, p.stopCommand;
      forceStopCommand, restartCommand := p.forceStopCommand, p.restartCommand;
      game := p.game;
      gameMod := p.gameMod;
      ip := p.ip;
      rconPassword := p.rconPassword;
    }

    method TakeSettings(settings: seq<Setting>)
      modifies this`settings
      ensures SettingsTaken(old(this.settings), settings, this.settings)
    {
      for i := 0 to |settings|
        invariant SettingsTaken(old(this.settings), settings[..i], this.settings)
      {
        SettingsStep(old(this.settings), settings, i, this.settings);
        SetSetting(settings[i].0, settings[i].1);
      }
      assert settings[..|settings|] == settings;
    }

    /** The new state of the record after an answered request. */
    method TakeReply(reply: Reply)
      requires DistinctNames(reply.vars)
      modifies this
      ensures View() == S.Taken(old(View()), S.Row(reply.shown, reply.updatedAt))
      ensures Copied() == reply.profile && LastCheck() == old(LastCheck())
      ensures forall key :: Lookup(vars, key) == VarOf(reply.defaults, reply.vars, key)
      ensures SettingsTaken(old(settings), reply.settings, settings)
      ensures OwnCount(vars, reply.vars) && DefaultsCount(vars, reply.defaults, reply.vars)
      ensures NoOthers(vars, reply.defaults, reply.vars) && LastCounts(old(settings), reply.settings, settings)
      ensures updatedAt == reply.updatedAt
      ensures reply.updatedAt > old(updatedAt) ==>
                && enabled == reply.shown.enabled && installed == reply.shown.installed
                && blocked == reply.shown.blocked
      ensures reply.updatedAt <= old(updatedAt) ==>
                enabled == old(enabled) && installed == old(installed) && blocked == old(blocked)
      ensures name == reply.profile.name && uuid == reply.profile.uuid && uuidShort == reply.profile.uuidShort
      ensures game == reply.profile.game && gameMod == reply.profile.gameMod
      ensures startCommand == reply.profile.startCommand && stopCommand == reply.profile.stopCommand
      ensures forceStopCommand == reply.profile.forceStopCommand && restartCommand == reply.profile.restartCommand
      ensures ip == reply.profile.ip && rconPassword == reply.profile.rconPassword
    {
      TakeHeld(reply.shown, reply.updatedAt);
      CopyProfile(reply.profile);
      var overlaid := OverlayVars(reply.defaults, reply.vars);
      vars := overlaid;
      TakeSettings(reply.settings);
      VarsByIndex(vars, reply.defaults, reply.vars);
      SettingsByIndex(old(settings), reply.settings, settings);
    }
  }

  // ---------------------------------------------------------------- sync_all

  /** One row of the PATCH; the check is sent in the panel's time, and only if it is past its epoch. */
  datatype Sent = Sent(installed: InstallStatus, check: Option<Check>)

  function SentRow(e: S.Entry, check: Check, timeDiff: int): Sent {
    var at := check.at - timeDiff;
    Sent(e.held.installed, if at > 0 then Some(Check(at, check.active)) else None)
  }

  /** The entries when the loop of `sync_all` has all but `todo` behind it. */
  ghost function RewrittenBut(local: map<nat, S.Entry>, rewrites: map<nat, int>, todo: set<nat>): map<nat, S.Entry>
    requires local.Keys == rewrites.Keys
  {
    map id | id in local :: if id in todo then local[id] else local[id].(updatedAt := rewrites[id])
  }

  /** What `sync_all` has collected for the panel by then. */
  ghost function SentBut(local: map<nat, S.Entry>, checks: map<nat, Check>, timeDiff: int, todo: set<nat>)
    : map<nat, Sent>
    requires local.Keys == checks.Keys
  {
    map id | id in local && id !in todo :: SentRow(local[id], checks[id], timeDiff)
  }

  lemma NothingRewritten(local: map<nat, S.Entry>, rewrites: map<nat, int>)
    requires local.Keys == rewrites.Keys
    ensures RewrittenBut(local, rewrites, local.Keys) == local
  {
  }

  lemma AllRewritten(local: map<nat, S.Entry>, rewrites: map<nat, int>)
    requires local.Keys == rewrites.Keys
    ensures RewrittenBut(local, rewrites, {}) == S.Rewritten(local, rewrites)
  {
  }

  lemma OneRewritten(local: map<nat, S.Entry>, rewrites: map<nat, int>, todo: set<nat>, id: nat)
    requires local.Keys == rewrites.Keys && id in todo && todo <= local.Keys
    ensures RewrittenBut(local, rewrites, todo)[id := local[id].(updatedAt := rewrites[id])]
         == RewrittenBut(local, rewrites, todo - {id})
  {
  }

  lemma OneSent(local: map<nat, S.Entry>, checks: map<nat, Check>, timeDiff: int, todo: set<nat>, id: nat)
    requires local.Keys == checks.Keys && id in todo && todo <= local.Keys
    ensures SentBut(local, checks, timeDiff, todo)[id := SentRow(local[id], checks[id], timeDiff)]
         == SentBut(local, checks, timeDiff, todo - {id})
  {
  }

  class GameServersList {
    var serversList: map<nat, Server>

    ghost predicate Valid()
      reads this
    {
      forall i, j :: i in serversList && j in serversList && serversList[i] == serversList[j] ==> i == j
    }

    ghost function Entries(): (m: map<nat, S.Entry>)
      reads this, serversList.Values
      ensures m.Keys == serversList.Keys
    {
      map id | id in serversList :: serversList[id].View()
    }

    ghost function Checks(): (m: map<nat, Check>)
      reads this, serversList.Values
      ensures m.Keys == serversList.Keys
    {
      map id | id in serversList :: serversList[id].LastCheck()
    }

    /** One round of the loop of `update_list`. */
    method UpdateOne(serverId: nat, l: Listing)
      requires Valid()
      modifies this`serversList
      ensures Valid() && Entries() == S.Joined(old(Entries()), serverId, l.held)
      ensures forall id :: id in old(serversList) ==> id in serversList && serversList[id] == old(serversList)[id]
      ensures forall id :: id in serversList ==> id in old(serversList) || fresh(serversList[id])
      ensures serverId !in old(serversList) ==>
                var server := serversList[serverId];
                && server.Copied() == ListedProfile(l) && server.place == ListedPlace(l)
                && server.LastCheck() == Check(0, l.processActive)
                && server.vars == map[] && server.settings == map[]
      ensures serverId !in old(serversList) ==>
                var server := serversList[serverId];
                && server.id == serverId && server.updatedAt == 0 && server.lastProcessCheck == 0
                && server.enabled == l.held.enabled && server.installed == l.held.installed
                && server.blocked == l.held.blocked && server.processActive == l.processActive
                && server.place.connectPort == l.serverPort % 0x1_0000
                && server.place.queryPort == l.queryPort % 0x1_0000
                && server.place.rconPort == l.rconPort % 0x1_0000
                && server.place.dir == l.dir && server.place.user == l.user
                && server.name == l.name && server.uuid == l.uuid && server.uuidShort == l.uuidShort
                && server.game == Game(l.gameId, "", "", "", "", 0, "", "", "")
                && server.gameMod == GameMod(l.gameModId, "", "", "", "", "")
                && server.startCommand == l.startCommand && server.stopCommand == l.stopCommand
                && server.forceStopCommand == l.forceStopCommand && server.restartCommand == l.restartCommand
                && server.ip == l.ip && server.rconPassword == l.rconPassword
    {
      if serverId !in serversList {
        ghost var before := Entries();
        var server := new Server(serverId, l);
        serversList := serversList[serverId := server];
        assert forall id :: id in before ==> serversList[id].View() == before[id];
      }
    }

    /** `None` is a failed request or an empty reply. */
    method SyncFromApi(serverId: nat, reply: Option<Reply>)
      requires Valid() && serverId in serversList && (reply.Some? ==> DistinctNames(reply.value.vars))
      modifies serversList[serverId]
      ensures var server := serversList[serverId];
              if reply.None? then unchanged(server)
              else
                && Entries() == old(Entries())[serverId :=
                     S.Taken(old(Entries())[serverId], S.Row(reply.value.shown, reply.value.updatedAt))]
                && server.Copied() == reply.value.profile && server.LastCheck() == old(server.LastCheck())
                && (forall key :: Lookup(server.vars, key) == VarOf(reply.value.defaults, reply.value.vars, key))
                && SettingsTaken(old(server.settings), reply.value.settings, server.settings)
      ensures reply.Some? ==>
                var server, r := serversList[serverId], reply.value;
                && OwnCount(server.vars, r.vars) && DefaultsCount(server.vars, r.defaults, r.vars)
                && NoOthers(server.vars, r.defaults, r.vars)
                && LastCounts(old(server.settings), r.settings, server.settings)
      ensures reply.Some? ==>
                var server, r := serversList[serverId], reply.value;
                && server.updatedAt == r.updatedAt
                && (r.updatedAt > old(server.updatedAt) ==>
                      && server.enabled == r.shown.enabled && server.installed == r.shown.installed
                      && server.blocked == r.shown.blocked)
                && (r.updatedAt <= old(server.updatedAt) ==>
                      && server.enabled == old(server.enabled) && server.installed == old(server.installed)
                      && server.blocked == old(server.blocked))
      ensures reply.Some? ==>
                var server, p := serversList[serverId], reply.value.profile;
                && server.name == p.name && server.uuid == p.uuid && server.uuidShort == p.uuidShort
                && server.game == p.game && server.gameMod == p.gameMod
                && server.startCommand == p.startCommand && server.stopCommand == p.stopCommand
                && server.forceStopCommand == p.forceStopCommand && server.restartCommand == p.restartCommand
                && server.ip == p.ip && server.rconPassword == p.rconPassword
    {
      if reply.None? {
        return;
      }
      serversList[serverId].TakeReply(reply.value);
    }

    /** The loop of `sync_all`; `rewrites` are the clock readings, the result is what is sent. */
    method SyncAll(rewrites: map<nat, int>, timeDiff: int) returns (sent: map<nat, Sent>)
      requires Valid() && rewrites.Keys == serversList.Keys
      modifies serversList.Values
      ensures Entries() == S.Rewritten(old(Entries()), rewrites) && Checks() == old(Checks())
      ensures sent == SentBut(old(Entries()), old(Checks()), timeDiff, {})
    {
      sent := map[];
      ghost var start := Entries();
      var todo := serversList.Keys;
      NothingRewritten(start, rewrites);
      while todo != {}
        invariant todo <= serversList.Keys && Checks() == old(Checks())
        invariant sent == SentBut(start, old(Checks()), timeDiff, todo)
        invariant Entries() == RewrittenBut(start, rewrites, todo)
        decreases todo
      {
        var id :| id in todo;
        OneRewritten(start, rewrites, todo, id);
        OneSent(start, old(Checks()), timeDiff, todo, id);
        assert Entries()[id] == start[id];
        var row := SyncOne(id, rewrites[id], timeDiff);
        sent := sent[id := row];
        todo := todo - {id};
      }
      AllRewritten(start, rewrites);
    }

    /** One round of the loop: the row of one server and its new stamp. */
    method SyncOne(id: nat, at: int, timeDiff: int) returns (row: Sent)
      requires Valid() && id in serversList
      modifies serversList[id]
      ensures row == SentRow(old(Entries())[id], old(Checks())[id], timeDiff)
      ensures Entries() == old(Entries())[id := old(Entries())[id].(updatedAt := at)]
      ensures Checks() == old(Checks())
    {
      row := serversList[id].Row(timeDiff);
      Touch(id, at);
    }

    method Touch(id: nat, at: int)
      requires Valid() && id in serversList
      modifies serversList[id]
      ensures Entries() == old(Entries())[id := old(Entries())[id].(updatedAt := at)]
      ensures Checks() == old(Checks())
    {
      serversList[id].updatedAt := at;
    }

    method SetInstallStatus(serverId: nat, status: InstallStatus, at: int, rewrites: map<nat, int>, timeDiff: int)
      returns (sent: map<nat, Sent>)
      requires Valid() && rewrites.Keys == serversList.Keys
      modifies serversList.Values
      ensures Checks() == old(Checks())
      ensures serverId !in serversList ==> Entries() == old(Entries()) && sent == map[]
      ensures serverId in serversList ==>
                var written := old(Entries())[serverId := S.Installed(old(Entries())[serverId], status, at)];
                && Entries() == S.Rewritten(written, rewrites)
                && sent == SentBut(written, old(Checks()), timeDiff, {})
    {
      if serverId !in serversList {
        return map[];
      }
      serversList[serverId].installed := status;
      serversList[serverId].updatedAt := at;
      assert Entries() == old(Entries())[serverId := S.Installed(old(Entries())[serverId], status, at)];
      assert Checks() == old(Checks());
      sent := SyncAll(rewrites, timeDiff);
    }
  }

  // ---------------------------------------------------------------- runs of the list

  /** The calls that change a record, and the panel's own edits. */
  datatype Call =
    | Listed(id: nat, l: Listing)
    | PanelEdit(id: nat, shown: S.Held, at: int)
    | SetInstallStatus(id: nat, status: InstallStatus, at: int, rewrites: map<nat, int>, patch: S.Patch, end: int)
    | SyncAll(rewrites: map<nat, int>, patch: S.Patch, end: int)
    | SyncFromApi(
        id: nat, reached: bool, profile: Profile, defaults: seq<Member>, vars: seq<Member>, settings: seq<Setting>)

  function OpOf(c: Call): S.Op {
    match c
    case Listed(id, l) => S.Listed(id, l.held)
    case PanelEdit(id, shown, at) => S.PanelEdit(id, shown, at)
    case SetInstallStatus(id, status, at, rewrites, patch, end) =>
      S.SetInstallStatus(id, status, at, rewrites, patch, end)
    case SyncAll(rewrites, patch, end) => S.SyncAll(rewrites, patch, end)
    case SyncFromApi(id, reached, _, _, _, _) => S.SyncFromApi(id, reached)
  }

  function Ops(calls: seq<Call>): (ops: seq<S.Op>)
    ensures |ops| == |calls|
    ensures forall i :: 0 <= i < |ops| ==> ops[i] == OpOf(calls[i])
  {
    seq(|calls|, i requires 0 <= i < |calls| => OpOf(calls[i]))
  }

  lemma OpsGrow(calls: seq<Call>, i: nat)
    requires i < |calls|
    ensures Ops(calls[..i + 1]) == Ops(calls[..i]) + [OpOf(calls[i])]
  {
  }

  lemma {:induction false} AllowedPrefix(s: S.State, ops: seq<S.Op>, i: nat)
    requires S.AllowedRun(s, ops) && i <= |ops|
    ensures S.AllowedRun(s, ops[..i])
    decreases ops
  {
    if i < |ops| {
      AllowedPrefix(s, ops[..|ops| - 1], i);
      assert ops[..|ops| - 1][..i] == ops[..i];
    } else {
      assert ops[..i] == ops;
    }
  }

  /** The reply to a request, made from the panel's row. */
  function ReplyOf(c: Call, r: S.Row): Reply
    requires c.SyncFromApi?
  {
    Reply(r.shown, r.stamp, c.profile, c.defaults, c.vars, c.settings)
  }

  /** The panel takes over the statuses sent, and gives rows new stamps as it likes. */
  function Receive(panel: map<nat, S.Row>, sent: map<nat, Sent>, patch: S.Patch): map<nat, S.Row> {
    if patch.Lost? then panel
    else
      map id | id in panel ::
        if id in sent then
          S.Row(panel[id].shown.(installed := sent[id].installed),
                if id in patch.stamps then patch.stamps[id] else panel[id].stamp)
        else panel[id]
  }

  lemma ReceiveIsPatched(panel: map<nat, S.Row>, local: map<nat, S.Entry>, checks: map<nat, Check>, timeDiff: int,
                         patch: S.Patch)
    requires local.Keys == checks.Keys
    ensures Receive(panel, SentBut(local, checks, timeDiff, {}), patch) == S.Patched(panel, local, patch)
  {
    var sent := SentBut(local, checks, timeDiff, {});
    assert forall id :: id in sent <==> id in local;
  }

  /** A sync of all servers, and what the panel makes of it. */
  method PerformSyncAll(list: GameServersList, c: Call, panel: map<nat, S.Row>, ghost clock: int, timeDiff: int)
    returns (panel': map<nat, S.Row>, ghost clock': int)
    requires c.SyncAll?
    requires list.Valid() && S.Allowed(S.State(list.Entries(), panel, clock), OpOf(c))
    modifies list.serversList.Values
    ensures list.Valid()
    ensures S.State(list.Entries(), panel', clock') == S.Next(S.State(old(list.Entries()), panel, clock), OpOf(c))
  {
    ghost var before, checks := list.Entries(), list.Checks();
    var sent := list.SyncAll(c.rewrites, timeDiff);
    ReceiveIsPatched(panel, before, checks, timeDiff, c.patch);
    panel', clock' := Receive(panel, sent, c.patch), c.end;
  }

  /** A write of the install status, and what the panel makes of it. */
  method PerformWrite(list: GameServersList, c: Call, panel: map<nat, S.Row>, ghost clock: int, timeDiff: int)
    returns (panel': map<nat, S.Row>, ghost clock': int)
    requires c.SetInstallStatus?
    requires list.Valid() && S.Allowed(S.State(list.Entries(), panel, clock), OpOf(c))
    modifies list.serversList.Values
    ensures list.Valid()
    ensures S.State(list.Entries(), panel', clock') == S.Next(S.State(old(list.Entries()), panel, clock), OpOf(c))
  {
    ghost var before, checks := list.Entries(), list.Checks();
    panel', clock' := panel, clock;
    if c.id in list.serversList {
      var sent := list.SetInstallStatus(c.id, c.status, c.at, c.rewrites, timeDiff);
      ReceiveIsPatched(panel, before[c.id := S.Installed(before[c.id], c.status, c.at)], checks, timeDiff, c.patch);
      panel', clock' := Receive(panel, sent, c.patch), c.end;
    }
  }

  /** One call against a panel. */
  method Perform(list: GameServersList, c: Call, panel: map<nat, S.Row>, ghost clock: int, timeDiff: int)
    returns (panel': map<nat, S.Row>, ghost clock': int)
    requires list.Valid() && S.Allowed(S.State(list.Entries(), panel, clock), OpOf(c))
    requires c.SyncFromApi? ==> DistinctNames(c.vars)
    modifies list, list.serversList.Values
    ensures list.Valid()
    ensures S.State(list.Entries(), panel', clock') == S.Next(S.State(old(list.Entries()), panel, clock), OpOf(c))
    ensures forall id :: id in list.serversList ==>
              list.serversList[id] in old(list.serversList.Values) || fresh(list.serversList[id])
  {
    panel', clock' := panel, clock;
    if c.SyncAll? {
      panel', clock' := PerformSyncAll(list, c, panel, clock, timeDiff);
    } else if c.SetInstallStatus? {
      panel', clock' := PerformWrite(list, c, panel, clock, timeDiff);
    } else if c.Listed? {
      list.UpdateOne(c.id, c.l);
    } else if c.PanelEdit? {
      panel', clock' := panel[c.id := S.Row(c.shown, c.at)], c.at;
    } else if c.id in list.serversList && c.id in panel {
      list.SyncFromApi(c.id, if c.reached then Some(ReplyOf(c, panel[c.id])) else None);
    }
  }

  /** Calls in any order, from an empty list: the object and the panel go through the states of the
      run of `ServersSync`, so its theorems are about the class. */
  method Serve(list: GameServersList, calls: seq<Call>, panel: map<nat, S.Row>, ghost clock: int, timeDiff: int)
    returns (panel': map<nat, S.Row>, ghost clock': int)
    requires list.Valid() && list.serversList == map[]
    requires S.AllowedRun(S.State(map[], panel, clock), Ops(calls))
    requires forall i :: 0 <= i < |calls| && calls[i].SyncFromApi? ==> DistinctNames(calls[i].vars)
    modifies list
    ensures list.Valid()
    ensures S.State(list.Entries(), panel', clock') == S.Run(S.State(map[], panel, clock), Ops(calls))
  {
    ghost var start := S.State(map[], panel, clock);
    panel', clock' := panel, clock;
    assert list.Entries() == map[] && Ops(calls[..0]) == [];
    for i := 0 to |calls|
      invariant list.Valid()
      invariant forall id :: id in list.serversList ==> fresh(list.serversList[id])
      invariant S.State(list.Entries(), panel', clock') == S.Run(start, Ops(calls[..i]))
    {
      StepAllowed(start, calls, i);
      panel', clock' := Perform(list, calls[i], panel', clock', timeDiff);
    }
    assert calls[..|calls|] == calls;
  }

  lemma StepAllowed(s: S.State, calls: seq<Call>, i: nat)
    requires i < |calls| && S.AllowedRun(s, Ops(calls))
    ensures S.Allowed(S.Run(s, Ops(calls[..i])), OpOf(calls[i]))
    ensures S.Run(s, Ops(calls[..i + 1])) == S.Next(S.Run(s, Ops(calls[..i])), OpOf(calls[i]))
  {
    OpsGrow(calls, i);
    assert Ops(calls)[..i + 1] == Ops(calls[..i + 1]);
    AllowedPrefix(s, Ops(calls), i + 1);
    S.RunGrows(s, Ops(calls[..i]), OpOf(calls[i]));
  }
}
