/** One managed Minecraft server: its lifecycle status, the output-line
    rules that drive it, the once-per-tick reconciliation and the derived
    player view.  The operating-system process is the `ServerProcess`
    handle; output lines, process exits and ticks arrive as method calls. */
module ServerInteraction {
  import opened Exceptions
  import opened Text
  import opened OrderedDicts
  import opened PropertyHandler
  import opened ServerProcessing
  import opened Models

  /** The line the server prints once it accepts commands. */
  const HelpMarker := "For help, type \"help\""
  /** The line the server prints when it begins to stop. */
  const StoppingMarker := "[Server thread/INFO]: Stopping the server"
  /** The line the server prints once every dimension is written to disk. */
  const SavedMarker := "[Server thread/INFO]: ThreadedAnvilChunkStorage: All dimensions are saved"

  /** The `maxlen` of the output log. */
  const LogCapacity := 128

  // ---------------------------------------------------------------------
  // The output log

  /** The newest `LogCapacity` entries of `xs`. */
  function Newest(xs: seq<string>): (r: seq<string>)
    ensures |r| == if |xs| <= LogCapacity then |xs| else LogCapacity
  {
    if |xs| <= LogCapacity then xs else xs[|xs| - LogCapacity..]
  }

  /** `log.append(line)` on a deque of bounded length: when it is full, the
      oldest entry is dropped. */
  function AppendCapped(log: seq<string>, line: string): (r: seq<string>)
    requires |log| <= LogCapacity
    ensures |r| == if |log| < LogCapacity then |log| + 1 else LogCapacity
  {
    if |log| < LogCapacity then log + [line] else log[1..] + [line]
  }

  /** The log after each of `lines` is appended in turn. */
  function AppendAllCapped(log: seq<string>, lines: seq<string>): (r: seq<string>)
    requires |log| <= LogCapacity
    decreases |lines|
  {
    if lines == [] then log else AppendAllCapped(AppendCapped(log, lines[0]), lines[1..])
  }

  lemma NewestOfNewest(a: seq<string>, b: seq<string>)
    ensures Newest(Newest(a) + b) == Newest(a + b)
  {
    var na := Newest(a);
    assert na == a[|a| - |na|..];
    assert na + b == (a + b)[|a| - |na|..];
  }

  /** One append keeps the newest entries. */
  lemma AppendCappedIsNewest(log: seq<string>, line: string)
    requires |log| <= LogCapacity
    ensures AppendCapped(log, line) == Newest(log + [line])
  {
  }

  /** However many lines arrive, the log holds exactly the newest
      `LogCapacity` of them, oldest first. */
  lemma {:induction false} CappedLogKeepsNewest(log: seq<string>, lines: seq<string>)
    requires |log| <= LogCapacity
    ensures AppendAllCapped(log, lines) == Newest(log + lines)
    decreases |lines|
  {
    if lines == [] {
      assert log + lines == log;
    } else {
      var first := log + [lines[0]];
      var next := AppendCapped(log, lines[0]);
      AppendCappedIsNewest(log, lines[0]);
      CappedLogKeepsNewest(next, lines[1..]);
      NewestOfNewest(first, lines[1..]);
      assert first + lines[1..] == log + lines;
    }
  }

  /** The `logs` text: the entries joined by newlines, with a final newline
      when there is any entry. */
  function Logs(log: seq<string>): string {
    Join(log, "\n") + (if log != [] then "\n" else "")
  }

  /** Each entry followed by its own newline. */
  function Lines(xs: seq<string>): string
    decreases |xs|
  {
    if xs == [] then "" else xs[0] + "\n" + Lines(xs[1..])
  }

  /** The `logs` text is every entry terminated by a newline, in order. */
  lemma {:induction false} LogsAreLines(log: seq<string>)
    ensures Logs(log) == Lines(log)
    decreases |log|
  {
    if |log| == 1 {
      assert Lines(log[1..]) == "";
      assert Lines(log) == log[0] + "\n" + "";
    } else if |log| > 1 {
      LogsAreLines(log[1..]);
      assert Logs(log[1..]) == Join(log[1..], "\n") + "\n";
      assert Logs(log) == log[0] + "\n" + (Join(log[1..], "\n") + "\n");
    }
  }

  // ---------------------------------------------------------------------
  // Worlds

  /** A world folder of the server, identified by its name. */
  datatype World = World(name: string, path: string)

  /** `get_world(name)`: the first world with that name, if any. */
  function GetWorld(worlds: seq<World>, name: string): (r: Option<World>)
    ensures r.None? <==> forall k :: 0 <= k < |worlds| ==> worlds[k].name != name
    ensures r.Some? ==> r.value.name == name && r.value == worlds[FirstWorldIndex(worlds, name)]
    decreases |worlds|
  {
    if worlds == [] then None
    else if worlds[0].name == name then Some(worlds[0])
    else GetWorld(worlds[1..], name)
  }

  /** The index of the first world named `name` (`|worlds|` when there is none). */
  function FirstWorldIndex(worlds: seq<World>, name: string): (k: nat)
    ensures k <= |worlds|
    ensures forall j :: 0 <= j < k ==> worlds[j].name != name
    ensures k < |worlds| ==> worlds[k].name == name
    decreases |worlds|
  {
    if worlds == [] || worlds[0].name == name then 0 else 1 + FirstWorldIndex(worlds[1..], name)
  }

  // ---------------------------------------------------------------------
  // Status notifications

  /** The notifications a sequence of `set_status` calls sends, starting
      from status `s`: each request that differs from the current status. */
  function Notified(s: ServerStatus, targets: seq<ServerStatus>): seq<ServerStatus>
    decreases |targets|
  {
    if targets == [] then []
    else (if targets[0] != s then [targets[0]] else []) + Notified(targets[0], targets[1..])
  }

  /** The status after a sequence of `set_status` calls. */
  function Final(s: ServerStatus, targets: seq<ServerStatus>): ServerStatus {
    if targets == [] then s else targets[|targets| - 1]
  }

  lemma {:induction false} NotifiedSnoc(s: ServerStatus, a: seq<ServerStatus>, x: ServerStatus)
    ensures Notified(s, a + [x]) == Notified(s, a) + (if x != Final(s, a) then [x] else [])
    decreases |a|
  {
    if a == [] {
      assert Notified(x, []) == [];
    } else {
      assert (a + [x])[0] == a[0] && (a + [x])[1..] == a[1..] + [x];
      NotifiedSnoc(a[0], a[1..], x);
    }
  }

  /** Status subscribers never hear the same status twice in a row, never
      hear the status the server already had, and the last thing they heard
      is the current status. */
  lemma {:induction false} NotifiedChanges(s: ServerStatus, targets: seq<ServerStatus>)
    ensures var n := Notified(s, targets);
      && (n == [] ==> Final(s, targets) == s)
      && (n != [] ==> n[0] != s && n[|n| - 1] == Final(s, targets))
      && (forall k :: 0 < k < |n| ==> n[k] != n[k - 1])
    decreases |targets|
  {
    if targets != [] {
      NotifiedChanges(targets[0], targets[1..]);
    }
  }

  // ---------------------------------------------------------------------
  // The player view

  /** What `players` returns: the online players, the operators that are not
      banned, and the banned players. */
  datatype PlayersView = PlayersView(online: seq<Player>, ops: seq<OPPlayer>, banned: seq<BannedPlayer>)

  /** Some banned player has this name. */
  predicate NameBanned(banned: seq<BannedPlayer>, name: string)
    decreases |banned|
  {
    banned != [] && (banned[0].player.name == name || NameBanned(banned[1..], name))
  }

  /** The operators whose name no banned player has, in their order. */
  function UnbannedOps(ops: seq<OPPlayer>, banned: seq<BannedPlayer>): (r: seq<OPPlayer>)
    ensures |r| <= |ops|
    ensures forall k :: 0 <= k < |r| ==> !NameBanned(banned, r[k].player.name) && r[k] in ops
    ensures forall k :: 0 <= k < |ops| && !NameBanned(banned, ops[k].player.name) ==> ops[k] in r
    decreases |ops|
  {
    if ops == [] then []
    else
      var last := ops[|ops| - 1];
      UnbannedOps(ops[..|ops| - 1], banned) + (if NameBanned(banned, last.player.name) then [] else [last])
  }

  /** No operator before `k` has the name of operator `k`. */
  predicate FirstNamed(ops: seq<OPPlayer>, k: nat)
    requires k < |ops|
  {
    forall j :: 0 <= j < k ==> ops[j].player.name != ops[k].player.name
  }

  /** `next(p for p in ops if p.name == name)`, as an index. */
  function FindOp(ops: seq<OPPlayer>, name: string): (r: Option<nat>)
    ensures r.Some? ==> r.value < |ops| && ops[r.value].player.name == name && FirstNamed(ops, r.value)
    ensures r.None? ==> forall k :: 0 <= k < |ops| ==> ops[k].player.name != name
    decreases |ops|
  {
    if ops == [] then None
    else if ops[0].player.name == name then Some(0)
    else
      var r := FindOp(ops[1..], name);
      if r.None? then None else Some(r.value + 1)
  }

  /** Searching two lists whose names agree position by position finds the
      same index. */
  lemma {:induction false} FindOpSameNames(a: seq<OPPlayer>, b: seq<OPPlayer>, name: string)
    requires |a| == |b| && forall k :: 0 <= k < |a| ==> a[k].player.name == b[k].player.name
    ensures FindOp(a, name) == FindOp(b, name)
    decreases |a|
  {
    if a != [] {
      FindOpSameNames(a[1..], b[1..], name);
    }
  }

  function MarkOnline(op: OPPlayer): OPPlayer {
    op.(player := op.player.(isOnline := true))
  }

  /** An operator as `players` leaves it: marked online when some online
      name finds it first. */
  function OpAfter(ops: seq<OPPlayer>, k: nat, names: seq<string>): OPPlayer
    requires k < |ops|
  {
    if FirstNamed(ops, k) && ops[k].player.name in names then MarkOnline(ops[k]) else ops[k]
  }

  /** An online name as `players` reports it. */
  function OnlinePlayer(ops: seq<OPPlayer>, name: string): Player {
    Player(name, true, FindOp(ops, name).Some?, false)
  }

  /** The view `players` computes from the banned list, the operator list
      and the names the query reports. */
  function PlayersOf(banned: seq<BannedPlayer>, ops: seq<OPPlayer>, names: seq<string>): PlayersView {
    var filtered := UnbannedOps(ops, banned);
    PlayersView(
      seq(|names|, i requires 0 <= i < |names| => OnlinePlayer(filtered, names[i])),
      seq(|filtered|, k requires 0 <= k < |filtered| => OpAfter(filtered, k, names)),
      banned)
  }

  /** The operator list of the view holds no banned name, and every operator
      whose name is not banned is in it. */
  lemma PlayersOpsNotBanned(banned: seq<BannedPlayer>, ops: seq<OPPlayer>, names: seq<string>)
    ensures var v := PlayersOf(banned, ops, names);
      forall k :: 0 <= k < |v.ops| ==> !NameBanned(banned, v.ops[k].player.name)
    ensures var v := PlayersOf(banned, ops, names);
      forall k :: 0 <= k < |ops| && !NameBanned(banned, ops[k].player.name) ==>
        exists j :: 0 <= j < |v.ops| && v.ops[j].player.name == ops[k].player.name
  {
    var v := PlayersOf(banned, ops, names);
    var filtered := UnbannedOps(ops, banned);
    forall k | 0 <= k < |ops| && !NameBanned(banned, ops[k].player.name)
      ensures exists j :: 0 <= j < |v.ops| && v.ops[j].player.name == ops[k].player.name
    {
      var j :| 0 <= j < |filtered| && filtered[j] == ops[k];
      assert v.ops[j].player.name == filtered[j].player.name;
    }
  }

  /** Every queried name appears once, in query order, as an online player,
      and is an operator exactly when the operator list of the view has
      that name. */
  lemma PlayersOnline(banned: seq<BannedPlayer>, ops: seq<OPPlayer>, names: seq<string>)
    ensures var v := PlayersOf(banned, ops, names);
      && |v.online| == |names|
      && forall i :: 0 <= i < |names| ==>
           && v.online[i].name == names[i] && v.online[i].isOnline && !v.online[i].isBanned
           && (v.online[i].isOp <==> exists k :: 0 <= k < |v.ops| && v.ops[k].player.name == names[i])
  {
    var v := PlayersOf(banned, ops, names);
    var filtered := UnbannedOps(ops, banned);
    forall i | 0 <= i < |names|
      ensures v.online[i].isOp <==> exists k :: 0 <= k < |v.ops| && v.ops[k].player.name == names[i]
    {
      var r := FindOp(filtered, names[i]);
      if r.Some? {
        assert v.ops[r.value].player.name == names[i];
      } else {
        forall k | 0 <= k < |v.ops|
          ensures v.ops[k].player.name != names[i]
        {
          assert v.ops[k].player.name == filtered[k].player.name;
        }
      }
    }
  }

  /** Only the first operator of each online name is marked online; the
      others, and operators no online name matches, are left as they were. */
  lemma PlayersMarksFirstOp(banned: seq<BannedPlayer>, ops: seq<OPPlayer>, names: seq<string>, k: nat)
    requires k < |UnbannedOps(ops, banned)|
    ensures var filtered := UnbannedOps(ops, banned);
      var op := PlayersOf(banned, ops, names).ops[k];
      && op.player.name == filtered[k].player.name
      && op.opLevel == filtered[k].opLevel
      && (op.player.isOnline <==> filtered[k].player.isOnline || (filtered[k].player.name in names && FirstNamed(filtered, k)))
  {
  }

  /** The operators after the first `j` queried names are handled. */
  predicate MarkedUpTo(filtered: seq<OPPlayer>, marked: seq<OPPlayer>, names: seq<string>, j: nat)
    requires j <= |names|
  {
    |marked| == |filtered| && forall k :: 0 <= k < |filtered| ==> marked[k] == OpAfter(filtered, k, names[..j])
  }

  /** The online players built for the first `j` queried names. */
  predicate OnlineUpTo(filtered: seq<OPPlayer>, online: seq<Player>, names: seq<string>, j: nat)
    requires j <= |names|
  {
    |online| == j && forall n :: 0 <= n < j ==> online[n] == OnlinePlayer(filtered, names[n])
  }

  /** One queried name handled: the first operator with that name, found in
      the list being marked, is the one the specification marks, and the
      player built for the name is the specified one. */
  lemma MarkStep(filtered: seq<OPPlayer>, marked: seq<OPPlayer>, online: seq<Player>, names: seq<string>, j: nat,
                 found: Option<nat>, marked': seq<OPPlayer>, player: Player)
    requires j < |names| && MarkedUpTo(filtered, marked, names, j) && OnlineUpTo(filtered, online, names, j)
    requires found == FindOp(marked, names[j])
    requires found.Some? ==> marked' == marked[found.value := MarkOnline(marked[found.value])]
    requires found.None? ==> marked' == marked
    requires player == Player(names[j], true, found.Some?, false)
    ensures MarkedUpTo(filtered, marked', names, j + 1)
    ensures OnlineUpTo(filtered, online + [player], names, j + 1)
  {
    assert names[..j + 1] == names[..j] + [names[j]];
    FindOpSameNames(marked, filtered, names[j]);
  }

  lemma UnbannedOpsStep(ops: seq<OPPlayer>, banned: seq<BannedPlayer>, i: nat)
    requires i < |ops|
    ensures UnbannedOps(ops[..i + 1], banned) ==
              UnbannedOps(ops[..i], banned) + (if NameBanned(banned, ops[i].player.name) then [] else [ops[i]])
  {
    assert ops[..i + 1][..i] == ops[..i];
  }

  /** The two lists the loops of `players` build are the view. */
  lemma PlayersAssembled(banned: seq<BannedPlayer>, ops: seq<OPPlayer>, names: seq<string>,
                         online: seq<Player>, marked: seq<OPPlayer>)
    requires MarkedUpTo(UnbannedOps(ops, banned), marked, names, |names|)
    requires OnlineUpTo(UnbannedOps(ops, banned), online, names, |names|)
    ensures PlayersView(online, marked, banned) == PlayersOf(banned, ops, names)
  {
    assert names[..|names|] == names;
  }

  /** `players`: the operators are filtered against the ban list, then each
      queried name becomes an online player, and the first operator with
      that name is marked online. */
  method Players(banned: seq<BannedPlayer>, ops: seq<OPPlayer>, names: seq<string>) returns (view: PlayersView)
    ensures view == PlayersOf(banned, ops, names)
  {
    var filtered: seq<OPPlayer> := [];
    var i := 0;
    while i < |ops|
      invariant 0 <= i <= |ops|
      invariant filtered == UnbannedOps(ops[..i], banned)
    {
      UnbannedOpsStep(ops, banned, i);
      if !NameBanned(banned, ops[i].player.name) {
        filtered := filtered + [ops[i]];
      }
      i := i + 1;
    }
    assert ops[..i] == ops;
    var marked := filtered;
    var online: seq<Player> := [];
    var j := 0;
    while j < |names|
      invariant 0 <= j <= |names|
      invariant MarkedUpTo(filtered, marked, names, j)
      invariant OnlineUpTo(filtered, online, names, j)
    {
      var player := NewPlayer(names[j]).(isOnline := true);
      var found := FindOp(marked, names[j]);
      var marked' := marked;
      if found.Some? {
        marked' := marked[found.value := MarkOnline(marked[found.value])];
        player := player.(isOp := true);
      }
      MarkStep(filtered, marked, online, names, j, found, marked', player);
      marked := marked';
      online := online + [player];
      j := j + 1;
    }
    PlayersAssembled(banned, ops, names, online, marked);
    view := PlayersView(online, marked, banned);
  }

  // ---------------------------------------------------------------------
  // The server

  /** The resource usage the metrics subscribers get. */
  datatype SystemLoad = SystemLoad(cpuPercent: real, memoryTotal: int, memoryUsed: int, memoryServer: int)

  /** The usage reported while no process runs: every figure zero. */
  const IdleLoad := SystemLoad(0.0, 0, 0, 0)

  /** The handler `_reload_worlds` the status list starts with. */
  const ReloadWorlds := Handler(0, false)
  /** The handler `_update_status_callback` installed on a process's output. */
  const UpdateStatus := Handler(1, false)

  /** The statuses the reconciliation tick leaves alone. */
  predicate AtRest(s: ServerStatus) {
    s == Stopped || s == NotInstalled || s == Installing
  }

  /** The path of the server jar inside the server directory. */
  function JarPath(dir: string): string {
    PathJoin(dir, "server.jar")
  }

  /** The command line `start` launches: the heap fixed at `ram` megabytes. */
  function LaunchCommand(ram: int, jar: string): (c: seq<string>)
    ensures |c| == 6 && c[0] == "java" && c[3] == "-jar" && c[4] == jar && c[5] == "--nogui"
    ensures c[1] == "-Xmx" + IntToString(ram) + "M" && c[2] == "-Xms" + IntToString(ram) + "M"
  {
    ["java", "-Xmx" + IntToString(ram) + "M", "-Xms" + IntToString(ram) + "M", "-jar", jar, "--nogui"]
  }

  /** The number inside a heap option: what lies between the four-letter
      flag and the unit. */
  function OptionNumber(option: string): string
    requires |option| >= 5
  {
    option[4..|option| - 1]
  }

  lemma OptionNumberOf(flag: string, ram: int)
    requires |flag| == 4
    ensures OptionNumber(flag + IntToString(ram) + "M") == IntToString(ram)
  {
    var o := flag + IntToString(ram) + "M";
    assert o[4..|o| - 1] == IntToString(ram);
  }

  /** Both heap options carry the configured size, and it reads back with
      `int()`. */
  lemma LaunchCommandMemory(ram: int, jar: string)
    ensures var c := LaunchCommand(ram, jar);
      && ParseInt(OptionNumber(c[1])) == Some(ram)
      && OptionNumber(c[1]) == OptionNumber(c[2])
  {
    OptionNumberOf("-Xmx", ram);
    OptionNumberOf("-Xms", ram);
    ParseIntOfIntToString(ram);
  }

  /** `command.lstrip("/")` */
  function LStripSlashes(s: string): (r: string)
    ensures r == [] || r[0] != '/'
    ensures |r| <= |s| && forall i :: 0 <= i < |s| - |r| ==> s[i] == '/'
    ensures forall i :: 0 <= i < |r| ==> r[i] == s[|s| - |r| + i]
    decreases |s|
  {
    if s != [] && s[0] == '/' then LStripSlashes(s[1..]) else s
  }

  /** The statuses the output rules request for one line, in order. */
  function OutputTargets(s: ServerStatus, line: string): seq<ServerStatus> {
    (if s == Starting && Contains(line, HelpMarker) then [Running] else [])
    + (if Contains(line, StoppingMarker) then [Stopping] else [])
    + (if Contains(line, SavedMarker) then [Stopped] else [])
  }

  /** What a periodic category computes: `None` while it has no subscriber. */
  function PlayersValue(subscribers: nat, banned: seq<BannedPlayer>, ops: seq<OPPlayer>, names: seq<string>): Option<PlayersView> {
    if subscribers > 0 then Some(PlayersOf(banned, ops, names)) else None
  }

  function MetricsValue(subscribers: nat, running: bool, usage: SystemLoad): Option<SystemLoad> {
    if subscribers > 0 then Some(if running then usage else IdleLoad) else None
  }

  /** The five callback lists of a server. */
  class ServerCallbacks {
    const output: Callback<string>
    const status: Callback<ServerStatus>
    const properties: Callback<Table>
    const systemMetrics: Callback<Option<SystemLoad>>
    const players: Callback<Option<PlayersView>>

    constructor ()
      ensures fresh(output) && fresh(status) && fresh(properties) && fresh(systemMetrics) && fresh(players)
      ensures output.installed == [] && status.installed == [] && properties.installed == []
      ensures systemMetrics.installed == [] && players.installed == []
      ensures output.invocations == [] && status.invocations == [] && properties.invocations == []
      ensures systemMetrics.invocations == [] && players.invocations == []
    {
      output := new Callback();
      status := new Callback();
      properties := new Callback();
      systemMetrics := new Callback();
      players := new Callback();
    }
  }

  /** One managed server. */
  class MinecraftServer {
    /** The configuration, shared with the manager's data store. */
    const config: ServerConfig
    const properties: ServerProperties
    const callbacks: ServerCallbacks
    var status: ServerStatus
    var process: ServerProcess?
    /** The port the query client (`_mcstatus_server`) talks to, while one is bound. */
    var queryPort: Option<Value>
    var log: seq<string>
    var worlds: seq<World>
    /** The values the periodic categories last published (`old_variables`). */
    var lastPlayers: Option<PlayersView>
    var lastMetrics: Option<SystemLoad>

    /** The log stays within its bound and a process handle always holds a
        process. The property table keeps its own invariant
        (`ServerProperties.Valid`), which its operations preserve. */
    ghost predicate Valid()
      reads this`log, this`process, process
    {
      && |log| <= LogCapacity
      && (process != null ==> process.process.Some?)
    }

    /** `is_running`: a process handle whose process has no return code. */
    predicate IsRunning()
      requires Valid()
      reads this, properties, process
    {
      process != null && process.IsRunning()
    }

    /** `is_online`: running, and the status says so. */
    predicate IsOnline()
      requires Valid()
      reads this, properties, process
    {
      IsRunning() && status == Running
    }

    /** A server over an already loaded property table: `STOPPED` when the
        configuration says it is installed, `NOT_INSTALLED` otherwise, with
        `_reload_worlds` subscribed to status changes. */
    constructor (config: ServerConfig, properties: ServerProperties, worlds: seq<World>)
      requires properties.Valid()
      ensures Valid()
      ensures this.config == config && this.properties == properties && this.worlds == worlds
      ensures status == if config.installed then Stopped else NotInstalled
      ensures process == null && queryPort.None? && log == [] && lastPlayers.None? && lastMetrics.None?
      ensures fresh(callbacks) && fresh(callbacks.output) && fresh(callbacks.status)
      ensures fresh(callbacks.systemMetrics) && fresh(callbacks.players)
      ensures callbacks.status.installed == [ReloadWorlds] && callbacks.status.invocations == []
      ensures callbacks.output.installed == [] && callbacks.output.invocations == []
      ensures callbacks.players.installed == [] && callbacks.players.invocations == []
      ensures callbacks.systemMetrics.installed == [] && callbacks.systemMetrics.invocations == []
    {
      this.config := config;
      this.properties := properties;
      this.worlds := worlds;
      status := if config.installed then Stopped else NotInstalled;
      process := null;
      queryPort := None;
      log := [];
      lastPlayers := None;
      lastMetrics := None;
      callbacks := new ServerCallbacks();
      new;
      callbacks.status.AddCallback(ReloadWorlds);
    }

    /** `set_status(s)`: subscribers hear of it only when it is a change. */
    method SetStatus(s: ServerStatus)
      modifies this`status, callbacks.status
      ensures status == s
      ensures callbacks.status.invocations == old(callbacks.status.invocations) + Notified(old(status), [s])
      ensures callbacks.status.installed == Settle(old(callbacks.status.installed), |Notified(old(status), [s])|)
    {
      if status != s {
        status := s;
        var _ := callbacks.status.Invoke(s);
      }
    }

    /** `start()`: refused when a process runs, when the server is not
        installed, or when the jar is missing (`jarExists`); otherwise the
        properties are saved, the process is launched with the configured
        heap size, its output is routed to the status rules, and the status
        becomes `STARTING`. */
    method Start(jarExists: bool) returns (outcome: Outcome)
      requires Valid()
      modifies this`process, this`status, callbacks.status, properties`file
      ensures Valid()
      ensures outcome == Fail(ServerRunning) <==> old(IsRunning())
      ensures outcome == Fail(ServerNotInstalled) <==>
                !old(IsRunning()) && (old(status) == NotInstalled || old(status) == Installing)
      ensures outcome == Fail(FileNotFound) <==>
                !old(IsRunning()) && old(status) != NotInstalled && old(status) != Installing && !jarExists
      ensures outcome.Done? || outcome == Fail(ServerRunning) || outcome == Fail(ServerNotInstalled) || outcome == Fail(FileNotFound)
      ensures outcome.Fail? ==>
                && process == old(process) && status == old(status) && properties.file == old(properties.file)
                && callbacks.status.invocations == old(callbacks.status.invocations)
                && callbacks.status.installed == old(callbacks.status.installed)
      ensures outcome.Done? ==>
                && process != null && fresh(process) && fresh(process.callbacks.stdout)
                && process.process == Some(Child(LaunchCommand(config.ram, JarPath(config.path)), config.path, None))
                && process.monitorBound && process.callbacks.stdout.installed == [UpdateStatus]
                && IsRunning() && status == Starting
                && properties.file == Some(Serialize(properties.entries))
                && callbacks.status.invocations == old(callbacks.status.invocations) + Notified(old(status), [Starting])
                && callbacks.status.installed == Settle(old(callbacks.status.installed), |Notified(old(status), [Starting])|)
    {
      if IsRunning() {
        return Fail(ServerRunning);
      }
      if status == NotInstalled || status == Installing {
        return Fail(ServerNotInstalled);
      }
      var jar := JarPath(config.path);
      if !jarExists {
        return Fail(FileNotFound);
      }
      properties.Save();
      var command := LaunchCommand(config.ram, jar);
      var p := new ServerProcess(config.name);
      p.Start(command, config.path);
      p.callbacks.stdout.AddCallback(UpdateStatus);
      process := p;
      SetStatus(Starting);
      outcome := Done;
    }

    /** `stop()`: only an online server is told to stop, and is then
        `STOPPING`; otherwise nothing changes. */
    method Stop()
      requires Valid()
      modifies process, this`status, callbacks.status
      ensures Valid() && process == old(process)
      ensures !old(IsOnline()) ==>
                && status == old(status) && callbacks.status.invocations == old(callbacks.status.invocations)
                && callbacks.status.installed == old(callbacks.status.installed)
                && (process != null ==> unchanged(process))
      ensures old(IsOnline()) ==>
                && process.written == old(process.written) + ["stop\n"]
                && process.process == old(process.process) && process.monitorBound == old(process.monitorBound)
                && process.systemMetrics == old(process.systemMetrics)
                && status == Stopping
                && callbacks.status.invocations == old(callbacks.status.invocations) + [Stopping]
                && callbacks.status.installed == Settle(old(callbacks.status.installed), 1)
    {
      if IsOnline() {
        assert Terminated("stop") == "stop\n" by {
          assert !EndsWith("stop", "\n");
        }
        process.SendInput("stop");
        SetStatus(Stopping);
      }
    }

    /** `send_command(command)`: forwarded, every leading slash removed, only
        while the server is online. */
    method SendCommand(command: string)
      requires Valid()
      modifies process
      ensures Valid() && process == old(process)
      ensures !old(IsOnline()) ==> process != null ==> unchanged(process)
      ensures old(IsOnline()) ==>
                && process.written == old(process.written) + [Terminated(LStripSlashes(command))]
                && process.process == old(process.process) && process.monitorBound == old(process.monitorBound)
                && process.systemMetrics == old(process.systemMetrics)
    {
      if IsOnline() {
        var c := command;
        if StartsWith(c, "/") {
          c := LStripSlashes(c);
        }
        process.SendInput(c);
      }
    }

    /** `kill()`: a running process is killed; the status is left alone. */
    method Kill()
      requires Valid()
      modifies process
      ensures Valid() && process == old(process) && status == old(status)
      ensures old(IsRunning()) ==>
                && process.process == Some(old(process.process.value).(returnCode := Some(-9)))
                && !process.monitorBound && process.written == old(process.written)
                && process.systemMetrics == old(process.systemMetrics)
      ensures !old(IsRunning()) ==> process != null ==> unchanged(process)
    {
      if IsRunning() {
        process.Kill();
      }
    }

    /** `shutdown(timeout)`: an online server is told to stop, then its
        liveness is polled once a second, at most `timeout` times; a process
        still alive after the last poll is killed, the status forced to
        `STOPPED` and the properties saved.  `exitsAt` is the environment:
        the process exits with `exitCode` during the sleep before poll
        number `exitsAt + 1`, if ever.  `polls` counts the liveness checks. */
    method Shutdown(timeout: nat, exitsAt: Option<nat>, exitCode: int) returns (polls: nat)
      requires Valid()
      modifies process, this`status, callbacks.status, properties`file
      ensures Valid() && process == old(process)
      ensures !old(IsOnline()) ==>
                && polls == 0 && status == old(status) && properties.file == old(properties.file)
                && callbacks.status.invocations == old(callbacks.status.invocations)
                && callbacks.status.installed == old(callbacks.status.installed)
                && (process != null ==> unchanged(process))
      ensures old(IsOnline()) ==>
                && process.written == old(process.written) + ["stop\n"]
                && process.systemMetrics == old(process.systemMetrics)
      ensures old(IsOnline()) && exitsAt.Some? && exitsAt.value < timeout ==>
                && polls == exitsAt.value + 1
                && process.process == Some(old(process.process.value).(returnCode := Some(exitCode)))
                && process.monitorBound == old(process.monitorBound)
                && status == Stopping && properties.file == old(properties.file)
                && callbacks.status.invocations == old(callbacks.status.invocations) + [Stopping]
                && callbacks.status.installed == Settle(old(callbacks.status.installed), 1)
      ensures old(IsOnline()) && !(exitsAt.Some? && exitsAt.value < timeout) ==>
                && polls == timeout
                && process.process == Some(old(process.process.value).(returnCode := Some(-9)))
                && !process.monitorBound
                && status == Stopped && properties.file == Some(Serialize(properties.entries))
                && callbacks.status.invocations == old(callbacks.status.invocations) + [Stopping, Stopped]
                && callbacks.status.installed == Settle(old(callbacks.status.installed), 2)
    {
      polls := 0;
      if !IsOnline() {
        return;
      }
      Stop();
      while polls < timeout
        invariant Valid() && process == old(process) && process != null
        invariant polls <= timeout && (exitsAt.None? || polls <= exitsAt.value)
        invariant process.process == old(process.process) && process.monitorBound == old(process.monitorBound)
        invariant process.written == old(process.written) + ["stop\n"]
        invariant process.systemMetrics == old(process.systemMetrics)
        invariant status == Stopping && properties.file == old(properties.file)
        invariant callbacks.status.invocations == old(callbacks.status.invocations) + [Stopping]
        invariant callbacks.status.installed == Settle(old(callbacks.status.installed), 1)
      {
        if exitsAt == Some(polls) {
          process.Exit(exitCode);
        }
        polls := polls + 1;
        if !IsRunning() {
          return;
        }
      }
      Kill();
      SetStatus(Stopped);
      SettleAdd(old(callbacks.status.installed), 1, 1);
      properties.Save();
    }

    /** `_update_status_callback(line)`: the line is logged and published,
        then the status rules for it apply. */
    method OnOutput(line: string)
      requires Valid()
      modifies this`log, this`status, this`process, this`queryPort, callbacks.output, callbacks.status, properties`file
      ensures Valid()
      ensures log == AppendCapped(old(log), line)
      ensures callbacks.output.invocations == old(callbacks.output.invocations) + [line]
      ensures callbacks.output.installed == Settle(old(callbacks.output.installed), 1)
      ensures StatusRulesApplied(old(status), old(process), old(queryPort), old(properties.file),
                                 old(callbacks.status.installed), old(callbacks.status.invocations), line)
    {
      log := AppendCapped(log, line);
      var _ := callbacks.output.Invoke(line);
      StatusRules(line);
    }

    /** The state the status rules for `line` leave, from status `s0`,
        process `p0`, query port `q0`, properties file `f0` and status
        subscribers `start` that had heard `heard`: the help marker makes a
        starting server `RUNNING` (binding the query client when
        `enable-query` is truthy), the stopping marker makes any server
        `STOPPING`, and the saved marker drops the process and the query
        client, makes the server `STOPPED` and saves the properties. */
    ghost predicate StatusRulesApplied(s0: ServerStatus, p0: ServerProcess?, q0: Option<Value>, f0: Option<string>,
                                       start: seq<Handler>, heard: seq<ServerStatus>, line: string)
      reads this, callbacks.status, properties
    {
      && (Contains(line, SavedMarker) ==> status == Stopped)
      && (!Contains(line, SavedMarker) && Contains(line, StoppingMarker) ==> status == Stopping)
      && (!Contains(line, SavedMarker) && !Contains(line, StoppingMarker) ==>
            status == if s0 == Starting && Contains(line, HelpMarker) then Running else s0)
      && Accounted(s0, start, heard, OutputTargets(s0, line))
      && (Contains(line, SavedMarker) ==>
            process == null && queryPort.None? && properties.file == Some(Serialize(properties.entries)))
      && (!Contains(line, SavedMarker) ==>
            && process == p0 && properties.file == f0
            && queryPort == if s0 == Starting && Contains(line, HelpMarker)
                               && Truthy(properties.Get("enable-query", VNone))
                            then Some(properties.Get("server-port", VNone)) else q0)
    }

    /** The three marker rules of `_update_status_callback`, in order. */
    method StatusRules(line: string)
      requires Valid()
      modifies this`status, this`process, this`queryPort, callbacks.status, properties`file
      ensures Valid()
      ensures StatusRulesApplied(old(status), old(process), old(queryPort), old(properties.file),
                                 old(callbacks.status.installed), old(callbacks.status.invocations), line)
    {
      ghost var s0 := status;
      ghost var start := callbacks.status.installed;
      ghost var heard := callbacks.status.invocations;
      ghost var t1, t2, t3;
      t1 := HelpRule(line, s0, start, heard);
      t2 := StoppingRule(line, s0, start, heard, t1);
      t3 := SavedRule(line, s0, start, heard, t2);
      assert t3 == OutputTargets(s0, line);
    }

    /** The status and its subscribers are as a series of `set_status`
        requests `targets`, starting from status `s0`, leaves them. */
    ghost predicate Accounted(s0: ServerStatus, start: seq<Handler>, heard: seq<ServerStatus>, targets: seq<ServerStatus>)
      reads this, callbacks.status
    {
      && status == Final(s0, targets)
      && callbacks.status.invocations == heard + Notified(s0, targets)
      && callbacks.status.installed == Settle(start, |Notified(s0, targets)|)
    }

    /** The help marker seen while starting: the query client is bound to
        the configured port when `enable-query` is truthy, and the server is
        `RUNNING`.  `targets` are the status requests made. */
    method HelpRule(line: string, ghost s0: ServerStatus, ghost start: seq<Handler>, ghost heard: seq<ServerStatus>)
      returns (ghost targets: seq<ServerStatus>)
      requires Accounted(s0, start, heard, [])
      modifies this`status, this`queryPort, callbacks.status
      ensures targets == if s0 == Starting && Contains(line, HelpMarker) then [Running] else []
      ensures Accounted(s0, start, heard, targets)
      ensures queryPort == if s0 == Starting && Contains(line, HelpMarker) && Truthy(properties.Get("enable-query", VNone))
                           then Some(properties.Get("server-port", VNone)) else old(queryPort)
    {
      targets := [];
      if status == Starting && Contains(line, HelpMarker) {
        if Truthy(properties.Get("enable-query", VNone)) {
          queryPort := Some(properties.Get("server-port", VNone));
        }
        NotifiedSnoc(s0, [], Running);
        SettleStep(start, 0);
        SetStatus(Running);
        targets := [Running];
      }
    }

    /** The stopping marker seen: the server is `STOPPING`, whatever its status. */
    method StoppingRule(line: string, ghost s0: ServerStatus, ghost start: seq<Handler>, ghost heard: seq<ServerStatus>,
                        ghost prior: seq<ServerStatus>)
      returns (ghost targets: seq<ServerStatus>)
      requires Accounted(s0, start, heard, prior)
      modifies this`status, callbacks.status
      ensures targets == prior + if Contains(line, StoppingMarker) then [Stopping] else []
      ensures Accounted(s0, start, heard, targets)
    {
      targets := prior;
      if Contains(line, StoppingMarker) {
        NotifiedSnoc(s0, prior, Stopping);
        SettleStep(start, |Notified(s0, prior)|);
        SetStatus(Stopping);
        targets := prior + [Stopping];
      }
    }

    /** The saved marker seen: the process handle and the query client are
        dropped, the server is `STOPPED` and the properties are saved. */
    method SavedRule(line: string, ghost s0: ServerStatus, ghost start: seq<Handler>, ghost heard: seq<ServerStatus>,
                     ghost prior: seq<ServerStatus>)
      returns (ghost targets: seq<ServerStatus>)
      requires Valid() && Accounted(s0, start, heard, prior)
      modifies this`status, this`queryPort, this`process, callbacks.status, properties`file
      ensures Valid()
      ensures targets == prior + if Contains(line, SavedMarker) then [Stopped] else []
      ensures Accounted(s0, start, heard, targets)
      ensures Contains(line, SavedMarker) ==>
                process == null && queryPort.None? && properties.file == Some(Serialize(properties.entries))
      ensures !Contains(line, SavedMarker) ==>
                process == old(process) && queryPort == old(queryPort) && properties.file == old(properties.file)
    {
      targets := prior;
      if Contains(line, SavedMarker) {
        queryPort := None;
        process := null;
        NotifiedSnoc(s0, prior, Stopped);
        SettleStep(start, |Notified(s0, prior)|);
        SetStatus(Stopped);
        targets := prior + [Stopped];
        properties.Save();
      }
    }

    /** One pass of `_update_loop`: a server that should be up but whose
        process has exited is `STOPPED`; then each periodic category
        computes its value and calls its subscribers when the value differs
        from the one it last sent.  The player lists and resource usage the
        pass reads are parameters. */
    method Tick(usage: SystemLoad, banned: seq<BannedPlayer>, ops: seq<OPPlayer>, queried: seq<string>)
      requires Valid()
      modifies this`process, this`status, this`lastPlayers, this`lastMetrics
      modifies callbacks.status, callbacks.players, callbacks.systemMetrics
      ensures Valid()
      ensures !AtRest(old(status)) && !old(IsRunning()) ==>
                && process == null && status == Stopped
                && callbacks.status.invocations == old(callbacks.status.invocations) + [Stopped]
                && callbacks.status.installed == Settle(old(callbacks.status.installed), 1)
      ensures AtRest(old(status)) || old(IsRunning()) ==>
                && process == old(process) && status == old(status)
                && callbacks.status.invocations == old(callbacks.status.invocations)
                && callbacks.status.installed == old(callbacks.status.installed)
      ensures var v := PlayersValue(old(callbacks.players.Length()), banned, ops, if queryPort.Some? then queried else []);
                && lastPlayers == v
                && callbacks.players.invocations ==
                     old(callbacks.players.invocations) + (if v != old(lastPlayers) then [v] else [])
                && callbacks.players.installed ==
                     Settle(old(callbacks.players.installed), if v != old(lastPlayers) then 1 else 0)
      ensures var m := MetricsValue(old(callbacks.systemMetrics.Length()), IsRunning(), usage);
                && lastMetrics == m
                && callbacks.systemMetrics.invocations ==
                     old(callbacks.systemMetrics.invocations) + (if m != old(lastMetrics) then [m] else [])
                && callbacks.systemMetrics.installed ==
                     Settle(old(callbacks.systemMetrics.installed), if m != old(lastMetrics) then 1 else 0)
    {
      Reconcile();
      PublishPlayers(banned, ops, queried);
      PublishMetrics(usage);
    }

    /** A server that is neither at rest nor running has lost its process:
        the handle is dropped and the status becomes `STOPPED`. */
    method Reconcile()
      requires Valid()
      modifies this`process, this`status, callbacks.status
      ensures Valid()
      ensures !AtRest(old(status)) && !old(IsRunning()) ==>
                && process == null && status == Stopped
                && callbacks.status.invocations == old(callbacks.status.invocations) + [Stopped]
                && callbacks.status.installed == Dispatch(old(callbacks.status.installed), 0).0
      ensures AtRest(old(status)) || old(IsRunning()) ==>
                && process == old(process) && status == old(status)
                && callbacks.status.invocations == old(callbacks.status.invocations)
                && callbacks.status.installed == old(callbacks.status.installed)
    {
      if !AtRest(status) && !IsRunning() {
        process := null;
        SetStatus(Stopped);
      }
    }

    /** The `players` category: the player lists while somebody listens. */
    method PublishPlayers(banned: seq<BannedPlayer>, ops: seq<OPPlayer>, queried: seq<string>)
      modifies this`lastPlayers, callbacks.players
      ensures var v := PlayersValue(old(callbacks.players.Length()), banned, ops, if queryPort.Some? then queried else []);
                && lastPlayers == v
                && callbacks.players.invocations ==
                     old(callbacks.players.invocations) + (if v != old(lastPlayers) then [v] else [])
                && callbacks.players.installed ==
                     Settle(old(callbacks.players.installed), if v != old(lastPlayers) then 1 else 0)
    {
      var players: Option<PlayersView> := None;
      if callbacks.players.Length() > 0 {
        var view := Players(banned, ops, if queryPort.Some? then queried else []);
        players := Some(view);
      }
      lastPlayers := Publish(callbacks.players, players, lastPlayers);
    }

    /** The `system_metrics` category: the resource usage while somebody
        listens, the idle figures when the process is not running. */
    method PublishMetrics(usage: SystemLoad)
      requires Valid()
      modifies this`lastMetrics, callbacks.systemMetrics
      ensures var m := MetricsValue(old(callbacks.systemMetrics.Length()), IsRunning(), usage);
                && lastMetrics == m
                && callbacks.systemMetrics.invocations ==
                     old(callbacks.systemMetrics.invocations) + (if m != old(lastMetrics) then [m] else [])
                && callbacks.systemMetrics.installed ==
                     Settle(old(callbacks.systemMetrics.installed), if m != old(lastMetrics) then 1 else 0)
    {
      var metrics: Option<SystemLoad> := None;
      if callbacks.systemMetrics.Length() > 0 {
        metrics := Some(if IsRunning() then usage else IdleLoad);
      }
      lastMetrics := Publish(callbacks.systemMetrics, metrics, lastMetrics);
    }
  }

  /** The step `_update_loop` takes for each category: the subscribers are
      called only when `value` differs from the `last` value sent, and the
      value becomes the one last sent. */
  method Publish<T(==)>(cb: Callback<T>, value: T, last: T) returns (next: T)
    modifies cb
    ensures next == value
    ensures cb.invocations == old(cb.invocations) + (if value != last then [value] else [])
    ensures cb.installed == Settle(old(cb.installed), if value != last then 1 else 0)
  {
    if value != last {
      var _ := cb.Invoke(value);
    }
    next := value;
  }

  /** `MinecraftServer(config)`: the property table is read from
      `server.properties` in the server directory (`file` is its content,
      `None` when it does not exist); a malformed file makes construction
      fail with the parser's error. */
  method NewServer(config: ServerConfig, file: Option<string>, worlds: seq<World>) returns (r: Result<MinecraftServer>)
    ensures r.Ok? <==> ParseFile(file).Ok?
    ensures r.Err? ==> r.error == ParseFile(file).error
    ensures r.Ok? ==>
              && fresh(r.value) && fresh(r.value.properties) && fresh(r.value.callbacks)
              && fresh(r.value.callbacks.status)
              && r.value.callbacks.status.invocations == []
              && r.value.callbacks.status.installed == [ReloadWorlds]
              && r.value.Valid() && r.value.properties.Valid() && r.value.config == config
              && r.value.properties.entries == ParseFile(file).value
              && r.value.properties.fileName == PathJoin(config.path, "server.properties")
              && r.value.status == (if config.installed then Stopped else NotInstalled)
              && r.value.process == null && r.value.log == []
  {
    var loaded := Load(PathJoin(config.path, "server.properties"), file);
    if loaded.Err? {
      return Err(loaded.error);
    }
    var server := new MinecraftServer(config, loaded.value, worlds);
    return Ok(server);
  }
}
