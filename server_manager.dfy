/** The server manager (`ServerManager`): the registry of managed servers by
    sid, kept in step with the data store, and the operations that create,
    install, delete and stop them. */
module ServerManagement {
  import opened Exceptions
  import opened Text
  import opened OrderedDicts
  import opened Models
  import opened PropertyHandler
  import opened ServerInteraction
  import opened DataStore
  import opened Versions
  import opened ManagerModels
  import opened ServerProcessing

  /** The name part of a server directory: spaces become `_`, only letters
      and digits are kept, and surrounding whitespace is stripped. */
  function SanitizedName(name: string): (r: string)
    ensures forall i :: 0 <= i < |r| ==> IsAlnum(r[i])
  {
    var kept := FilterAlnum(ReplaceChar(name, ' ', '_'));
    AlnumUnstripped(kept);
    StripSpaces(kept)
  }

  /** `strip()` leaves a text of letters and digits alone. */
  lemma AlnumUnstripped(s: string)
    requires forall i :: 0 <= i < |s| ==> IsAlnum(s[i])
    ensures StripSpaces(s) == s
  {
    assert RStripSpaces(s) == s;
    assert LStripSpaces(s) == s;
  }

  lemma {:induction false} FilterIgnoresSpaces(s: string)
    ensures FilterAlnum(ReplaceChar(s, ' ', '_')) == FilterAlnum(s)
    decreases |s|
  {
    if s != [] {
      FilterIgnoresSpaces(s[1..]);
      assert ReplaceChar(s, ' ', '_')[1..] == ReplaceChar(s[1..], ' ', '_');
    }
  }

  /** The `_` the spaces become is dropped again: sanitising keeps exactly
      the letters and digits of the name. */
  lemma SanitizedIsFiltered(name: string)
    ensures SanitizedName(name) == FilterAlnum(name)
  {
    FilterIgnoresSpaces(name);
    AlnumUnstripped(FilterAlnum(ReplaceChar(name, ' ', '_')));
  }

  /** Two words joined by a space lose the space, as "My Server" becomes
      "MyServer". */
  lemma SanitizeDropsSpace(a: string, b: string)
    requires forall i :: 0 <= i < |a| ==> IsAlnum(a[i])
    requires forall i :: 0 <= i < |b| ==> IsAlnum(b[i])
    ensures SanitizedName(a + " " + b) == a + b
  {
    var sp: string := " ";
    var ab := a + sp;
    SanitizedIsFiltered(ab + b);
    FilterAlnumConcat(ab, b);
    FilterAlnumConcat(a, sp);
    FilterAlnumKeeps(a);
    FilterAlnumKeeps(b);
    assert FilterAlnum(sp) == [];
    assert FilterAlnum(ab) == a;
  }

  /** A new server's directory name: the sanitised name, `_`, the sid. */
  function DirName(name: string, sid: string): string {
    SanitizedName(name) + "_" + sid
  }

  /** Sanitising removes every `_` of the name, so a directory name splits
      back into the sanitised name and the sid. */
  lemma DirNameSplits(name: string, sid: string)
    requires '_' !in sid
    ensures Split(DirName(name, sid), '_') == [SanitizedName(name), sid]
  {
    var a := SanitizedName(name);
    assert forall i :: 0 <= i < |a| ==> a[i] != '_';
    assert DirName(name, sid) == a + ['_'] + sid;
    SplitOnce(a, sid, '_');
  }

  /** The sid text `str(n)` has no `_`. */
  lemma SidHasNoUnderscore(n: int)
    ensures '_' !in IntToString(n)
  {
    IntToStringChars(n);
  }

  /** The properties `create_new_server` assigns, in order: the world
      generation pairs, then the world directory and the query switch. */
  function NewServerSettings(w: WorldGenerationSettings): Table {
    Pairs(w) + [("level-name", VStr("worlds/world")), ("enable-query", VBool(true))]
  }

  /** After the assignments the world directory is `worlds/world`, the
      query is enabled, the world generation keys hold the settings, and
      every other key keeps its value from the loaded file. */
  lemma NewServerSettingsApplied(t: Table, w: WorldGenerationSettings)
    ensures Find(PutAll(t, NewServerSettings(w)), "level-name") == Some(VStr("worlds/world"))
    ensures Find(PutAll(t, NewServerSettings(w)), "enable-query") == Some(VBool(true))
    ensures Find(PutAll(t, NewServerSettings(w)), "level-seed") == Some(VStr(w.levelSeed))
    ensures Find(PutAll(t, NewServerSettings(w)), "level-type") == Some(VStr(w.levelType))
    ensures Find(PutAll(t, NewServerSettings(w)), "generate-structures") == Some(VBool(w.generateStructures))
    ensures forall k :: k != "level-seed" && k != "level-type" && k != "generate-structures" &&
                        k != "level-name" && k != "enable-query" ==>
              Find(PutAll(t, NewServerSettings(w)), k) == Find(t, k)
  {
    var tail: Table := [("level-name", VStr("worlds/world")), ("enable-query", VBool(true))];
    PutAllConcat(t, Pairs(w), tail);
    SettingsApplied(t, w);
    var t1 := PutAll(t, Pairs(w));
    var t2 := Put(t1, tail[0].0, tail[0].1);
    var t3 := Put(t2, tail[1].0, tail[1].1);
    assert PutAll(t1, tail) == PutAll(t2, tail[1..]);
    assert PutAll(t2, tail[1..]) == PutAll(t3, []);
  }

  function Servers(t: Dict<MinecraftServer>): (r: set<MinecraftServer>)
    ensures forall e :: e in t ==> e.1 in r
  {
    set e | e in t :: e.1
  }

  /** The process handles of the servers that have one. */
  function Handles(t: Dict<MinecraftServer>): (r: set<ServerProcess>)
    reads Servers(t)`process
    ensures forall e :: e in t && e.1.process != null ==> e.1.process in r
  {
    set e | e in t && e.1.process != null :: e.1.process
  }

  /** Every server of the registry is in a consistent state. */
  ghost predicate AllValid(t: Dict<MinecraftServer>)
    reads Servers(t)`log, Servers(t)`process, Handles(t)
  {
    forall e :: e in t ==> e.1.Valid()
  }

  lemma AllValidPut(t: Dict<MinecraftServer>, k: string, s: MinecraftServer)
    requires AllValid(t) && s.Valid()
    ensures AllValid(Put(t, k, s))
  {
    PutMembers(t, k, s);
  }

  lemma AllValidRemove(t: Dict<MinecraftServer>, k: string)
    requires AllValid(t)
    ensures AllValid(Remove(t, k))
  {
  }

  /** A sid both registries know names the same configuration object in
      both: the server and the data store share it. */
  ghost predicate Shared(servers: Dict<MinecraftServer>, configs: Dict<ServerConfig>) {
    forall k :: HasKey(servers, k) && HasKey(configs, k) ==> Find(servers, k).value.config == Find(configs, k).value
  }

  lemma SharedPut(servers: Dict<MinecraftServer>, configs: Dict<ServerConfig>, k: string, s: MinecraftServer)
    requires Shared(servers, configs)
    ensures Shared(Put(servers, k, s), Put(configs, k, s.config))
  {
  }

  lemma SharedRemove(servers: Dict<MinecraftServer>, configs: Dict<ServerConfig>, k: string)
    requires Shared(servers, configs)
    ensures Shared(Remove(servers, k), configs)
    ensures Shared(Remove(servers, k), Remove(configs, k))
  {
  }

  /** Two registries list the same sids in the same order, and each server
      holds the configuration object the store holds for its sid. */
  predicate Mirrors(servers: Dict<MinecraftServer>, configs: Dict<ServerConfig>) {
    && |servers| == |configs|
    && forall j :: 0 <= j < |servers| ==> servers[j].0 == configs[j].0 && servers[j].1.config == configs[j].1
  }

  lemma MirrorsSnoc(servers: Dict<MinecraftServer>, configs: Dict<ServerConfig>, i: nat, x: (string, MinecraftServer))
    requires i < |configs| && Mirrors(servers, configs[..i])
    requires x.0 == configs[i].0 && x.1.config == configs[i].1
    ensures Mirrors(servers + [x], configs[..i + 1])
  {
  }

  lemma {:induction false} MirrorsShared(servers: Dict<MinecraftServer>, configs: Dict<ServerConfig>)
    requires Mirrors(servers, configs)
    ensures forall k :: HasKey(servers, k) <==> HasKey(configs, k)
    ensures Shared(servers, configs)
    decreases |servers|
  {
    if servers != [] {
      MirrorsShared(servers[1..], configs[1..]);
    }
  }

  lemma {:induction false} MirrorsDistinct(servers: Dict<MinecraftServer>, configs: Dict<ServerConfig>)
    requires Mirrors(servers, configs) && Distinct(configs)
    ensures Distinct(servers)
    decreases |servers|
  {
    if servers != [] {
      MirrorsDistinct(servers[1..], configs[1..]);
      MirrorsShared(servers[1..], configs[1..]);
    }
  }

  /** The text of a server's `server.properties` among the files present. */
  function PropertiesFile(files: map<string, string>, path: string): (r: Option<string>)
    ensures r.Some? <==> PathJoin(path, "server.properties") in files
    ensures r.Some? ==> r.value == files[PathJoin(path, "server.properties")]
  {
    var name := PathJoin(path, "server.properties");
    if name in files then Some(files[name]) else None
  }

  /** Loading the property tables of `configs` in order: the first file that
      does not parse stops the loading with its error. */
  function LoadTables(files: map<string, string>, configs: Dict<ServerConfig>): (r: Result<seq<Table>>)
    ensures r.Ok? ==> |r.value| == |configs|
    decreases |configs|
  {
    if configs == [] then Ok([])
    else
      var init := LoadTables(files, configs[..|configs| - 1]);
      var last := ParseFile(PropertiesFile(files, configs[|configs| - 1].1.path));
      if init.Err? then init
      else if last.Err? then Err(last.error)
      else Ok(init.value + [last.value])
  }

  /** Loading succeeds exactly when every file parses. */
  lemma {:induction false} LoadTablesOk(files: map<string, string>, configs: Dict<ServerConfig>)
    ensures LoadTables(files, configs).Ok? <==>
              forall j :: 0 <= j < |configs| ==> ParseFile(PropertiesFile(files, configs[j].1.path)).Ok?
    decreases |configs|
  {
    if configs != [] {
      var n := |configs| - 1;
      var init := configs[..n];
      LoadTablesOk(files, init);
      var last := ParseFile(PropertiesFile(files, configs[n].1.path));
      assert LoadTables(files, configs).Ok? <==> LoadTables(files, init).Ok? && last.Ok?;
      assert forall j :: 0 <= j < n ==> init[j] == configs[j];
    }
  }

  /** A successful loading yields each file's table, in order. */
  lemma {:induction false} LoadTablesValues(files: map<string, string>, configs: Dict<ServerConfig>)
    requires LoadTables(files, configs).Ok?
    ensures forall j :: 0 <= j < |configs| ==>
              ParseFile(PropertiesFile(files, configs[j].1.path)) == Ok(LoadTables(files, configs).value[j])
    decreases |configs|
  {
    if configs != [] {
      var n := |configs| - 1;
      LoadTablesValues(files, configs[..n]);
      assert forall j :: 0 <= j < n ==> configs[..n][j] == configs[j];
    }
  }

  /** A failed loading fails with the error of the first file that does not
      parse. */
  lemma {:induction false} LoadTablesFirstError(files: map<string, string>, configs: Dict<ServerConfig>)
    requires LoadTables(files, configs).Err?
    ensures exists j :: 0 <= j < |configs| &&
              ParseFile(PropertiesFile(files, configs[j].1.path)) == Err(LoadTables(files, configs).error) &&
              forall k :: 0 <= k < j ==> ParseFile(PropertiesFile(files, configs[k].1.path)).Ok?
    decreases |configs|
  {
    var n := |configs| - 1;
    var init := configs[..n];
    assert forall j :: 0 <= j < n ==> init[j] == configs[j];
    if LoadTables(files, init).Err? {
      LoadTablesFirstError(files, init);
      var j :| 0 <= j < n &&
               ParseFile(PropertiesFile(files, init[j].1.path)) == Err(LoadTables(files, init).error) &&
               forall k :: 0 <= k < j ==> ParseFile(PropertiesFile(files, init[k].1.path)).Ok?;
      assert forall k :: 0 <= k < j ==> init[k] == configs[k];
    } else {
      LoadTablesOk(files, init);
    }
  }

  function PropertyObjects(t: Dict<MinecraftServer>): set<ServerProperties> {
    set e | e in t :: e.1.properties
  }

  /** Each server of `servers` holds the table at its index, its status
      follows the `installed` flag of the configuration at its index, and it
      has no process and an empty log. */
  ghost predicate LoadedFrom(servers: Dict<MinecraftServer>, tables: seq<Table>, configs: Dict<ServerConfig>)
    reads Servers(servers)`status, Servers(servers)`process, Servers(servers)`log
    reads PropertyObjects(servers)`entries, Configs(configs)`installed
  {
    forall j :: 0 <= j < |servers| && j < |tables| && j < |configs| ==>
      && servers[j].1.properties.entries == tables[j]
      && servers[j].1.status == (if configs[j].1.installed then Stopped else NotInstalled)
      && servers[j].1.process == null
      && servers[j].1.log == []
  }

  lemma LoadedFromSnoc(servers: Dict<MinecraftServer>, tables: seq<Table>, configs: Dict<ServerConfig>,
                       x: (string, MinecraftServer))
    requires LoadedFrom(servers, tables, configs) && |servers| == |tables| < |configs|
    requires x.1.status == (if configs[|servers|].1.installed then Stopped else NotInstalled)
    requires x.1.process == null && x.1.log == []
    ensures LoadedFrom(servers + [x], tables + [x.1.properties.entries], configs)
  {
    assert configs[|servers|].1 in Configs(configs);
  }

  /** Freshly loaded servers are each in a consistent state. */
  lemma LoadedValid(servers: Dict<MinecraftServer>, tables: seq<Table>, configs: Dict<ServerConfig>)
    requires LoadedFrom(servers, tables, configs) && |servers| <= |tables| && |servers| <= |configs|
    ensures AllValid(servers)
  {
    forall e | e in servers ensures e.1.Valid() {
      var j :| 0 <= j < |servers| && servers[j] == e;
    }
  }

  /** Loading one more configuration extends a successful loading by that
      file's table, and a failed loading stays failed. */
  lemma LoadTablesSnoc(files: map<string, string>, configs: Dict<ServerConfig>, i: nat)
    requires i < |configs|
    ensures var next := ParseFile(PropertiesFile(files, configs[i].1.path));
            LoadTables(files, configs[..i + 1]) ==
              if LoadTables(files, configs[..i]).Err? then LoadTables(files, configs[..i])
              else if next.Err? then Err(next.error)
              else Ok(LoadTables(files, configs[..i]).value + [next.value])
  {
    assert configs[..i + 1][..i] == configs[..i];
  }

  /** A failed loading of a prefix is the failure of the whole loading. */
  lemma {:induction false} LoadTablesFailed(files: map<string, string>, configs: Dict<ServerConfig>, i: nat)
    requires i <= |configs| && LoadTables(files, configs[..i]).Err?
    ensures LoadTables(files, configs) == LoadTables(files, configs[..i])
    decreases |configs| - i
  {
    if i < |configs| {
      LoadTablesSnoc(files, configs, i);
      LoadTablesFailed(files, configs, i + 1);
    } else {
      assert configs[..i] == configs;
    }
  }

  /** Configures a freshly registered server as `create_new_server` does:
      the world generation pairs, the world directory and the query switch
      are assigned in that order, the properties are saved, and the status
      becomes `STOPPED`. */
  method Configure(server: MinecraftServer, w: WorldGenerationSettings)
    requires server.Valid() && server.properties.Valid()
    modifies server`status, server.properties`entries, server.properties`file, server.callbacks.status
    ensures server.Valid() && server.properties.Valid()
    ensures server.properties.entries == PutAll(old(server.properties.entries), NewServerSettings(w))
    ensures server.properties.file == Some(Serialize(server.properties.entries))
    ensures server.status == Stopped
    ensures server.callbacks.status.invocations ==
              old(server.callbacks.status.invocations) + Notified(old(server.status), [Stopped])
    ensures server.callbacks.status.installed ==
              Settle(old(server.callbacks.status.installed), |Notified(old(server.status), [Stopped])|)
  {
    SetAll(server.properties, NewServerSettings(w));
    server.properties.Save();
    server.SetStatus(Stopped);
  }

  /** `properties.set(key, value)` for each pair, in order. */
  method SetAll(properties: ServerProperties, items: Table)
    requires properties.Valid()
    modifies properties`entries
    ensures properties.Valid()
    ensures properties.entries == PutAll(old(properties.entries), items)
  {
    var i := 0;
    while i < |items|
      invariant 0 <= i <= |items|
      invariant properties.Valid()
      invariant properties.entries == PutAll(old(properties.entries), items[..i])
    {
      assert items[..i + 1] == items[..i] + [items[i]];
      PutAllSnoc(old(properties.entries), items[..i], items[i]);
      properties.Set(items[i].0, items[i].1);
      i := i + 1;
    }
    assert items[..i] == items;
  }

  /** The server side of `install_server`: the status becomes
      `INSTALLING`; when the jar is to be fetched, a version without a
      download page fails and leaves the server `INSTALLING`; otherwise the
      status becomes `STOPPED` and the configuration is marked installed. */
  method Install(server: MinecraftServer, versions: AvailableVersions, fetch: bool) returns (outcome: Outcome)
    modifies server`status, server.callbacks.status, server.config`installed
    ensures var page := versions.DownloadPage(server.config.version);
            && (outcome.Fail? <==> fetch && page.Err?)
            && (outcome.Fail? ==> outcome.error == page.error)
    ensures outcome.Fail? ==>
              && server.status == Installing
              && server.callbacks.status.invocations ==
                   old(server.callbacks.status.invocations) + Notified(old(server.status), [Installing])
              && server.callbacks.status.installed ==
                   Settle(old(server.callbacks.status.installed), |Notified(old(server.status), [Installing])|)
              && server.config.Record() == old(server.config.Record())
    ensures outcome.Done? ==>
              && server.status == Stopped
              && server.callbacks.status.invocations ==
                   old(server.callbacks.status.invocations) + Notified(old(server.status), [Installing, Stopped])
              && server.callbacks.status.installed ==
                   Settle(old(server.callbacks.status.installed), |Notified(old(server.status), [Installing, Stopped])|)
              && server.config.Record() == old(server.config.Record()).(installed := true)
  {
    ghost var s0 := server.status;
    ghost var start := server.callbacks.status.installed;
    server.SetStatus(Installing);
    if fetch {
      var page := versions.DownloadPage(server.config.version);
      if page.Err? {
        return Fail(page.error);
      }
    }
    ghost var n1 := |Notified(s0, [Installing])|;
    server.SetStatus(Stopped);
    SettleAdd(start, n1, |Notified(Installing, [Stopped])|);
    assert Notified(s0, [Installing, Stopped]) == Notified(s0, [Installing]) + Notified(Installing, [Stopped]);
    server.config.installed := true;
    outcome := Done;
  }

  /** `MinecraftServer(config)` followed by `set_status(NOT_INSTALLED)`. */
  method Build(config: ServerConfig, file: Option<string>) returns (r: Result<MinecraftServer>)
    ensures r.Ok? <==> ParseFile(file).Ok?
    ensures r.Err? ==> r.error == ParseFile(file).error
    ensures r.Ok? ==>
              && fresh(r.value) && fresh(r.value.properties) && fresh(r.value.callbacks)
              && fresh(r.value.callbacks.status)
              && r.value.Valid() && r.value.properties.Valid() && r.value.config == config
              && r.value.properties.entries == ParseFile(file).value
              && r.value.status == NotInstalled
              && r.value.callbacks.status.invocations ==
                   Notified(if config.installed then Stopped else NotInstalled, [NotInstalled])
              && r.value.process == null
  {
    r := NewServer(config, file, []);
    if r.Ok? {
      r.value.SetStatus(NotInstalled);
    }
  }

  /** Marking a server not installed and then stopped notifies what the two
      calls notify one after the other. */
  lemma NotifiedInstallThenStop(s: ServerStatus)
    ensures Notified(s, [NotInstalled, Stopped]) == Notified(s, [NotInstalled]) + Notified(NotInstalled, [Stopped])
  {
    assert [NotInstalled, Stopped][1..] == [Stopped];
  }

  /** The server half of `create_new_server`: the server object over its
      properties file, marked `NOT_INSTALLED`, its world settings written
      and saved, and then `STOPPED`.  Only objects it creates change. */
  method Prepare(config: ServerConfig, file: Option<string>, w: WorldGenerationSettings)
    returns (r: Result<MinecraftServer>)
    ensures r.Ok? <==> ParseFile(file).Ok?
    ensures r.Err? ==> r.error == ParseFile(file).error
    ensures r.Ok? ==>
              && fresh(r.value) && r.value.Valid() && r.value.config == config
              && r.value.properties.entries == PutAll(ParseFile(file).value, NewServerSettings(w))
              && r.value.properties.file == Some(Serialize(r.value.properties.entries))
              && r.value.status == Stopped
              && r.value.callbacks.status.invocations ==
                   Notified(if config.installed then Stopped else NotInstalled, [NotInstalled, Stopped])
              && r.value.process == null
  {
    r := Build(config, file);
    if r.Ok? {
      Configure(r.value, w);
      NotifiedInstallThenStop(if config.installed then Stopped else NotInstalled);
    }
  }

  /** A fresh, not installed server that is marked `NOT_INSTALLED` and then
      `STOPPED` notifies its status subscribers once, of `STOPPED`. */
  lemma NotifiedFreshSetup()
    ensures Notified(NotInstalled, [NotInstalled, Stopped]) == [Stopped]
  {
    assert [NotInstalled, Stopped][1..] == [Stopped];
  }

  class ServerManager {
    /** `_servers`: the managed servers by sid. */
    var servers: Dict<MinecraftServer>
    /** `config`: the data store. */
    const store: ManagerDataStore
    /** `available_versions` */
    const versions: AvailableVersions

    ghost predicate Valid()
      reads this`servers, store`servers, Servers(servers)`log, Servers(servers)`process, Handles(servers)
    {
      && Distinct(servers)
      && store.Valid()
      && AllValid(servers)
      && Shared(servers, store.servers)
    }

    /** A manager over a store, before any server is loaded. */
    constructor (store: ManagerDataStore, versions: AvailableVersions)
      ensures servers == [] && this.store == store && this.versions == versions
    {
      servers := [];
      this.store := store;
      this.versions := versions;
    }

    /** `get_server`: `None` for an unknown sid. */
    function GetServer(sid: string): (r: Option<MinecraftServer>)
      reads this
      ensures r.Some? <==> HasKey(servers, sid)
      ensures r.Some? ==> (sid, r.value) in servers
    {
      Find(servers, sid)
    }

    /** `stop_all_servers`: the servers it shuts down are exactly the
        running ones. */
    method StopAllServers() returns (stopping: Dict<MinecraftServer>)
      requires Valid()
      ensures forall e :: e in stopping <==> e in servers && e.1.IsRunning()
    {
      stopping := [];
      var i := 0;
      while i < |servers|
        invariant 0 <= i <= |servers|
        invariant forall e :: e in servers[..i] ==> e in servers
        invariant forall e :: e in stopping <==> e in servers[..i] && e.1.IsRunning()
      {
        assert servers[..i + 1] == servers[..i] + [servers[i]];
        if servers[i].1.IsRunning() {
          stopping := stopping + [servers[i]];
        }
        i := i + 1;
      }
      assert servers[..i] == servers;
    }

    /** `delete_server`: an unknown sid fails on the missing server, a
        running server is refused and nothing changes; otherwise the sid is
        removed from the registry, then from the data store (a KeyError
        when the store lacks it), and the store is saved. */
    method DeleteServer(sid: string) returns (outcome: Outcome)
      requires Valid()
      modifies this`servers, store`servers, store`file
      ensures Valid()
      ensures outcome == Fail(AttributeError) <==> !HasKey(old(servers), sid)
      ensures outcome == Fail(ServerRunning) <==>
                HasKey(old(servers), sid) && old(Find(servers, sid).value.IsRunning())
      ensures outcome == Fail(KeyError(sid)) <==>
                HasKey(old(servers), sid) && !old(Find(servers, sid).value.IsRunning()) &&
                !HasKey(old(store.servers), sid)
      ensures outcome.Done? || outcome == Fail(AttributeError) || outcome == Fail(ServerRunning) ||
              outcome == Fail(KeyError(sid))
      ensures outcome == Fail(AttributeError) || outcome == Fail(ServerRunning) ==>
                servers == old(servers) && store.servers == old(store.servers) && store.file == old(store.file)
      ensures outcome == Fail(KeyError(sid)) ==>
                servers == Remove(old(servers), sid) && store.servers == old(store.servers) &&
                store.file == old(store.file)
      ensures outcome.Done? ==>
                && servers == Remove(old(servers), sid)
                && store.servers == Remove(old(store.servers), sid)
                && store.file == Parsed(SnapshotDocument(store.State()))
    {
      var found := Find(servers, sid);
      if found.None? {
        return Fail(AttributeError);
      }
      if found.value.IsRunning() {
        return Fail(ServerRunning);
      }
      RemoveDistinct(servers, sid);
      AllValidRemove(servers, sid);
      SharedRemove(servers, store.servers, sid);
      servers := Remove(servers, sid);
      outcome := store.RemoveServer(sid);
      if outcome.Fail? {
        return;
      }
      store.Save();
    }

    /** The servers registered under `sid` (at most one in a valid manager). */
    function Named(sid: string): (r: set<MinecraftServer>)
      reads this
      ensures HasKey(servers, sid) ==> Find(servers, sid).value in r
    {
      set e | e in servers && e.0 == sid :: e.1
    }

    function NamedCallbacks(sid: string): set<Callback<ServerStatus>>
      reads this
    {
      set e | e in servers && e.0 == sid :: e.1.callbacks.status
    }

    function NamedConfigs(sid: string): set<ServerConfig>
      reads this
    {
      set e | e in servers && e.0 == sid :: e.1.config
    }

    /** `install_server`: an unknown sid fails on the missing server;
        otherwise the server is installed as `Install` describes, fetching
        unless a cached jar is used (`cachedJar` and no forced download),
        and on success the store is saved with the configuration it shares
        with the server, now marked installed. */
    method InstallServer(sid: string, forceRedownload: bool, cachedJar: bool) returns (outcome: Outcome)
      requires Valid()
      modifies Named(sid)`status, NamedCallbacks(sid), NamedConfigs(sid)`installed, store`file
      ensures Valid()
      ensures outcome == Fail(AttributeError) <==> !HasKey(servers, sid)
      ensures !HasKey(servers, sid) || outcome.Fail? ==> store.file == old(store.file)
      ensures HasKey(servers, sid) ==>
                var server := Find(servers, sid).value;
                var page := versions.DownloadPage(server.config.version);
                && (outcome.Fail? <==> (forceRedownload || !cachedJar) && page.Err?)
                && (outcome.Fail? ==> outcome.error == page.error && server.status == Installing)
                && (outcome.Done? ==> server.status == Stopped && server.config.installed)
      ensures HasKey(servers, sid) ==>
                var server := Find(servers, sid).value;
                var targets := if outcome.Fail? then [Installing] else [Installing, Stopped];
                && server.callbacks.status.invocations ==
                     old(server.callbacks.status.invocations) + Notified(old(server.status), targets)
                && server.callbacks.status.installed ==
                     Settle(old(server.callbacks.status.installed), |Notified(old(server.status), targets)|)
                && server.config.Record() ==
                     if outcome.Fail? then old(server.config.Record()) else old(server.config.Record()).(installed := true)
      ensures outcome.Done? ==> store.file == Parsed(SnapshotDocument(store.State()))
      ensures outcome.Done? && HasKey(store.servers, sid) ==> Find(store.servers, sid).value.installed
    {
      var found := Find(servers, sid);
      if found.None? {
        return Fail(AttributeError);
      }
      var server := found.value;
      outcome := Install(server, versions, forceRedownload || !cachedJar);
      if outcome.Done? {
        store.Save();
      }
    }

    /** `config.add_server(sid, config)`, then `_servers[sid] = server` and
        `config.save()`: both registries gain the sid. */
    method Admit(sid: string, server: MinecraftServer)
      requires Valid() && server.Valid()
      modifies this`servers, store`servers, store`file
      ensures Valid()
      ensures servers == Put(old(servers), sid, server)
      ensures store.servers == Put(old(store.servers), sid, server.config)
      ensures store.file == Parsed(SnapshotDocument(store.State()))
    {
      SharedPut(servers, store.servers, sid, server);
      store.AddServer(sid, server.config);
      Enrol(sid, server);
    }

    /** `_servers[sid] = server` and `config.save()`. */
    method Enrol(sid: string, server: MinecraftServer)
      requires Distinct(servers) && AllValid(servers) && store.Valid() && server.Valid()
      requires Shared(Put(servers, sid, server), store.servers)
      modifies this`servers, store`file
      ensures Valid()
      ensures servers == Put(old(servers), sid, server)
      ensures store.file == Parsed(SnapshotDocument(store.State()))
    {
      PutDistinct(servers, sid, server);
      AllValidPut(servers, sid, server);
      servers := Put(servers, sid, server);
      store.Save();
    }

    /** `create_new_server`: the sid counter is advanced and saved; the
        server directory is the data directory joined with the sanitised
        name and the new sid; `"latest"` resolves to the first known
        version (an `IndexError` when none is known); the new configuration
        has 2048 MB of memory and is not installed.  The server is
        registered and configured with the given world settings, or the
        defaults, and ends `STOPPED`. */
    method CreateNewServer(name: string, version: string, createdAt: real, file: Option<string>,
                           settings: Option<WorldGenerationSettings>, defaultLevelType: string)
      returns (r: Result<(string, MinecraftServer)>)
      requires Valid()
      modifies this`servers, store`servers, store`latestSid, store`file
      ensures store.latestSid == old(store.latestSid) + 1
      ensures store.file == Parsed(SnapshotDocument(store.State()))
      ensures Resolve(versions.versions, version).Err? ==>
                && r == Err(IndexError) && Valid()
                && servers == old(servers) && store.servers == old(store.servers)
      ensures Resolve(versions.versions, version).Ok? ==> (r.Ok? <==> ParseFile(file).Ok?)
      ensures Resolve(versions.versions, version).Ok? && r.Err? ==>
                && r.error == ParseFile(file).error && servers == old(servers)
                && HasKey(store.servers, IntToString(old(store.latestSid) + 1))
      ensures r.Ok? ==>
                var sid := r.value.0;
                var server := r.value.1;
                var w := if settings.Some? then settings.value else DefaultSettings(defaultLevelType);
                && Valid()
                && sid == IntToString(old(store.latestSid) + 1)
                && fresh(server)
                && server.config.Record() ==
                     ConfigRecord(PathJoin(store.serverDataDir, DirName(name, sid)), name,
                                  Resolve(versions.versions, version).value, 2048, createdAt, false)
                && servers == Put(old(servers), sid, server)
                && store.servers == Put(old(store.servers), sid, server.config)
                && server.properties.entries == PutAll(ParseFile(file).value, NewServerSettings(w))
                && server.properties.file == Some(Serialize(server.properties.entries))
                && server.status == Stopped
                && server.callbacks.status.invocations == [Stopped]
                && server.process == null
    {
      store.IncrementSid();
      var n := store.GetLatestSid();
      var sid := IntToString(n);
      var resolved := Resolve(versions.versions, version);
      if resolved.Err? {
        return Err(resolved.error);
      }
      var w := if settings.Some? then settings.value else DefaultSettings(defaultLevelType);
      var path := PathJoin(store.serverDataDir, DirName(name, sid));
      var made := CreateConfigured(sid, path, name, resolved.value, createdAt, file, w);
      if made.Err? {
        return Err(made.error);
      }
      return Ok((sid, made.value));
    }

    /** `create_new_server` once the sid, the directory and the version are
        known: a new configuration that is not yet installed, registered
        with the store, and the server over it configured and registered. */
    method CreateConfigured(sid: string, path: string, name: string, version: string, createdAt: real,
                            file: Option<string>, w: WorldGenerationSettings)
      returns (r: Result<MinecraftServer>)
      requires Valid()
      modifies this`servers, store`servers, store`file
      ensures store.file == Parsed(SnapshotDocument(store.State()))
      ensures r.Ok? <==> ParseFile(file).Ok?
      ensures r.Err? ==> r.error == ParseFile(file).error && servers == old(servers) && HasKey(store.servers, sid)
      ensures r.Ok? ==>
                var server := r.value;
                && Valid()
                && fresh(server)
                && server.config.Record() == ConfigRecord(path, name, version, 2048, createdAt, false)
                && servers == Put(old(servers), sid, server)
                && store.servers == Put(old(store.servers), sid, server.config)
                && server.properties.entries == PutAll(ParseFile(file).value, NewServerSettings(w))
                && server.properties.file == Some(Serialize(server.properties.entries))
                && server.status == Stopped
                && server.callbacks.status.invocations == [Stopped]
                && server.process == null
    {
      var config := new ServerConfig(path, name, version, 2048, createdAt, false);
      r := CreateUnder(sid, config, file, w);
      NotifiedFreshSetup();
    }

    /** The rest of `create_new_server` once the sid and the configuration
        are made: the configuration goes into the data store, and the server
        over its properties file is configured and joins the registry. */
    method CreateUnder(sid: string, config: ServerConfig, file: Option<string>, w: WorldGenerationSettings)
      returns (r: Result<MinecraftServer>)
      requires Valid()
      modifies this`servers, store`servers, store`file
      ensures store.file == Parsed(SnapshotDocument(store.State()))
      ensures store.servers == Put(old(store.servers), sid, config)
      ensures r.Ok? <==> ParseFile(file).Ok?
      ensures r.Err? ==> r.error == ParseFile(file).error && servers == old(servers)
      ensures r.Ok? ==>
                var server := r.value;
                && Valid()
                && fresh(server)
                && server.config == config
                && servers == Put(old(servers), sid, server)
                && server.properties.entries == PutAll(ParseFile(file).value, NewServerSettings(w))
                && server.properties.file == Some(Serialize(server.properties.entries))
                && server.status == Stopped
                && server.callbacks.status.invocations ==
                     Notified(if config.installed then Stopped else NotInstalled, [NotInstalled, Stopped])
                && server.process == null
    {
      var made := Prepare(config, file, w);
      if made.Err? {
        store.AddServer(sid, config);
        return Err(made.error);
      }
      var server := made.value;
      ghost var props := server.properties;
      ghost var entries := props.entries;
      ghost var saved := props.file;
      ghost var heard := server.callbacks.status.invocations;
      Admit(sid, server);
      assert server.properties == props && props.entries == entries && props.file == saved;
      assert server.callbacks.status.invocations == heard;
      return Ok(server);
    }

    /** One pass of the loading loop: the server for the configuration at
        index `i`, over the properties file `file`, joins the registry. */
    method LoadOne(configs: Dict<ServerConfig>, i: nat, file: Option<string>, ghost tables: seq<Table>)
      returns (made: Result<MinecraftServer>)
      requires i == |servers| == |tables| < |configs| && LoadedFrom(servers, tables, configs)
      modifies this`servers
      ensures made.Ok? <==> ParseFile(file).Ok?
      ensures made.Err? ==> made.error == ParseFile(file).error && servers == old(servers)
      ensures made.Ok? ==>
                && servers == old(servers) + [(configs[i].0, made.value)]
                && made.value.config == configs[i].1
                && made.value.properties.entries == ParseFile(file).value
                && LoadedFrom(servers, tables + [made.value.properties.entries], configs)
    {
      ghost var loaded := LoadedFrom(servers, tables, configs);
      made := NewServer(configs[i].1, file, []);
      assert LoadedFrom(servers, tables, configs) == loaded;
      if made.Ok? {
        LoadedFromSnoc(servers, tables, configs, (configs[i].0, made.value));
        servers := servers + [(configs[i].0, made.value)];
      }
    }

    /** The loading loop of the manager's constructor: one server object per
        configuration of the store, in the store's order, each over its own
        properties file among `files`.  The first file that does not parse
        fails the construction with its error. */
    method LoadServers(files: map<string, string>) returns (outcome: Outcome)
      requires servers == [] && store.Valid()
      modifies this`servers
      ensures outcome.Done? <==> LoadTables(files, store.servers).Ok?
      ensures outcome.Fail? ==> LoadTables(files, store.servers) == Err(outcome.error)
      ensures outcome.Done? ==>
                && Valid()
                && Mirrors(servers, store.servers)
                && forall j :: 0 <= j < |servers| ==>
                     && servers[j].1.properties.entries == LoadTables(files, store.servers).value[j]
                     && servers[j].1.status == (if store.servers[j].1.installed then Stopped else NotInstalled)
                     && servers[j].1.process == null
    {
      outcome := LoadAll(files);
      if outcome.Done? {
        LoadedValid(servers, LoadTables(files, store.servers).value, store.servers);
        MirrorsDistinct(servers, store.servers);
        MirrorsShared(servers, store.servers);
      }
    }

    /** The loop itself, with what it keeps as its postcondition. */
    method LoadAll(files: map<string, string>) returns (outcome: Outcome)
      requires servers == []
      modifies this`servers
      ensures outcome.Done? <==> LoadTables(files, store.servers).Ok?
      ensures outcome.Fail? ==> LoadTables(files, store.servers) == Err(outcome.error)
      ensures outcome.Done? ==>
                && Mirrors(servers, store.servers)
                && LoadedFrom(servers, LoadTables(files, store.servers).value, store.servers)
    {
      var configs := store.servers;
      ghost var tables: seq<Table> := [];
      var i := 0;
      while i < |configs|
        invariant 0 <= i <= |configs|
        invariant Mirrors(servers, configs[..i])
        invariant LoadTables(files, configs[..i]) == Ok(tables)
        invariant LoadedFrom(servers, tables, configs)
      {
        ghost var prior := servers;
        var made := LoadOne(configs, i, PropertiesFile(files, configs[i].1.path), tables);
        LoadTablesSnoc(files, configs, i);
        if made.Err? {
          LoadTablesFailed(files, configs, i + 1);
          return Fail(made.error);
        }
        MirrorsSnoc(prior, configs, i, (configs[i].0, made.value));
        tables := tables + [made.value.properties.entries];
        i := i + 1;
      }
      assert configs[..i] == configs;
      outcome := Done;
    }
  }

  /** `ServerManager()` over an already loaded data store: every stored
      configuration gets its server object. */
  method OpenManager(store: ManagerDataStore, versions: AvailableVersions, files: map<string, string>)
    returns (r: Result<ServerManager>)
    requires store.Valid()
    ensures r.Ok? <==> LoadTables(files, store.servers).Ok?
    ensures r.Err? ==> LoadTables(files, store.servers) == Err(r.error)
    ensures r.Ok? ==>
              && fresh(r.value) && r.value.Valid() && r.value.store == store && r.value.versions == versions
              && Mirrors(r.value.servers, store.servers)
  {
    var manager := new ServerManager(store, versions);
    var outcome := manager.LoadServers(files);
    if outcome.Fail? {
      return Err(outcome.error);
    }
    return Ok(manager);
  }
}
