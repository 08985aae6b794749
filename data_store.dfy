/** The manager's persistent registry (`ManagerDataStore`): the sid counter,
    the configurations by sid and the server data directory, together with
    the JSON document `manager_data.json` they are saved to and read from. */
module DataStore {
  import opened Exceptions
  import opened OrderedDicts
  import opened Models

  /** One entry of the document's `servers` object: keyword arguments that
      `ServerConfig(**config)` accepts, with the configuration they build,
      or arguments it rejects. */
  datatype StoredConfig = Builds(record: ConfigRecord) | Rejected

  /** The parsed content of the data file; each top-level key may be absent. */
  datatype Document = Document(
    servers: Option<Dict<StoredConfig>>, latestSid: Option<int>, serverDataDir: Option<string>)

  /** The data file: absent, not valid JSON, or a parsed document. */
  datatype DataFile = Missing | Malformed | Parsed(doc: Document)

  /** The state of a store as `save` writes it. */
  datatype Snapshot = Snapshot(servers: Dict<ConfigRecord>, latestSid: int, serverDataDir: string)

  /** The configurations the entries build, in order, rejected ones skipped. */
  function Built(entries: Dict<StoredConfig>): (r: Dict<ConfigRecord>)
    ensures |r| <= |entries|
    decreases |entries|
  {
    if entries == [] then []
    else
      var rest := Built(entries[..|entries| - 1]);
      var last := entries[|entries| - 1];
      if last.1.Builds? then rest + [(last.0, last.1.record)] else rest
  }

  /** The configuration the last entry for `k` that builds carries, if any. */
  function LastBuilt(entries: Dict<StoredConfig>, k: string): Option<ConfigRecord>
    decreases |entries|
  {
    if entries == [] then None
    else
      var last := entries[|entries| - 1];
      if last.0 == k && last.1.Builds? then Some(last.1.record) else LastBuilt(entries[..|entries| - 1], k)
  }

  /** There is no configuration for `k` exactly when every entry for `k`
      is rejected. */
  lemma {:induction false} LastBuiltNone(entries: Dict<StoredConfig>, k: string)
    ensures LastBuilt(entries, k).None? <==>
              forall i :: 0 <= i < |entries| && entries[i].0 == k ==> entries[i].1.Rejected?
    decreases |entries|
  {
    if entries != [] {
      var n := |entries| - 1;
      var p := entries[..n];
      LastBuiltNone(p, k);
      assert forall i :: 0 <= i < n ==> entries[i] == p[i];
    }
  }

  /** `LastBuilt` picks an entry for `k` that builds and after which every
      entry for `k` is rejected. */
  lemma {:induction false} LastBuiltSome(entries: Dict<StoredConfig>, k: string) returns (i: nat)
    requires LastBuilt(entries, k).Some?
    ensures i < |entries| && entries[i] == (k, Builds(LastBuilt(entries, k).value))
    ensures forall j :: i < j < |entries| && entries[j].0 == k ==> entries[j].1.Rejected?
    decreases |entries|
  {
    var n := |entries| - 1;
    var last := entries[n];
    if last.0 == k && last.1.Builds? {
      i := n;
    } else {
      var p := entries[..n];
      i := LastBuiltSome(p, k);
      assert entries[i] == p[i];
      forall j | i < j < |entries| && entries[j].0 == k ensures entries[j].1.Rejected? {
        if j < n { assert entries[j] == p[j]; }
      }
    }
  }

  /** The configuration a sid gets is that of an entry for it that builds
      and that no later entry for it that builds follows. */
  lemma LastBuiltPicks(entries: Dict<StoredConfig>, k: string)
    requires LastBuilt(entries, k).Some?
    ensures exists i :: 0 <= i < |entries| && entries[i] == (k, Builds(LastBuilt(entries, k).value)) &&
              forall j :: i < j < |entries| && entries[j].0 == k ==> entries[j].1.Rejected?
  {
    var i := LastBuiltSome(entries, k);
  }

  /** A sid gets a configuration from the entries exactly when one of its
      entries builds. */
  lemma {:induction false} BuiltKeys(entries: Dict<StoredConfig>, k: string)
    ensures HasKey(Built(entries), k) <==> LastBuilt(entries, k).Some?
    decreases |entries|
  {
    if entries != [] {
      var p := entries[..|entries| - 1];
      var last := entries[|entries| - 1];
      BuiltKeys(p, k);
      if last.1.Builds? {
        HasKeyConcat(Built(p), [(last.0, last.1.record)], k);
      }
    }
  }

  /** Assigning the entries that build over a registry: a sid whose entries
      build gets the configuration of the last such entry, any other sid
      keeps what it had. */
  lemma {:induction false} BuiltFind(t: Dict<ConfigRecord>, entries: Dict<StoredConfig>, k: string)
    ensures Find(PutAll(t, Built(entries)), k) ==
              if LastBuilt(entries, k).Some? then LastBuilt(entries, k) else Find(t, k)
    decreases |entries|
  {
    if entries != [] {
      var p := entries[..|entries| - 1];
      var last := entries[|entries| - 1];
      BuiltFind(t, p, k);
      if last.1.Builds? {
        PutAllSnoc(t, Built(p), (last.0, last.1.record));
      }
    }
  }

  lemma BuiltFindAll(t: Dict<ConfigRecord>, entries: Dict<StoredConfig>)
    ensures forall k :: Find(PutAll(t, Built(entries)), k) ==
              if LastBuilt(entries, k).Some? then LastBuilt(entries, k) else Find(t, k)
  {
    forall k {
      BuiltFind(t, entries, k);
    }
  }

  /** The `servers` object `save` writes: every configuration's attributes. */
  function Stored(t: Dict<ConfigRecord>): (r: Dict<StoredConfig>)
    ensures |r| == |t|
    ensures forall i :: 0 <= i < |t| ==> r[i] == (t[i].0, Builds(t[i].1))
  {
    seq(|t|, i requires 0 <= i < |t| => (t[i].0, Builds(t[i].1)))
  }

  /** `save`: exactly the three top-level keys. */
  function SnapshotDocument(s: Snapshot): (d: Document)
    ensures d.servers.Some? && d.latestSid == Some(s.latestSid) && d.serverDataDir == Some(s.serverDataDir)
    ensures |d.servers.value| == |s.servers|
  {
    Document(Some(Stored(s.servers)), Some(s.latestSid), Some(s.serverDataDir))
  }

  /** The state `load_data` leaves, started in state `s`: a missing file
      empties the registry and resets the counter, a malformed one changes
      nothing, and a document sets the counter (0 when absent) and the data
      directory (kept when absent) and assigns every entry that builds. */
  function Loaded(s: Snapshot, file: DataFile): (r: Snapshot)
    ensures file.Missing? ==> r == Snapshot([], 0, s.serverDataDir)
    ensures file.Malformed? ==> r == s
    ensures file.Parsed? ==>
              && r.latestSid == file.doc.latestSid.GetOr(0)
              && r.serverDataDir == file.doc.serverDataDir.GetOr(s.serverDataDir)
    ensures file.Parsed? ==>
              forall k :: Find(r.servers, k) ==
                var b := LastBuilt(file.doc.servers.GetOr([]), k);
                if b.Some? then b else Find(s.servers, k)
  {
    match file
    case Missing => Snapshot([], 0, s.serverDataDir)
    case Malformed => s
    case Parsed(doc) =>
      BuiltFindAll(s.servers, doc.servers.GetOr([]));
      Snapshot(PutAll(s.servers, Built(doc.servers.GetOr([]))),
               doc.latestSid.GetOr(0), doc.serverDataDir.GetOr(s.serverDataDir))
  }

  lemma {:induction false} BuiltStored(t: Dict<ConfigRecord>)
    ensures Built(Stored(t)) == t
    decreases |t|
  {
    if t != [] {
      var p := t[..|t| - 1];
      assert Stored(t)[..|t| - 1] == Stored(p);
      BuiltStored(p);
      assert t == p + [t[|t| - 1]];
    }
  }

  /** Loading what `save` wrote into a fresh store restores the whole state:
      every configuration under its sid, in order, the counter and the data
      directory. */
  lemma SaveThenLoad(s: Snapshot, defaultDir: string)
    requires Distinct(s.servers)
    ensures Loaded(Snapshot([], 0, defaultDir), Parsed(SnapshotDocument(s))) == s
  {
    BuiltStored(s.servers);
    PutAllIntoEmpty(s.servers);
  }

  /** A sid without an entry that builds is not in the entries built. */
  lemma {:induction false} BuiltOmits(entries: Dict<StoredConfig>, k: string)
    requires forall i :: 0 <= i < |entries| && entries[i].0 == k ==> entries[i].1.Rejected?
    ensures !HasKey(Built(entries), k)
    decreases |entries|
  {
    if entries != [] {
      var p := entries[..|entries| - 1];
      BuiltOmits(p, k);
      var last := entries[|entries| - 1];
      if last.1.Builds? {
        HasKeyConcat(Built(p), [(last.0, last.1.record)], k);
      }
    }
  }

  /** Assigning items without key `k` leaves `k` alone. */
  lemma {:induction false} PutAllOmits<V>(t: Dict<V>, items: Dict<V>, k: string)
    requires !HasKey(items, k)
    ensures Find(PutAll(t, items), k) == Find(t, k)
    decreases |items|
  {
    if items != [] {
      PutAllOmits(Put(t, items[0].0, items[0].1), items[1..], k);
    }
  }

  /** An entry that fails to build is skipped: a sid none of whose entries
      builds keeps the configuration it had before the load. */
  lemma LoadSkipsRejected(s: Snapshot, doc: Document, k: string)
    requires doc.servers.Some?
    requires forall i :: 0 <= i < |doc.servers.value| && doc.servers.value[i].0 == k ==>
               doc.servers.value[i].1.Rejected?
    ensures Find(Loaded(s, Parsed(doc)).servers, k) == Find(s.servers, k)
  {
    BuiltOmits(doc.servers.value, k);
    PutAllOmits(s.servers, Built(doc.servers.value), k);
  }

  /** The configuration objects a registry holds. */
  function Configs(t: Dict<ServerConfig>): set<ServerConfig> {
    set i | 0 <= i < |t| :: t[i].1
  }

  /** The registry as the attributes of its configurations. */
  function RecordsOf(t: Dict<ServerConfig>): (r: Dict<ConfigRecord>)
    reads Configs(t)
    ensures |r| == |t|
    ensures forall i :: 0 <= i < |t| ==> r[i] == (t[i].0, t[i].1.Record())
  {
    seq(|t|, i reads Configs(t) requires 0 <= i < |t| => (t[i].0, t[i].1.Record()))
  }

  lemma {:induction false} HasKeyRecords(t: Dict<ServerConfig>, k: string)
    ensures HasKey(RecordsOf(t), k) <==> HasKey(t, k)
    decreases |t|
  {
    if t != [] {
      assert RecordsOf(t)[1..] == RecordsOf(t[1..]);
      HasKeyRecords(t[1..], k);
    }
  }

  /** Assigning a configuration to a sid assigns its attributes. */
  lemma {:induction false} RecordsOfPut(t: Dict<ServerConfig>, k: string, c: ServerConfig)
    ensures RecordsOf(Put(t, k, c)) == Put(RecordsOf(t), k, c.Record())
    decreases |t|
  {
    if t != [] {
      var rt := RecordsOf(t);
      assert rt[1..] == RecordsOf(t[1..]);
      assert rt[0].0 == t[0].0;
      if t[0].0 == k {
        assert Put(t, k, c) == [(k, c)] + t[1..];
        assert Put(rt, k, c.Record()) == [(k, c.Record())] + rt[1..];
        RecordsOfCons((k, c), t[1..]);
      } else {
        RecordsOfPut(t[1..], k, c);
        var u := Put(t[1..], k, c);
        assert Put(t, k, c) == [t[0]] + u;
        assert Put(rt, k, c.Record()) == [rt[0]] + Put(rt[1..], k, c.Record());
        RecordsOfCons(t[0], u);
      }
    } else {
      RecordsOfCons((k, c), []);
      assert [(k, c)] + [] == [(k, c)];
    }
  }

  /** Removing a sid removes its attributes. */
  lemma {:induction false} RecordsOfRemove(t: Dict<ServerConfig>, k: string)
    ensures RecordsOf(Remove(t, k)) == Remove(RecordsOf(t), k)
    decreases |t|
  {
    if t != [] {
      var rt := RecordsOf(t);
      assert rt[1..] == RecordsOf(t[1..]);
      assert rt[0].0 == t[0].0;
      RecordsOfRemove(t[1..], k);
      if t[0].0 == k {
        assert Remove(t, k) == Remove(t[1..], k);
        assert Remove(rt, k) == Remove(rt[1..], k);
      } else {
        var u := Remove(t[1..], k);
        assert Remove(t, k) == [t[0]] + u;
        assert Remove(rt, k) == [rt[0]] + Remove(rt[1..], k);
        RecordsOfCons(t[0], u);
      }
    }
  }

  lemma RecordsOfCons(x: (string, ServerConfig), u: Dict<ServerConfig>)
    ensures RecordsOf([x] + u) == [(x.0, x.1.Record())] + RecordsOf(u)
  {
    assert ([x] + u)[1..] == u;
  }

  class ManagerDataStore {
    /** `_servers`: the configurations by sid, shared with the servers. */
    var servers: Dict<ServerConfig>
    var latestSid: int
    var serverDataDir: string
    /** What the data file holds. */
    var file: DataFile

    ghost predicate Valid()
      reads this`servers
    {
      Distinct(servers)
    }

    /** The state `save` writes. */
    function State(): Snapshot
      reads this`servers, this`latestSid, this`serverDataDir, Configs(servers)
    {
      Snapshot(RecordsOf(servers), latestSid, serverDataDir)
    }

    /** `ManagerDataStore()`: an empty registry with counter 0 and the
        default data directory, then `load_data` on the data file. */
    constructor (defaultDir: string, file: DataFile)
      ensures Valid()
      ensures State() == Loaded(Snapshot([], 0, defaultDir), file)
      ensures this.file == file
    {
      servers := [];
      latestSid := 0;
      serverDataDir := defaultDir;
      this.file := file;
      new;
      LoadData(file);
    }

    /** `increment_sid`: the counter goes up by one and the store is saved. */
    method IncrementSid()
      modifies this`latestSid, this`file
      ensures State() == old(State()).(latestSid := old(latestSid) + 1)
      ensures file == Parsed(SnapshotDocument(State()))
    {
      latestSid := latestSid + 1;
      Save();
    }

    /** `get_latest_sid` */
    function GetLatestSid(): int
      reads this`latestSid
    {
      latestSid
    }

    /** `add_server`: the sid is mapped to the configuration, replacing any
        earlier one, and the store is saved. */
    method AddServer(sid: string, config: ServerConfig)
      requires Valid()
      modifies this`servers, this`file
      ensures Valid()
      ensures servers == Put(old(servers), sid, config)
      ensures State().servers == Put(old(State().servers), sid, config.Record())
      ensures file == Parsed(SnapshotDocument(State()))
    {
      PutDistinct(servers, sid, config);
      RecordsOfPut(servers, sid, config);
      servers := Put(servers, sid, config);
      Save();
    }

    /** `remove_server`: `dict.pop`, a KeyError for an unknown sid.  The
        store is not saved. */
    method RemoveServer(sid: string) returns (outcome: Outcome)
      requires Valid()
      modifies this`servers
      ensures Valid()
      ensures outcome == Fail(KeyError(sid)) <==> !HasKey(old(servers), sid)
      ensures outcome.Done? || outcome == Fail(KeyError(sid))
      ensures outcome.Done? ==> servers == Remove(old(servers), sid)
      ensures outcome.Done? ==> State().servers == Remove(old(State().servers), sid)
      ensures outcome.Fail? ==> servers == old(servers)
    {
      if Find(servers, sid).None? {
        return Fail(KeyError(sid));
      }
      RemoveDistinct(servers, sid);
      RecordsOfRemove(servers, sid);
      servers := Remove(servers, sid);
      outcome := Done;
    }

    /** `load_data`, over the data file's content. */
    method LoadData(file: DataFile)
      requires Valid()
      modifies this`servers, this`latestSid, this`serverDataDir
      ensures Valid()
      ensures State() == Loaded(old(State()), file)
    {
      if file.Missing? {
        servers := [];
        latestSid := 0;
      } else if file.Parsed? {
        ghost var start := RecordsOf(servers);
        latestSid := file.doc.latestSid.GetOr(0);
        serverDataDir := file.doc.serverDataDir.GetOr(serverDataDir);
        assert RecordsOf(servers) == start;
        LoadEntries(file.doc.servers.GetOr([]));
        assert State().servers == PutAll(start, Built(file.doc.servers.GetOr([])));
      }
    }

    /** The loop of `load_data`: each entry that builds a configuration is
        assigned to its sid as a new configuration object. */
    method LoadEntries(entries: Dict<StoredConfig>)
      requires Valid()
      modifies this`servers
      ensures Valid()
      ensures RecordsOf(servers) == PutAll(old(RecordsOf(servers)), Built(entries))
    {
      var i := 0;
      while i < |entries|
        invariant 0 <= i <= |entries|
        invariant Valid()
        invariant RecordsOf(servers) == PutAll(old(RecordsOf(servers)), Built(entries[..i]))
      {
        assert entries[..i + 1][..i] == entries[..i];
        if entries[i].1.Builds? {
          PutAllSnoc(old(RecordsOf(servers)), Built(entries[..i]), (entries[i].0, entries[i].1.record));
          AssignNew(entries[i].0, entries[i].1.record);
        }
        i := i + 1;
      }
      assert entries[..i] == entries;
    }

    /** `_servers[sid] = ServerConfig(**config)` */
    method AssignNew(sid: string, record: ConfigRecord)
      requires Valid()
      modifies this`servers
      ensures Valid()
      ensures RecordsOf(servers) == Put(old(RecordsOf(servers)), sid, record)
    {
      ghost var before := RecordsOf(servers);
      var config := new ServerConfig.FromRecord(record);
      assert RecordsOf(servers) == before;
      PutDistinct(servers, sid, config);
      RecordsOfPut(servers, sid, config);
      servers := Put(servers, sid, config);
    }

    /** `save`: the data file is overwritten with the current state. */
    method Save()
      modifies this`file
      ensures file == Parsed(SnapshotDocument(State()))
    {
      ghost var st := State();
      file := Parsed(SnapshotDocument(State()));
      assert RecordsOf(servers) == st.servers;
      assert State() == st;
    }
  }
}
