/** The records of the interaction layer: the server status enumeration, the
    player records and the per-server configuration. */
module Models {
  import opened Exceptions
  import opened Text

  /** The lifecycle status of one managed server. */
  datatype ServerStatus = Stopped | Running | Starting | Stopping | Installing | NotInstalled

  /** The integer each enumeration member carries. */
  function StatusValue(s: ServerStatus): (v: nat)
    ensures v < 6
  {
    match s
    case Stopped => 0
    case Running => 1
    case Starting => 2
    case Stopping => 3
    case Installing => 4
    case NotInstalled => 5
  }

  /** `ServerStatus(v)`: the member with value `v`, a ValueError otherwise. */
  function StatusFromValue(v: int): (r: Result<ServerStatus>)
    ensures r.Ok? <==> 0 <= v < 6
    ensures r.Ok? ==> StatusValue(r.value) == v
  {
    if v == 0 then Ok(Stopped)
    else if v == 1 then Ok(Running)
    else if v == 2 then Ok(Starting)
    else if v == 3 then Ok(Stopping)
    else if v == 4 then Ok(Installing)
    else if v == 5 then Ok(NotInstalled)
    else Err(ValueError(IntToString(v)))
  }

  /** The six members carry six distinct values, and each value names its member. */
  lemma StatusValuesDistinct(a: ServerStatus, b: ServerStatus)
    ensures StatusValue(a) == StatusValue(b) <==> a == b
    ensures StatusFromValue(StatusValue(a)) == Ok(a)
  {
  }

  /** The values the enumeration declares: `STOPPED` is 0, `RUNNING` 1,
      `STARTING` 2, `STOPPING` 3, `INSTALLING` 4 and `NOT_INSTALLED` 5. */
  lemma StatusValues()
    ensures StatusValue(Stopped) == 0 && StatusValue(Running) == 1 && StatusValue(Starting) == 2
    ensures StatusValue(Stopping) == 3 && StatusValue(Installing) == 4 && StatusValue(NotInstalled) == 5
  {
  }

  /** A player as the server reports it. */
  datatype Player = Player(name: string, isOnline: bool, isOp: bool, isBanned: bool)

  /** A player from the ban list. */
  datatype BannedPlayer = BannedPlayer(player: Player, bannedSince: real, bannedBy: string, reason: string)

  /** A player from the operator list. */
  datatype OPPlayer = OPPlayer(player: Player, opLevel: int)

  /** `Player(name)`: every flag starts false. */
  function NewPlayer(name: string): (p: Player)
    ensures p.name == name && !p.isOnline && !p.isOp && !p.isBanned
  {
    Player(name, false, false, false)
  }

  /** `BannedPlayer(name)`: no ban time, no author, no reason. */
  function NewBannedPlayer(name: string): (p: BannedPlayer)
    ensures p.player == NewPlayer(name)
    ensures p.bannedSince == 0.0 && p.bannedBy == "" && p.reason == ""
  {
    BannedPlayer(NewPlayer(name), 0.0, "", "")
  }

  /** `OPPlayer(name)`: operator level 4. */
  function NewOPPlayer(name: string): (p: OPPlayer)
    ensures p.player == NewPlayer(name) && p.opLevel == 4
  {
    OPPlayer(NewPlayer(name), 4)
  }

  /** The argument of `set_ram`: an integer, or a text to be read with `int()`. */
  datatype RamSetting = RamNumber(n: int) | RamText(text: string)

  /** The attributes of a configuration, as its `__dict__` holds them. */
  datatype ConfigRecord = ConfigRecord(
    path: string, name: string, version: string, ram: int, createdAt: real, installed: bool)

  /** The configuration of one managed server.  It is shared: the manager's
      data store and the server object hold the same instance. */
  class ServerConfig {
    /** Neither the directory nor the version is ever reassigned. */
    const path: string
    var name: string
    const version: string
    var ram: int
    var createdAt: real
    var installed: bool

    constructor (path: string, name: string, version: string, ram: int, createdAt: real, installed: bool)
      ensures Record() == ConfigRecord(path, name, version, ram, createdAt, installed)
    {
      this.path := path;
      this.name := name;
      this.version := version;
      this.ram := ram;
      this.createdAt := createdAt;
      this.installed := installed;
    }

    /** A configuration built with only the required attributes: 2048 MB of
        memory, installed. */
    constructor WithDefaults(path: string, name: string, version: string, createdAt: real)
      ensures Record() == ConfigRecord(path, name, version, 2048, createdAt, true)
    {
      this.path := path;
      this.name := name;
      this.version := version;
      this.ram := 2048;
      this.createdAt := createdAt;
      this.installed := true;
    }

    constructor FromRecord(r: ConfigRecord)
      ensures Record() == r
    {
      path := r.path;
      name := r.name;
      version := r.version;
      ram := r.ram;
      createdAt := r.createdAt;
      installed := r.installed;
    }

    function Record(): ConfigRecord
      reads this
    {
      ConfigRecord(path, name, version, ram, createdAt, installed)
    }

    /** `set_ram`: a text argument is read with `int()`, which may reject it. */
    method SetRam(arg: RamSetting) returns (outcome: Outcome)
      modifies this`ram
      ensures arg.RamNumber? ==> outcome == Done && ram == arg.n
      ensures arg.RamText? && ParseInt(arg.text).Some? ==> outcome == Done && ram == ParseInt(arg.text).value
      ensures arg.RamText? && ParseInt(arg.text).None? ==>
                outcome == Fail(ValueError(arg.text)) && ram == old(ram)
    {
      match arg
      case RamNumber(n) =>
        ram := n;
        outcome := Done;
      case RamText(text) =>
        var parsed := ParseInt(text);
        if parsed.None? {
          outcome := Fail(ValueError(text));
        } else {
          ram := parsed.value;
          outcome := Done;
        }
    }

    /** `set_name`: only the name changes. */
    method SetName(newName: string)
      modifies this`name
      ensures Record() == old(Record()).(name := newName)
    {
      name := newName;
    }
  }
}
