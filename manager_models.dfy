/** The records of the manager layer: the world-generation settings written
    into a new server's `server.properties`. */
module ManagerModels {
  import opened Exceptions
  import opened OrderedDicts
  import opened PropertyHandler

  /** The three world-generation keys. */
  datatype WorldGenerationSettings = WorldGenerationSettings(
    levelSeed: string, levelType: string, generateStructures: bool)

  /** `WorldGenerationSettings()`: an empty seed, the default level type and
      no generated structures.  The default level type is a constant of
      `game_constants`, which is not part of this model, so it is a
      parameter here. */
  function DefaultSettings(defaultLevelType: string): (w: WorldGenerationSettings)
    ensures w.levelSeed == "" && w.levelType == defaultLevelType && !w.generateStructures
  {
    WorldGenerationSettings("", defaultLevelType, false)
  }

  /** `__iter__`: the settings as `(key, value)` pairs, in this fixed order. */
  function Pairs(w: WorldGenerationSettings): (ps: seq<(string, Value)>)
    ensures |ps| == 3
    ensures ps[0].0 == "level-seed" && ps[1].0 == "level-type" && ps[2].0 == "generate-structures"
    ensures ps[0].1 == VStr(w.levelSeed) && ps[1].1 == VStr(w.levelType)
    ensures ps[2].1 == VBool(w.generateStructures)
  {
    [("level-seed", VStr(w.levelSeed)),
     ("level-type", VStr(w.levelType)),
     ("generate-structures", VBool(w.generateStructures))]
  }

  /** Applying the pairs to a property table, as `create_new_server` does,
      gives each of the three keys its setting and leaves every other key
      as it was. */
  lemma SettingsApplied(t: Table, w: WorldGenerationSettings)
    ensures Find(PutAll(t, Pairs(w)), "level-seed") == Some(VStr(w.levelSeed))
    ensures Find(PutAll(t, Pairs(w)), "level-type") == Some(VStr(w.levelType))
    ensures Find(PutAll(t, Pairs(w)), "generate-structures") == Some(VBool(w.generateStructures))
    ensures forall k :: k != "level-seed" && k != "level-type" && k != "generate-structures" ==>
              Find(PutAll(t, Pairs(w)), k) == Find(t, k)
  {
    var ps := Pairs(w);
    var t1 := Put(t, ps[0].0, ps[0].1);
    var t2 := Put(t1, ps[1].0, ps[1].1);
    var t3 := Put(t2, ps[2].0, ps[2].1);
    assert PutAll(t, ps) == PutAll(t1, ps[1..]);
    assert PutAll(t1, ps[1..]) == PutAll(t2, ps[2..]);
    assert PutAll(t2, ps[2..]) == PutAll(t3, []);
  }
}
