/** The typed view of the config table: every integer and string setting the
    game reads, with its key, its default and, for integers, the range it is
    clamped to. Settings are named by their enum value, which may be any
    int, as a C enum parameter can be. */
module ConfigMap {
  import opened Wrappers
  import opened Decimal
  import ConfigLoader

  /** The longest string value the game writes to the table. */
  const MaxConfigValueLen: nat := 1024

  const CvMaxFps: int := 0
  const CvAnimationMsPerFrame: int := 1
  const CvAudioFreq: int := 2
  const CvAudioChannels: int := 3
  const NumIntValues: int := 4

  const CvMusicDirectory: int := 0
  const CvOXmlFile: int := 1
  const CvDXmlFile: int := 2
  const CvDiscGraphic: int := 3
  const CvGrassTileFilename: int := 4
  const NumStrValues: int := 5

  datatype ConfigValueInt = ConfigValueInt(key: string, minValue: int, maxValue: int, defaultValue: int)

  datatype ConfigValueStr = ConfigValueStr(key: string, defaultValue: string)

  predicate IntValueOk(c: ConfigValueInt) {
    c.minValue <= c.defaultValue <= c.maxValue
  }

  /** create_config_value_int: the description of integer setting `cv`, or
      None for a value outside the enum. */
  function CreateConfigValueInt(cv: int): (r: Option<ConfigValueInt>)
    ensures r.Some? <==> 0 <= cv < NumIntValues
    ensures r.Some? ==> IntValueOk(r.value) && ConfigLoader.WellFormedKey(r.value.key)
  {
    if cv == CvMaxFps then Some(ConfigValueInt("MAX_FPS", 30, 100, 60))
    else if cv == CvAnimationMsPerFrame then Some(ConfigValueInt("ANIMATION_MS_PER_FRAMES", 10, 10000, 100))
    else if cv == CvAudioFreq then Some(ConfigValueInt("AUDIO_FREQ", 44100, 44100, 44100))
    else if cv == CvAudioChannels then Some(ConfigValueInt("AUDIO_CHANNELS", 1, 2, 2))
    else None
  }

  /** create_config_value_str: the description of string setting `cv`, or
      None for a value outside the enum. */
  function CreateConfigValueStr(cv: int): (r: Option<ConfigValueStr>)
    ensures r.Some? <==> 0 <= cv < NumStrValues
    ensures r.Some? ==> ConfigLoader.WellFormedKey(r.value.key) && |r.value.defaultValue| <= MaxConfigValueLen
  {
    if cv == CvMusicDirectory then Some(ConfigValueStr("MUSIC_DIRECTORY", "resources//music"))
    else if cv == CvOXmlFile then Some(ConfigValueStr("O_AUTOMATON", "resources//automaton//o_automaton.xml"))
    else if cv == CvDXmlFile then Some(ConfigValueStr("D_AUTOMATON", "resources//automaton//d_automaton.xml"))
    else if cv == CvDiscGraphic then Some(ConfigValueStr("DISC_GRAPHIC_FILENAME", "resources//images//disc.png"))
    else if cv == CvGrassTileFilename then Some(ConfigValueStr("GRASS_TILE_FILENAME", "resources//images//grass_tile.png"))
    else None
  }

  /** No two settings, integer or string, share a key. */
  lemma KeysDistinct(a: int, b: int)
    ensures 0 <= a < b < NumIntValues ==>
              CreateConfigValueInt(a).value.key != CreateConfigValueInt(b).value.key
    ensures 0 <= a < b < NumStrValues ==>
              CreateConfigValueStr(a).value.key != CreateConfigValueStr(b).value.key
    ensures 0 <= a < NumIntValues && 0 <= b < NumStrValues ==>
              CreateConfigValueInt(a).value.key != CreateConfigValueStr(b).value.key
  {
  }

  /** `v` moved into `[lo, hi]`. */
  function Clamp(v: int, lo: int, hi: int): (r: int)
    requires lo <= hi
    ensures lo <= r <= hi && (lo <= v <= hi ==> r == v)
  {
    if v < lo then lo else if v > hi then hi else v
  }

  /** get_config_value_int: for a setting in the enum, the stored text read
      by atoi and clamped into the setting's range, or its default when the
      key is absent; for any other value, false with the output `out`
      untouched. */
  function GetConfigValueInt(table: map<string, string>, cv: int, out: int): (r: (bool, int))
    ensures r.0 <==> 0 <= cv < NumIntValues
    ensures !r.0 ==> r.1 == out
    ensures r.0 ==> var c := CreateConfigValueInt(cv).value;
      && c.minValue <= r.1 <= c.maxValue
      && (c.key !in table ==> r.1 == c.defaultValue)
      && (c.key in table && c.minValue <= Atoi(table[c.key]) <= c.maxValue ==> r.1 == Atoi(table[c.key]))
      && (c.key in table && Atoi(table[c.key]) < c.minValue ==> r.1 == c.minValue)
      && (c.key in table && Atoi(table[c.key]) > c.maxValue ==> r.1 == c.maxValue)
  {
    match CreateConfigValueInt(cv)
    case None => (false, out)
    case Some(c) =>
      if c.key !in table then (true, c.defaultValue)
      else (true, Clamp(Atoi(table[c.key]), c.minValue, c.maxValue))
  }

  /** set_config_value_int: the value clamped into the setting's range and
      written as `%i` text over whatever the key held; a value outside the
      enum leaves the table as it was. */
  function SetConfigValueInt(table: map<string, string>, cv: int, v: int): (r: map<string, string>)
    ensures !(0 <= cv < NumIntValues) ==> r == table
    ensures 0 <= cv < NumIntValues ==> var c := CreateConfigValueInt(cv).value;
      && r.Keys == table.Keys + {c.key}
      && (forall k :: k in table && k != c.key ==> r[k] == table[k])
  {
    match CreateConfigValueInt(cv)
    case None => table
    case Some(c) => table[c.key := IntText(Clamp(v, c.minValue, c.maxValue))]
  }

  /** Reading a setting back after setting it gives the value clamped into
      its range. */
  lemma GetAfterSetInt(table: map<string, string>, cv: int, v: int, out: int)
    requires 0 <= cv < NumIntValues
    ensures var c := CreateConfigValueInt(cv).value;
      GetConfigValueInt(SetConfigValueInt(table, cv, v), cv, out) == (true, Clamp(v, c.minValue, c.maxValue))
  {
    var c := CreateConfigValueInt(cv).value;
    AtoiIntText(Clamp(v, c.minValue, c.maxValue));
  }

  /** Setting one integer setting leaves every other one, integer or
      string, reading as before. */
  lemma SetIntLeavesOthers(table: map<string, string>, cv: int, v: int, other: int, out: int, sout: string)
    requires other != cv
    ensures GetConfigValueInt(SetConfigValueInt(table, cv, v), other, out) == GetConfigValueInt(table, other, out)
    ensures GetConfigValueStr(SetConfigValueInt(table, cv, v), other, sout) == GetConfigValueStr(table, other, sout)
  {
    KeysDistinct(cv, other);
    KeysDistinct(other, cv);
  }

  /** get_config_value_str: for a setting in the enum, the stored text, or
      its default when the key is absent; for any other value, false with
      the output `out` untouched. */
  function GetConfigValueStr(table: map<string, string>, cv: int, out: string): (r: (bool, string))
    ensures r.0 <==> 0 <= cv < NumStrValues
    ensures !r.0 ==> r.1 == out
    ensures r.0 ==> var c := CreateConfigValueStr(cv).value;
      r.1 == if c.key in table then table[c.key] else c.defaultValue
  {
    match CreateConfigValueStr(cv)
    case None => (false, out)
    case Some(c) => (true, if c.key in table then table[c.key] else c.defaultValue)
  }

  /** set_config_value_str: a value longer than MAX_CONFIG_VALUE_LEN, or a
      setting outside the enum, leaves the table as it was; otherwise the
      value replaces whatever the key held. */
  function SetConfigValueStr(table: map<string, string>, cv: int, v: string): (r: map<string, string>)
    ensures !(0 <= cv < NumStrValues) || |v| > MaxConfigValueLen ==> r == table
    ensures 0 <= cv < NumStrValues && |v| <= MaxConfigValueLen ==> var c := CreateConfigValueStr(cv).value;
      && r.Keys == table.Keys + {c.key}
      && (forall k :: k in table && k != c.key ==> r[k] == table[k])
  {
    match CreateConfigValueStr(cv)
    case None => table
    case Some(c) => if |v| > MaxConfigValueLen then table else table[c.key := v]
  }

  /** A string setting reads back as set when it was short enough to be
      stored, and as before otherwise. */
  lemma GetAfterSetStr(table: map<string, string>, cv: int, v: string, out: string)
    requires 0 <= cv < NumStrValues
    ensures GetConfigValueStr(SetConfigValueStr(table, cv, v), cv, out) ==
            if |v| <= MaxConfigValueLen then (true, v) else GetConfigValueStr(table, cv, out)
  {
  }

  /** Setting one string setting leaves every other one, integer or
      string, reading as before. */
  lemma SetStrLeavesOthers(table: map<string, string>, cv: int, v: string, other: int, out: int, sout: string)
    requires other != cv
    ensures GetConfigValueStr(SetConfigValueStr(table, cv, v), other, sout) == GetConfigValueStr(table, other, sout)
    ensures GetConfigValueInt(SetConfigValueStr(table, cv, v), other, out) == GetConfigValueInt(table, other, out)
  {
    KeysDistinct(cv, other);
    KeysDistinct(other, cv);
  }

  /** An integer setting read from a loaded config file is the number its
      digits denote, clamped into range; so a file line `MAX_FPS=-5` sets the
      frame rate to 30, the minimum, as the minus sign never reached the
      table. */
  lemma LoadedIntValue(table: map<string, string>, cv: int, out: int)
    requires ConfigLoader.WellFormedTable(table) && 0 <= cv < NumIntValues
    ensures var c := CreateConfigValueInt(cv).value;
      c.key in table ==>
        GetConfigValueInt(table, cv, out) == (true, Clamp(ValueOf(table[c.key]), c.minValue, c.maxValue))
  {
    var c := CreateConfigValueInt(cv).value;
    if c.key in table {
      AtoiDigits(table[c.key]);
    }
  }
}
