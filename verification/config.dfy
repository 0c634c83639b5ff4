/**
 The configuration held in `config.json` and the map logic of
 `TimeMain._update_config` (speedport_Time.py:137-145). The JSON file is
 read as a map from option name to value; reading, parsing and writing it
 back are left to the caller.
 */
module Config {

  /** The JSON values the configuration holds: strings and integers. */
  datatype Value = Str(s: string) | Number(n: int)

  type Config = map<string, Value>

  const LogLevelKey := "Loglevel"
  const IconPathKey := "icon_path"
  const UpdateOffsetKey := "update_offset"
  const HideCmdKey := "hide_cmd"

  /** The file `_load_config` writes when there is none yet. */
  const DefaultConfig: Config := map[
    LogLevelKey := Str("DEBUG"),
    IconPathKey := Str("icon.ico"),
    UpdateOffsetKey := Number(60),
    HideCmdKey := Str("hide.vbs")
  ]

  /** The (option, value) pairs the tray menu's entries pass to `_update_config`, in menu order. */
  const MenuUpdates: seq<(string, Value)> := [
    (UpdateOffsetKey, Number(60)),
    (UpdateOffsetKey, Number(120)),
    (UpdateOffsetKey, Number(240)),
    (LogLevelKey, Str("DEBUG")),
    (LogLevelKey, Str("INFO")),
    (LogLevelKey, Str("WARNING"))
  ]

  /**
   An option the configuration does not have is ignored; a known option
   gets the new value and every other option keeps its own.
   */
  function UpdateConfig(config: Config, option: string, value: Value): (r: Config)
    ensures option !in config ==> r == config
    ensures r.Keys == config.Keys
    ensures option in config ==> r[option] == value
    ensures forall k :: k in config && k != option ==> r[k] == config[k]
  {
    if option !in config then config else config[option := value]
  }

  /** The poll interval is a positive number of seconds. */
  predicate IntervalPositive(config: Config) {
    UpdateOffsetKey in config && config[UpdateOffsetKey].Number? && config[UpdateOffsetKey].n > 0
  }

  /**
   Every menu entry names an option of the default file, so each one takes
   effect on it, and none of them can make the poll interval non-positive.
   */
  lemma {:induction false} MenuUpdatesKeepIntervalPositive(config: Config, i: nat)
    requires i < |MenuUpdates|
    requires IntervalPositive(config)
    ensures MenuUpdates[i].0 in DefaultConfig
    ensures IntervalPositive(UpdateConfig(config, MenuUpdates[i].0, MenuUpdates[i].1))
  {
    var (option, value) := MenuUpdates[i];
    assert option == UpdateOffsetKey ==> value.Number? && value.n > 0;
  }

  /** Updating the same option twice keeps only the later value. */
  lemma {:induction false} UpdateConfigLastWins(config: Config, option: string, first: Value, second: Value)
    ensures UpdateConfig(UpdateConfig(config, option, first), option, second) == UpdateConfig(config, option, second)
  {
    if option in config {
      assert UpdateConfig(config, option, first).Keys == config.Keys;
    }
  }

  /** Updates of two different options do not interfere. */
  lemma {:induction false} UpdateConfigCommutes(config: Config, a: string, x: Value, b: string, y: Value)
    requires a != b
    ensures UpdateConfig(UpdateConfig(config, a, x), b, y) == UpdateConfig(UpdateConfig(config, b, y), a, x)
  {
  }
}
