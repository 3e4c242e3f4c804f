/**
 * The level table of the zap logger adapter: the configured level name is looked up in
 * a fixed table of seven names, and any other string means the debug level.
 */
module ZapLevels {

  /** The zapcore levels, least severe first. */
  datatype Level = DebugLevel | InfoLevel | WarnLevel | ErrorLevel | DPanicLevel | PanicLevel | FatalLevel

  /** The name the configuration uses for each level. */
  function Name(l: Level): string
  {
    match l
    case DebugLevel => "debug"
    case InfoLevel => "info"
    case WarnLevel => "warn"
    case ErrorLevel => "error"
    case DPanicLevel => "dpanic"
    case PanicLevel => "panic"
    case FatalLevel => "fatal"
  }

  /** `loggerLevelMap`. */
  const LoggerLevelMap: map<string, Level> := map[
    "debug" := DebugLevel,
    "info" := InfoLevel,
    "warn" := WarnLevel,
    "error" := ErrorLevel,
    "dpanic" := DPanicLevel,
    "panic" := PanicLevel,
    "fatal" := FatalLevel]

  /** `getLoggerLevel(lv)`: the level `lv` names, or the debug level when it names none.
      It is defined on every string. */
  function GetLoggerLevel(lv: string): (l: Level)
    ensures Name(l) == lv || (l == DebugLevel && forall k :: Name(k) != lv)
  {
    if lv in LoggerLevelMap then LoggerLevelMap[lv] else DebugLevel
  }

  /** The table holds exactly the seven names, each mapped to the level it names. */
  lemma TableIsNames()
    ensures forall lv :: lv in LoggerLevelMap <==> exists l :: Name(l) == lv
    ensures forall l :: Name(l) in LoggerLevelMap && LoggerLevelMap[Name(l)] == l
  {
    forall lv | lv in LoggerLevelMap ensures exists l :: Name(l) == lv {
      assert Name(LoggerLevelMap[lv]) == lv;
    }
  }

  /** Every level's own name selects it. */
  lemma NamesSelectTheirLevel(l: Level)
    ensures GetLoggerLevel(Name(l)) == l
  {
    TableIsNames();
  }

  /** Distinct names in the table map to distinct levels. */
  lemma TableInjective(a: string, b: string)
    requires a in LoggerLevelMap && b in LoggerLevelMap && a != b
    ensures LoggerLevelMap[a] != LoggerLevelMap[b]
  {
    TableIsNames();
  }

  /** Names are matched exactly: other spellings, such as upper case, fall back to
      debug. */
  lemma OtherSpellingsMeanDebug()
    ensures GetLoggerLevel("DEBUG") == DebugLevel
    ensures GetLoggerLevel("Info") == DebugLevel
    ensures GetLoggerLevel("ERROR") == DebugLevel
    ensures GetLoggerLevel("") == DebugLevel
    ensures GetLoggerLevel(" warn") == DebugLevel
  {
  }

  /** `config.LoggerConfig`. */
  datatype LoggerConfig = LoggerConfig(disableCaller: bool, disableStacktrace: bool, level: string)

  /** The zap adapter: its configuration and whether `InitLogger` has built the
      underlying logger yet. */
  class ZapLogger {
    const cfg: LoggerConfig
    var initialised: bool

    /** `NewZapLogger(cfg)`: stores the configuration; the logger is built later. */
    constructor NewZapLogger(cfg: LoggerConfig)
      ensures this.cfg == cfg && !initialised
    {
      this.cfg := cfg;
      initialised := false;
    }

    /** The level `InitLogger` will use: the one the configured name selects, or debug
        when it names no level. */
    function ConfiguredLevel(): (l: Level)
      ensures Name(l) == cfg.level || (l == DebugLevel && forall k :: Name(k) != cfg.level)
    {
      GetLoggerLevel(cfg.level)
    }
  }
}
