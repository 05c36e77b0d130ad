/** How the device finder turns the configured log-level name into the
    logger's level: the decision part of `DeviceAccess.set_log_level`. */
module LogLevel {
  import opened Wrappers
  import opened PyStrings
  import opened Logging

  /** The names the configuration may use, as the source lists them. */
  const KnownNames: seq<string> := ["INFO", "DEBUG", "WARN", "WARNING", "ERROR"]

  const DefaultMessage: string := "Setting default log level INFO"

  function ChosenMessage(name: string): string {
    "Setting log level to " + name
  }

  function InvalidMessage(name: string): string {
    "Invalid log level '" + name + "'. Setting log level to INFO."
  }

  /** `getattr(logging, name)` for the level constants the logging module
      defines; None for any other name. */
  function LevelAttribute(name: string): (r: Option<Level>)
    ensures name in KnownNames ==> r.Some? && r.value != NotSet && r.value != Critical
  {
    if name == "NOTSET" then Some(NotSet)
    else if name == "DEBUG" then Some(Debug)
    else if name == "INFO" then Some(Info)
    else if name == "WARN" || name == "WARNING" then Some(Warning)
    else if name == "ERROR" then Some(Error)
    else if name == "CRITICAL" || name == "FATAL" then Some(Critical)
    else None
  }

  /** Python truthiness of the configured value: neither None nor "". */
  predicate IsGiven(configured: Option<string>) {
    configured.Some? && configured.value != ""
  }

  /** A given name that is not one of the known names, once upper-cased. */
  predicate IsUnrecognised(configured: Option<string>) {
    IsGiven(configured) && Upper(configured.value) !in KnownNames
  }

  /** The level to set and the one message logged before setting it. */
  datatype Choice = Choice(level: Level, notice: Event)

  function SelectLevel(configured: Option<string>): (c: Choice)
    ensures c.level in {Debug, Info, Warning, Error}
    ensures c.notice.Logged? && c.notice.level in {Info, Warning}
    ensures c.notice.level == Warning <==> IsUnrecognised(configured)
    ensures IsGiven(configured) && !IsUnrecognised(configured) ==>
              c.level == LevelAttribute(Upper(configured.value)).value
    ensures !IsGiven(configured) || IsUnrecognised(configured) ==> c.level == Info
  {
    if IsGiven(configured) then
      var name := Upper(configured.value);
      if name in KnownNames then
        Choice(LevelAttribute(name).value, Logged(Info, ChosenMessage(name)))
      else
        Choice(Info, Logged(Warning, InvalidMessage(name)))
    else
      Choice(Info, Logged(Info, DefaultMessage))
  }

  /** A missing or empty name, and only such a name, gives INFO with the
      default message and no warning. */
  lemma DefaultExactlyWhenUnset(configured: Option<string>)
    ensures !IsGiven(configured) <==>
            SelectLevel(configured) == Choice(Info, Logged(Info, DefaultMessage))
  {
    if IsGiven(configured) && !IsUnrecognised(configured) {
      var name := Upper(configured.value);
      assert ChosenMessage(name)[8] == 'l' != DefaultMessage[8];
    }
  }

  /** Selection ignores ASCII case: a name selects what its upper-case
      form selects, and names equal up to case select alike. */
  lemma CaseInsensitive(s: string, t: string)
    requires Upper(s) == Upper(t)
    ensures SelectLevel(Some(s)) == SelectLevel(Some(t))
    ensures SelectLevel(Some(s)) == SelectLevel(Some(Upper(s)))
  {
    UpperIdempotent(s);
  }

  /** The upper-case name of each level the configuration can choose. */
  function LevelName(lv: Level): (name: string)
    requires lv in {Debug, Info, Warning, Error}
    ensures name in KnownNames
  {
    match lv
    case Debug => "DEBUG"
    case Info => "INFO"
    case Warning => "WARNING"
    case Error => "ERROR"
  }

  /** Every level the configuration can choose is chosen by its own name,
      in any case; WARN and WARNING choose the same level. */
  lemma {:induction false} NamesSelectTheirLevel(lv: Level, s: string)
    requires lv in {Debug, Info, Warning, Error}
    requires Upper(s) == LevelName(lv)
    ensures SelectLevel(Some(s)).level == lv
    ensures SelectLevel(Some(s)).notice == Logged(Info, ChosenMessage(LevelName(lv)))
    ensures SelectLevel(Some("WARN")).level == SelectLevel(Some("WARNING")).level == Warning
    ensures SelectLevel(Some("WARN")).notice == Logged(Info, ChosenMessage("WARN"))
  {
    WarnAlias();
  }

  /** WARN and WARNING, already upper-case, both select WARNING; WARN is
      announced under its own name. */
  lemma WarnAlias()
    ensures SelectLevel(Some("WARN")) == Choice(Warning, Logged(Info, ChosenMessage("WARN")))
    ensures SelectLevel(Some("WARNING")) == Choice(Warning, Logged(Info, ChosenMessage("WARNING")))
  {
    assert Upper("WARN") == "WARN";
    assert Upper("WARNING") == "WARNING";
  }

  /** An unrecognised name never fails: it gives INFO and one warning that
      quotes the upper-cased name. */
  lemma UnrecognisedFallsBack(s: string)
    requires s != "" && Upper(s) !in KnownNames
    ensures SelectLevel(Some(s)) == Choice(Info, Logged(Warning, InvalidMessage(Upper(s))))
  {
  }

  /** CRITICAL is refused although the logging module defines it. */
  lemma CriticalRefused()
    ensures LevelAttribute("CRITICAL") == Some(Critical)
    ensures SelectLevel(Some("critical")) == Choice(Info, Logged(Warning, InvalidMessage("CRITICAL")))
  {
    assert Upper("critical") == "CRITICAL";
    assert "CRITICAL" !in KnownNames by {
      assert |"CRITICAL"| == 8;
      assert "CRITICAL" != "INFO" && "CRITICAL" != "DEBUG" && "CRITICAL" != "WARN";
      assert "CRITICAL"[0] != "WARNING"[0] && "CRITICAL"[0] != "ERROR"[0];
    }
  }
}
