/**
 * The log4j event adapter (Log4jLogEvent): it resolves one message field of
 * one log4j event to name/value pairs. The thread-local MDC and NDC that the
 * adapter reads are explicit parts of the event value here.
 */
module Log4j {
  import opened Wrappers
  import opened Gelf

  // The integer codes of org.apache.log4j.Level (log4j 1.2).
  const FatalInt := 50000
  const ErrorInt := 40000
  const WarnInt := 30000
  const InfoInt := 20000

  /** A log4j level: its `toInt()` code and its `toString()` text, levelStr. */
  datatype Level = Level(code: int, levelStr: string)

  /**
   * The location information of an event. `simpleClassName` is what
   * GelfUtil.getSimpleClassName makes of `className`.
   */
  datatype LocationInfo = LocationInfo(
    className: Option<string>,
    simpleClassName: Option<string>,
    lineNumber: Option<string>,
    methodName: Option<string>)

  /** The parts of a log4j LoggingEvent the adapter reads. */
  datatype LoggingEvent = LoggingEvent(
    level: Level,
    threadName: Option<string>,
    loggerName: Option<string>,
    location: LocationInfo)

  /**
   * The adapter: the wrapped event together with the diagnostic contexts of
   * the logging thread at resolution time. `mdc` is MDC.getContext() (null
   * when no context is active), its values already in their string form;
   * `ndc` is NDC.get().
   */
  datatype Log4jLogEvent = Log4jLogEvent(
    loggingEvent: LoggingEvent,
    mdc: Option<map<string, string>>,
    ndc: Option<string>)

  /** The four level codes that have a syslog severity of their own. */
  predicate IsMappedLevel(code: int) {
    code == FatalInt || code == ErrorInt || code == WarnInt || code == InfoInt
  }

  /** levelToSyslogLevel: the switch from a log4j level to a syslog severity. */
  function LevelToSyslogLevel(level: Level): (r: SyslogSeverity)
    ensures level.code == FatalInt ==> r == 2
    ensures level.code == ErrorInt ==> r == 3
    ensures level.code == WarnInt ==> r == 4
    ensures level.code == InfoInt ==> r == 6
    ensures !IsMappedLevel(level.code) ==> r == DefaultLevel
  {
    if level.code == FatalInt then 2       // Critical
    else if level.code == ErrorInt then 3  // Error
    else if level.code == WarnInt then 4   // Warning
    else if level.code == InfoInt then 6   // Informational
    else DefaultLevel
  }

  /** getSyslogLevel: the severity of the event, written in decimal. */
  function GetSyslogLevel(e: Log4jLogEvent): (s: string)
    ensures |s| == 1 && '0' <= s[0] <= '7'
    ensures s[0] as int - '0' as int == LevelToSyslogLevel(e.loggingEvent.level)
  {
    [('0' as int + LevelToSyslogLevel(e.loggingEvent.level)) as char]
  }

  /** The NDC check of getValue: an empty NDC is reported as null. */
  function NormalizeNdc(ndc: Option<string>): (r: Option<string>)
    ensures r == None <==> ndc == None || ndc == Some("")
    ensures r != None ==> r == ndc && r.value != ""
  {
    if ndc.Some? && ndc.value != "" then ndc else None
  }

  /** getValue(LogMessageField): the value of one well-known field. */
  function GetValue(e: Log4jLogEvent, field: MessageField): (r: Result<Option<string>, Error>)
    requires field.LogMessageField?
    ensures r.Failure? <==> field.namedLogField.Unhandled?
    ensures r.Failure? ==> r.error == CannotProvide(field.name)
  {
    var event := e.loggingEvent;
    match field.namedLogField
    case Severity => Success(Some(event.level.levelStr))
    case ThreadName => Success(event.threadName)
    case SourceClassName => Success(event.location.className)
    case SourceLineNumber => Success(event.location.lineNumber)
    case SourceMethodName => Success(event.location.methodName)
    case SourceSimpleClassName => Success(event.location.simpleClassName)
    case LoggerName => Success(event.loggerName)
    case NDC => Success(NormalizeNdc(e.ndc))
    case Unhandled(_) => Failure(CannotProvide(field.name))
  }

  /** getMdcValue: the string form of the MDC entry for `mdcName`, or null. */
  function GetMdcValue(e: Log4jLogEvent, mdcName: string): (r: Option<string>)
    ensures r.Some? <==> e.mdc.Some? && mdcName in e.mdc.value
    ensures r.Some? ==> r.value == e.mdc.value[mdcName]
  {
    if e.mdc.Some? && mdcName in e.mdc.value then Some(e.mdc.value[mdcName]) else None
  }

  /** getValue(MdcMessageField): the MDC entry the field names. */
  function GetMdcFieldValue(e: Log4jLogEvent, field: MessageField): (r: Option<string>)
    requires field.MdcMessageField?
    ensures r.Some? <==> e.mdc.Some? && field.mdcName in e.mdc.value
    ensures r.Some? ==> r.value == e.mdc.value[field.mdcName]
  {
    GetMdcValue(e, field.mdcName)
  }

  /** The keys of the MDC, or none when no context is active. */
  function MdcKeys(mdc: Option<map<string, string>>): set<string> {
    if mdc.Some? then mdc.value.Keys else {}
  }

  /** The MDC keys that the pattern matches in full. */
  function MatchingKeys(mdc: Option<map<string, string>>, matches: string -> bool): set<string> {
    set k | k in MdcKeys(mdc) && matches(k)
  }

  /**
   * `vs` is a dynamic MDC expansion: one pair for each MDC key the pattern
   * matches and for no other name, each name once, each with its MDC value.
   */
  predicate IsMdcExpansion(vs: Values, mdc: Option<map<string, string>>, matches: string -> bool) {
    && NameSet(vs) == MatchingKeys(mdc, matches)
    && DistinctNames(vs)
    && ValuesFromMdc(vs, mdc)
  }

  /** Every pair of `vs` is an MDC entry: its name is a key, its value that key's value. */
  predicate ValuesFromMdc(vs: Values, mdc: Option<map<string, string>>) {
    forall i :: 0 <= i < |vs| ==> mdc.Some? && vs[i].name in mdc.value && vs[i].value == Some(mdc.value[vs[i].name])
  }

  /** Appending the entry of an MDC key keeps every pair an MDC entry. */
  lemma AppendFromMdc(vs: Values, mdc: Option<map<string, string>>, key: string)
    requires ValuesFromMdc(vs, mdc) && mdc.Some? && key in mdc.value
    ensures ValuesFromMdc(vs + [Value(key, Some(mdc.value[key]))], mdc)
  {
  }

  /** getAllMdcNames: a new set holding the keys of the MDC. */
  method GetAllMdcNames(e: Log4jLogEvent) returns (mdcNames: set<string>)
    ensures forall k :: k in mdcNames <==> e.mdc.Some? && k in e.mdc.value
    ensures e.mdc == None ==> mdcNames == {}
  {
    mdcNames := {};
    if e.mdc.Some? {
      mdcNames := mdcNames + e.mdc.value.Keys;
    }
  }

  /** getMdcNames: the keys of the MDC. */
  method GetMdcNames(e: Log4jLogEvent) returns (mdcNames: set<string>)
    ensures forall k :: k in mdcNames <==> e.mdc.Some? && k in e.mdc.value
    ensures e.mdc == None ==> mdcNames == {}
  {
    mdcNames := GetAllMdcNames(e);
  }

  /** getMatchingMdcNames: the names in `mdcNames` that the field's pattern matches in full. */
  method GetMatchingMdcNames(field: MessageField, mdcNames: set<string>) returns (matching: set<string>)
    requires field.DynamicMdcMessageField?
    ensures matching <= mdcNames
    ensures forall k :: k in mdcNames ==> (k in matching <==> field.matches(k))
  {
    matching := {};
    var rest := mdcNames;
    while rest != {}
      invariant rest <= mdcNames
      invariant matching <= mdcNames - rest
      invariant forall k :: k in mdcNames - rest ==> (k in matching <==> field.matches(k))
      decreases rest
    {
      var mdcName :| mdcName in rest;
      if field.matches(mdcName) {
        matching := matching + {mdcName};
      }
      rest := rest - {mdcName};
    }
  }

  /** getMdcValues: one pair per MDC key the dynamic field's pattern matches. */
  method GetMdcValues(e: Log4jLogEvent, field: MessageField) returns (result: Values)
    requires field.DynamicMdcMessageField?
    ensures IsMdcExpansion(result, e.mdc, field.matches)
  {
    result := [];
    var mdcNames := GetAllMdcNames(e);
    var matchingMdcNames := GetMatchingMdcNames(field, mdcNames);
    assert matchingMdcNames == MatchingKeys(e.mdc, field.matches);
    var rest := matchingMdcNames;
    while rest != {}
      invariant rest <= matchingMdcNames
      invariant NameSet(result) == matchingMdcNames - rest
      invariant DistinctNames(result)
      invariant ValuesFromMdc(result, e.mdc)
      decreases rest
    {
      var mdcName :| mdcName in rest;
      var mdcValue := GetMdcValue(e, mdcName);
      AppendNewName(result, Value(mdcName, mdcValue));
      AppendFromMdc(result, e.mdc, mdcName);
      result := result + [Value(mdcName, mdcValue)];
      rest := rest - {mdcName};
    }
  }

  /** getValues: resolve one message field of the event to its name/value pairs. */
  method GetValues(e: Log4jLogEvent, field: MessageField) returns (r: Result<Values, Error>)
    ensures r.Failure? <==> field.OtherMessageField? || (field.LogMessageField? && field.namedLogField.Unhandled?)
    ensures field.LogMessageField? && r.Success? ==>
      r.value == [Value(field.name, GetValue(e, field).value)]
    ensures field.LogMessageField? && r.Failure? ==> r.error == GetValue(e, field).error
    ensures field.MdcMessageField? ==> r.Success? && r.value == [Value(field.name, GetMdcValue(e, field.mdcName))]
    ensures field.DynamicMdcMessageField? ==> r.Success? && IsMdcExpansion(r.value, e.mdc, field.matches)
    ensures field.OtherMessageField? ==> r == Failure(CannotProvide(field.name))
  {
    match field
    case LogMessageField(name, namedLogField) =>
      var value := GetValue(e, field);
      if value.Failure? {
        return Failure(value.error);
      }
      return Success([Value(name, value.value)]);
    case MdcMessageField(name, _) =>
      return Success([Value(name, GetMdcFieldValue(e, field))]);
    case DynamicMdcMessageField(_, _) =>
      var values := GetMdcValues(e, field);
      return Success(values);
    case OtherMessageField(name) =>
      return Failure(CannotProvide(name));
  }
}
