/**
 * Properties of the log4j event adapter that relate several calls or hold
 * of every input: the severity table and its order, NDC normalisation and
 * the uniqueness, up to order, of a dynamic MDC expansion.
 */
module Log4jProperties {
  import opened Wrappers
  import opened Gelf
  import opened Log4j

  /** The severity table: FATAL is Critical, ERROR Error, WARN Warning, INFO Informational. */
  lemma SyslogLevelTable(levelStr: string)
    ensures LevelToSyslogLevel(Level(FatalInt, levelStr)) == 2
    ensures LevelToSyslogLevel(Level(ErrorInt, levelStr)) == 3
    ensures LevelToSyslogLevel(Level(WarnInt, levelStr)) == 4
    ensures LevelToSyslogLevel(Level(InfoInt, levelStr)) == 6
  {
  }

  /** Among the mapped levels, a more severe log4j level never gets a less severe syslog code. */
  lemma SeverityOrderPreserved(a: Level, b: Level)
    requires IsMappedLevel(a.code) && IsMappedLevel(b.code)
    ensures a.code >= b.code <==> LevelToSyslogLevel(a) <= LevelToSyslogLevel(b)
    ensures a.code == b.code <==> LevelToSyslogLevel(a) == LevelToSyslogLevel(b)
  {
  }

  /** The severity depends on the level code alone, not on the level's text. */
  lemma SeverityIgnoresLevelText(a: Level, b: Level)
    requires a.code == b.code
    ensures LevelToSyslogLevel(a) == LevelToSyslogLevel(b)
  {
  }

  /** The NDC field: null for a null or empty NDC, the NDC itself otherwise. */
  lemma NdcResolution(e: Log4jLogEvent, name: string)
    ensures GetValue(e, LogMessageField(name, NDC)).Success?
    ensures e.ndc == None || e.ndc == Some("") ==> GetValue(e, LogMessageField(name, NDC)).value == None
    ensures e.ndc.Some? && e.ndc.value != "" ==> GetValue(e, LogMessageField(name, NDC)).value == e.ndc
  {
  }

  /** Normalising the NDC a second time changes nothing. */
  lemma NormalizeNdcIdempotent(ndc: Option<string>)
    ensures NormalizeNdc(NormalizeNdc(ndc)) == NormalizeNdc(ndc)
  {
  }

  /** A pair of one expansion is a pair of every other expansion of the same MDC and pattern. */
  lemma PairOfExpansion(v: Value, vs: Values, ws: Values, mdc: Option<map<string, string>>, matches: string -> bool)
    requires IsMdcExpansion(vs, mdc, matches) && IsMdcExpansion(ws, mdc, matches)
    requires v in vs
    ensures v in ws
  {
    var i :| 0 <= i < |vs| && vs[i] == v;
    assert v.name in NameSet(vs);
    var j :| 0 <= j < |ws| && ws[j].name == v.name;
    assert ws[j] == v;
  }

  /**
   * Resolving a dynamic MDC field twice against the same MDC gives the same
   * pairs, in some order: one expansion is a permutation of the other.
   */
  lemma ExpansionsAgree(vs: Values, ws: Values, mdc: Option<map<string, string>>, matches: string -> bool)
    requires IsMdcExpansion(vs, mdc, matches) && IsMdcExpansion(ws, mdc, matches)
    ensures |vs| == |ws|
    ensures forall v :: v in vs <==> v in ws
    ensures multiset(vs) == multiset(ws)
  {
    forall v | v in vs ensures v in ws {
      PairOfExpansion(v, vs, ws, mdc, matches);
    }
    forall v | v in ws ensures v in vs {
      PairOfExpansion(v, ws, vs, mdc, matches);
    }
    DistinctNamesOccurOnce(vs);
    DistinctNamesOccurOnce(ws);
    assert multiset(vs) == multiset(ws);
    DistinctNamesCount(vs);
    DistinctNamesCount(ws);
  }

  /**
   * The full match of `req\..*`, taken as: the key starts with "req.". Java's `.`
   * does not match line terminators by default, so this predicate also accepts
   * keys such as "req.\n" that the pattern rejects; the example has none.
   */
  predicate RequestKey(key: string) {
    |key| >= 4 && key[..4] == "req."
  }

  /** The MDC {"req.id": "42", "req.user": "bob", "other": "x"}. */
  function RequestMdc(): map<string, string> {
    map["req.id" := "42", "req.user" := "bob", "other" := "x"]
  }

  /** Expanding `req\..*` over RequestMdc() yields exactly ("req.id", "42") and ("req.user", "bob"). */
  lemma RequestPatternExpansion(vs: Values)
    requires IsMdcExpansion(vs, Some(RequestMdc()), RequestKey)
    ensures |vs| == 2
    ensures Value("req.id", Some("42")) in vs && Value("req.user", Some("bob")) in vs
    ensures forall i :: 0 <= i < |vs| ==> vs[i].name != "other"
  {
    var mdc := RequestMdc();
    assert !RequestKey("other") by { assert "other"[..4] == "othe"; }
    assert RequestKey("req.id") by { assert "req.id"[..4] == "req."; }
    assert RequestKey("req.user") by { assert "req.user"[..4] == "req."; }
    assert mdc.Keys == {"req.id", "req.user", "other"};
    assert MatchingKeys(Some(mdc), RequestKey) == {"req.id", "req.user"};
    assert "req.id" in NameSet(vs);
    var i :| 0 <= i < |vs| && vs[i].name == "req.id";
    assert vs[i] == Value("req.id", Some("42"));
    assert "req.user" in NameSet(vs);
    var j :| 0 <= j < |vs| && vs[j].name == "req.user";
    assert vs[j] == Value("req.user", Some("bob"));
    DistinctNamesCount(vs);
    forall k | 0 <= k < |vs| ensures vs[k].name != "other" {
      assert vs[k].name in NameSet(vs);
    }
  }
}
