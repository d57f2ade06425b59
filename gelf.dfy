/**
 * The GELF-side vocabulary the log4j adapter works with: the kinds of
 * message field a caller can ask for, the name/value pairs it gets back,
 * the library's fallback severity and the exception it throws.
 */
module Gelf {
  import opened Wrappers

  /** A syslog severity, 0 (Emergency) to 7 (Debug), as in section 6.2.1 of RFC 5424. */
  type SyslogSeverity = x: int | 0 <= x <= 7

  /**
   * GelfMessage.DEFAUL_LEVEL, the severity given to every level that has no
   * entry of its own. Its numeric value is left open: the model only knows
   * that it is a syslog severity.
   */
  const DefaultLevel: SyslogSeverity

  /** The well-known fields of LogMessageField.NamedLogField. */
  datatype NamedLogField =
    | Severity
    | ThreadName
    | SourceClassName
    | SourceLineNumber
    | SourceMethodName
    | SourceSimpleClassName
    | LoggerName
    | NDC
      /** A constant of the enumeration for which the adapter has no case. */
    | Unhandled(constant: string)

  /** The kinds of MessageField a caller may pass to the adapter. */
  datatype MessageField =
      /** A well-known attribute of the event. */
    | LogMessageField(name: string, namedLogField: NamedLogField)
      /** One fixed key of the mapped diagnostic context (MDC). */
    | MdcMessageField(name: string, mdcName: string)
      /**
       * Every MDC key the pattern matches. `matches` stands for
       * `pattern.matcher(key).matches()`, a full match of the whole key.
       */
    | DynamicMdcMessageField(name: string, matches: string -> bool)
      /** Any other implementation of MessageField. */
    | OtherMessageField(name: string)

  /** One name/value pair; a `None` value is a null the transport may drop. */
  datatype Value = Value(name: string, value: Option<string>)

  /** The Values collector: pairs in insertion order. */
  type Values = seq<Value>

  /** The exceptions the adapter throws. */
  datatype Error = UnsupportedOperation(message: string)

  /** The message of the UnsupportedOperationException thrown for `field`. */
  function CannotProvide(field: string): Error {
    UnsupportedOperation("Cannot provide value for " + field)
  }

  /** The names of the pairs in `vs`, as a set. */
  function NameSet(vs: Values): set<string> {
    set i | 0 <= i < |vs| :: vs[i].name
  }

  /** No name occurs in two pairs of `vs`. */
  predicate DistinctNames(vs: Values) {
    forall i, j :: 0 <= i < j < |vs| ==> vs[i].name != vs[j].name
  }

  /** Appending a pair whose name is new adds that name and keeps the names distinct. */
  lemma AppendNewName(vs: Values, v: Value)
    requires DistinctNames(vs) && v.name !in NameSet(vs)
    ensures NameSet(vs + [v]) == NameSet(vs) + {v.name}
    ensures DistinctNames(vs + [v])
  {
    var ws := vs + [v];
    forall n | n in NameSet(ws) ensures n in NameSet(vs) + {v.name} {
      var i :| 0 <= i < |ws| && ws[i].name == n;
      if i < |vs| { assert vs[i].name == n; }
    }
    forall n | n in NameSet(vs) ensures n in NameSet(ws) {
      var i :| 0 <= i < |vs| && vs[i].name == n;
      assert ws[i].name == n;
    }
    assert ws[|vs|].name == v.name;
    forall i, j | 0 <= i < j < |ws| ensures ws[i].name != ws[j].name {
      if j == |vs| {
        assert ws[i].name == vs[i].name;
        assert vs[i].name in NameSet(vs);
      }
    }
  }

  /** With distinct names there are as many pairs as names. */
  lemma {:induction false} DistinctNamesCount(vs: Values)
    requires DistinctNames(vs)
    ensures |NameSet(vs)| == |vs|
  {
    if vs != [] {
      var init := vs[..|vs| - 1];
      var last := vs[|vs| - 1];
      assert vs == init + [last];
      assert DistinctNames(init);
      DistinctNamesCount(init);
      AppendNewName(init, last);
    }
  }

  /** With distinct names every pair occurs at most once. */
  lemma {:induction false} DistinctNamesOccurOnce(vs: Values)
    requires DistinctNames(vs)
    ensures forall v :: multiset(vs)[v] == if v in vs then 1 else 0
  {
    if vs != [] {
      var init := vs[..|vs| - 1];
      var last := vs[|vs| - 1];
      assert vs == init + [last];
      assert DistinctNames(init);
      DistinctNamesOccurOnce(init);
      assert last !in init by {
        forall i | 0 <= i < |init| ensures init[i] != last {
          assert vs[i].name != vs[|vs| - 1].name;
        }
      }
      assert multiset(vs) == multiset(init) + multiset{last};
    }
  }
}
