# log4j event adapter of logstash-gelf, in Dafny

This project models `Log4jLogEvent`, the class that lets the GELF appender read a log4j 1.x
`LoggingEvent`. Given one event and one message field, the adapter produces the name/value pairs
that the GELF message will carry:

- a **well-known field** (severity, thread, source class/line/method, simple class name, logger,
  NDC) gives one pair, named after the field;
- a **fixed MDC field** gives one pair with the MDC entry for its key, or null when the key is absent;
- a **dynamic MDC field** gives one pair for every MDC key its pattern matches in full;
- any other field throws `UnsupportedOperationException`, and so does a well-known field the
  adapter has no case for.

The adapter also translates the log4j level into a syslog severity (section 6.2.1 of RFC 5424).

The model has four modules:

- `Wrappers` (`wrappers.dfy`): `Option` for Java's nullable references and `Result` for a value
  or a thrown exception.
- `Gelf` (`gelf.dfy`): the message-field kinds, the `Values` collector (a sequence of pairs,
  appended to in order), the fallback severity `DefaultLevel` and the exception.
- `Log4j` (`log4j.dfy`): the adapter. The switches are functions. The set and `Values`
  builders are methods: `GetAllMdcNames` is a set union, like `addAll`; `GetMatchingMdcNames`
  and `GetMdcValues` are loops, and `GetMdcValues` is proved to return an `IsMdcExpansion`
  of the MDC keys in `MatchingKeys`.
- `Log4jProperties` (`properties.dfy`): lemmas relating calls. These cover the severity table
  and its order, NDC normalisation, and the fact that two dynamic expansions are permutations
  of each other.

The thread-local MDC and NDC become explicit parts of the adapter value `Log4jLogEvent`:

- `mdc` is `MDC.getContext()`, or `None` when no context is active.
- `ndc` is `NDC.get()`.

The regular expression of a dynamic field is the predicate `matches`, which stands for
`pattern.matcher(key).matches()`.

Two details of the code carry over:

- Logger name, thread name and the location fields are whatever the log4j accessors return, so they are nullable.
- `getSyslogLevel` returns the decimal text of the severity, and `GetSyslogLevel` models that text.

## Model

| member | source | states |
|---|---|---|
| `Log4j.LevelToSyslogLevel` | src/main/java/biz/paluch/logging/gelf/log4j/Log4jLogEvent.java:58-73 | the result is a syslog severity; FATAL gives 2, ERROR 3, WARN 4, INFO 6, and every other code gives the single `DefaultLevel` |
| `Log4jProperties.SyslogLevelTable` | src/main/java/biz/paluch/logging/gelf/log4j/Log4jLogEvent.java:61-69 | FATAL maps to 2 (Critical), ERROR to 3, WARN to 4, INFO to 6 |
| `Log4jProperties.SeverityOrderPreserved` | src/main/java/biz/paluch/logging/gelf/log4j/Log4jLogEvent.java:58-73 | on the four mapped levels the translation reverses order and is injective: a higher log4j code gives a lower (more severe) syslog code, and equal severities mean equal codes |
| `Log4jProperties.SeverityIgnoresLevelText` | src/main/java/biz/paluch/logging/gelf/log4j/Log4jLogEvent.java:61 | the switch is on `toInt()` alone: two levels with the same code get the same severity |
| `Log4j.GetSyslogLevel` | src/main/java/biz/paluch/logging/gelf/log4j/Log4jLogEvent.java:53-56 | the result is one decimal digit 0-7 whose value is the event level's syslog severity |
| `Log4j.GetValue` | src/main/java/biz/paluch/logging/gelf/log4j/Log4jLogEvent.java:93-119 | resolving a well-known field fails exactly when its id is not one of the eight handled ones, and the failure is the "Cannot provide value for" exception naming that field |
| `Log4j.NormalizeNdc` | src/main/java/biz/paluch/logging/gelf/log4j/Log4jLogEvent.java:110-115 | null exactly when the NDC is null or empty; otherwise the NDC unchanged, which is never empty |
| `Log4jProperties.NdcResolution` | src/main/java/biz/paluch/logging/gelf/log4j/Log4jLogEvent.java:110-115 | the NDC field never fails; it is null for a null or empty NDC and the NDC string otherwise |
| `Log4jProperties.NormalizeNdcIdempotent` | src/main/java/biz/paluch/logging/gelf/log4j/Log4jLogEvent.java:111-115 | normalising an already normalised NDC changes nothing |
| `Log4j.GetMdcValue` | src/main/java/biz/paluch/logging/gelf/log4j/Log4jLogEvent.java:126-133 | a value exactly when a context is active and holds the key, and then that key's value; null otherwise |
| `Log4j.GetMdcFieldValue` | src/main/java/biz/paluch/logging/gelf/log4j/Log4jLogEvent.java:121-124 | the fixed MDC field's value is the MDC entry of its key, null when the key is absent |
| `Log4j.GetAllMdcNames` | src/main/java/biz/paluch/logging/gelf/log4j/Log4jLogEvent.java:151-158 | the new set holds exactly the MDC's keys, and is empty when no context is active |
| `Log4j.GetMdcNames` | src/main/java/biz/paluch/logging/gelf/log4j/Log4jLogEvent.java:171-174 | exactly the MDC's keys, empty when no context is active |
| `Log4j.GetMatchingMdcNames` | src/main/java/biz/paluch/logging/gelf/log4j/Log4jLogEvent.java:160-169 | the result is a subset of the input names and keeps a name exactly when the pattern matches it in full (so an empty input gives an empty result) |
| `Log4j.GetMdcValues` | src/main/java/biz/paluch/logging/gelf/log4j/Log4jLogEvent.java:135-149 | the pairs form an MDC expansion: their names are exactly the MDC keys the pattern matches, each name appears once, and each is paired with its MDC value |
| `Log4j.GetValues` | src/main/java/biz/paluch/logging/gelf/log4j/Log4jLogEvent.java:76-91 | fails exactly for a field of none of the three kinds or an unhandled well-known field, propagating the exception of `GetValue` in the latter case; a well-known or fixed MDC field gives exactly one pair carrying the field's own name and its value (null for an absent MDC key); a dynamic MDC field gives an MDC expansion |
| `Log4jProperties.ExpansionsAgree` | src/main/java/biz/paluch/logging/gelf/log4j/Log4jLogEvent.java:135-169 | any two expansions of the same MDC and pattern have the same length, the same pairs and the same multiset of pairs: repeated resolution differs at most in order |
| `Log4jProperties.RequestPatternExpansion` | src/main/java/biz/paluch/logging/gelf/log4j/Log4jLogEvent.java:135-169 | expanding `req\..*` over {"req.id": "42", "req.user": "bob", "other": "x"} yields exactly ("req.id", "42") and ("req.user", "bob"), never "other" |

## Left out

- `getMessage`, `getParameters` and `getThrowable` (lines 28-46) pass log4j accessors through unchanged, so they are not modelled.
- `getLogTimestamp` (lines 48-51) is not modelled. It delegates to `Log4jVersionChecker`, which probes the log4j version at run time and is not part of this model.
- The constructor (lines 24-26) is not modelled. It only stores the event, which is a field of the `Log4jLogEvent` value here.
- Regular expressions are not modelled. A dynamic field's pattern is an arbitrary predicate standing for a full match by `java.util.regex`.
- MDC and NDC are not modelled as thread-local or mutable state. They are immutable inputs read at resolution time. The defensive copy in `getAllMdcNames` therefore has nothing to protect against here, and concurrent context changes are out of scope.
- `DefaultLevel`: the value of `GelfMessage.DEFAUL_LEVEL` is not part of this model. The model assumes only that it is a syslog severity (0-7), and `GetSyslogLevel`'s single digit rests on that.
- The level codes 50000, 40000, 30000 and 20000 are the log4j 1.2 `Level` constants. log4j is not part of this model, so they are written out.
- `Level.toString()`, `GelfUtil.getSimpleClassName` and the location accessors are opaque fields of the event record.
- The `Values` class is not part of this model. It is a sequence of pairs, and `setValue` appends a pair.
- MDC values are already in their string form. `Object.toString()` of arbitrary values is not modelled.
- The null check on `mdcName` (line 143) always passes here, because a model string is never null.
- Null fields are not modelled. In Java, `getValues(null)` fails every `instanceof` test and throws the UnsupportedOperationException of line 90, the path `OtherMessageField` takes here. A null `LogMessageField` or a null field id passed to `getValue` throws a NullPointerException at line 95.
- `CannotProvide`: the exception message carries the field's name where Java concatenates the field object itself (lines 90 and 118). `MessageField.toString()` is not part of this model.
