# Encoding rules tester: verdict and result bookkeeping

This project models the core of the HLA encoding rules tester's base model,
`EncodingRulesTesterBaseModel` and its helper classes `ResultInfo` and
`ResultInfoAttribute`. The RTI delivers interactions (parameter values) and
attribute updates (attribute values). For each delivered field the tester asks
the field's HLA data type how many bytes its encoding occupies. The field is
correct exactly when that length is the whole buffer. The model covers what the
tester does with that verdict:

- the per-field `ResultInfo` counters and stored diagnostic text;
- the two-level result maps: interaction, then parameter; object instance, then
  attribute;
- the session counters `correct` and `incorrect` and the sticky `errorOccurred`
  flag;
- the owner information of attributes that failed, and the ownership queries
  sent to the RTI;
- the coverage flags that `init` clears and every delivery sets, and the
  "all checked" queries;
- `bytesToHex`, the hex dump used in the diagnostic messages.

Modules:

- `Wrappers` holds `Option` (Java's null) and `Result` (a return value or a
  thrown exception).
- `Hla` holds the RTI handle types and Java's signed `byte`.
- `ResultInfos` holds `ResultInfo` as a class and its state as a `Tally` value.
  `Added` is one `addInfo` call and `Replay` is a whole history of calls. It
  also holds the ownership record of `ResultInfoAttribute`.
- `ResultMaps` holds the two-level result maps and what one outcome (`Recorded`)
  or one delivery (`RecordAll`) does to them.
- `AttributeOwners` holds the owner information of every attribute entry, and
  what `addAttributeResult` and `informAttributeOwnership` do to it.
- `Formatting` holds `bytesToHex` and the decimal rendering of the lengths
  inside the messages.
- `EncodingRulesTester` holds the base model class with its session fields.
  - `Judge` gives the verdict on one field.
  - `Reflected` and `Counted` state what a whole delivery does.
  - `AllChecked` is the coverage query.

The per-field data type check is `HlaDataType.testBuffer`. It is a parameter of
the model: a function from the data type name and the bytes to either a length
or the message of the `EncodingRulesException` it throws.

Two behaviours of the code that the model keeps as written:

- `addAttributeResult` asks the RTI for the owner on every incorrect verdict
  while the owner's name is still unknown (:648-655), so one attribute can be
  queried several times. `AddAttributeResult` records one query per such
  verdict.
- `informAttributeOwnership` overwrites the owner handle on every call for an
  existing entry, and sets the name whenever `getFederateName` succeeds
  (:829-832). `InformedEffect` states the latest handle.

## Model

All source paths are relative to the repository root.

| member | source | states |
|---|---|---|
| ResultInfos.ResultInfo.constructor | TS_HLA_EncodingRulesTester/src/main/java/de/fraunhofer/iosb/tc_lib_encodingrulestester/EncodingRulesTesterBaseModel.java:79-86 | a new `ResultInfo` has counts 0/0, no text and an empty history |
| ResultInfos.ResultInfo.AddInfo | TS_HLA_EncodingRulesTester/src/main/java/de/fraunhofer/iosb/tc_lib_encodingrulestester/EncodingRulesTesterBaseModel.java:94-109 | `addInfo` raises the counter of its verdict by one and the other not at all; the text is stored when there was none and overwritten by an incorrect verdict; the call is appended to the history, and the counters and text stay the replay of the history |
| ResultInfos.Added | TS_HLA_EncodingRulesTester/src/main/java/de/fraunhofer/iosb/tc_lib_encodingrulestester/EncodingRulesTesterBaseModel.java:94-109 | one `addInfo` step on a value: exactly the counter of the verdict goes up by one; afterwards there is always a text; it is the new text when there was none or the verdict is incorrect, and the old text otherwise |
| ResultInfos.ReplayCounts | TS_HLA_EncodingRulesTester/src/main/java/de/fraunhofer/iosb/tc_lib_encodingrulestester/EncodingRulesTesterBaseModel.java:94-100 | after any sequence of `addInfo` calls, `correctCount` and `incorrectCount` are the numbers of correct and of incorrect verdicts among them |
| ResultInfos.CountsSumToCalls | TS_HLA_EncodingRulesTester/src/main/java/de/fraunhofer/iosb/tc_lib_encodingrulestester/EncodingRulesTesterBaseModel.java:79-100 | the two counters always sum to the number of `addInfo` calls |
| ResultInfos.StoredTextIsLastFailureOrFirst | TS_HLA_EncodingRulesTester/src/main/java/de/fraunhofer/iosb/tc_lib_encodingrulestester/EncodingRulesTesterBaseModel.java:101-108 | the stored text is the latest incorrect verdict's text if there was one, otherwise the first verdict's text; it is absent only before the first call |
| ResultInfos.CorrectOutcomeKeepsText | TS_HLA_EncodingRulesTester/src/main/java/de/fraunhofer/iosb/tc_lib_encodingrulestester/EncodingRulesTesterBaseModel.java:101-108 | a correct verdict after the first call never changes the stored text |
| ResultMaps.AddResult | TS_HLA_EncodingRulesTester/src/main/java/de/fraunhofer/iosb/tc_lib_encodingrulestester/EncodingRulesTesterBaseModel.java:410-445 | the three branches of the insert-or-update (new class, new field, known field) all amount to one `addInfo` on the field's entry, starting from a new `ResultInfo` when there was none |
| ResultMaps.RecordedEffect | TS_HLA_EncodingRulesTester/src/main/java/de/fraunhofer/iosb/tc_lib_encodingrulestester/EncodingRulesTesterBaseModel.java:410-445 | after one outcome the entry exists and has taken exactly that outcome; a new entry has counts 1/0 or 0/1 by the verdict; no other entry changes and no other class appears |
| ResultMaps.RecordAllEffect | TS_HLA_EncodingRulesTester/src/main/java/de/fraunhofer/iosb/tc_lib_encodingrulestester/EncodingRulesTesterBaseModel.java:523-556 | after a delivery every delivered field of the class has taken exactly its own verdict, and every other entry is unchanged |
| ResultMaps.RecordAllStep | TS_HLA_EncodingRulesTester/src/main/java/de/fraunhofer/iosb/tc_lib_encodingrulestester/EncodingRulesTesterBaseModel.java:523-556 | booking the delivered fields one at a time, in any order, builds up the booking of the whole delivery |
| ResultMaps.PassedFailedPartition | TS_HLA_EncodingRulesTester/src/main/java/de/fraunhofer/iosb/tc_lib_encodingrulestester/EncodingRulesTesterBaseModel.java:532-555 | every delivered field is counted once, as correct or as incorrect |
| ResultMaps.PassedFailedStep | TS_HLA_EncodingRulesTester/src/main/java/de/fraunhofer/iosb/tc_lib_encodingrulestester/EncodingRulesTesterBaseModel.java:532-555 | one more field's verdict adds that field to exactly one of the correct and incorrect sets, and the failure set is non-empty exactly when it was before or the new verdict is incorrect |
| AttributeOwners.WithEntryEffect | TS_HLA_EncodingRulesTester/src/main/java/de/fraunhofer/iosb/tc_lib_encodingrulestester/EncodingRulesTesterBaseModel.java:612-647 | a verdict for a new attribute entry creates it with no owner; an existing entry keeps its owner; no other entry changes, and whether any owner's name is known does not change |
| AttributeOwners.RecordedShape | TS_HLA_EncodingRulesTester/src/main/java/de/fraunhofer/iosb/tc_lib_encodingrulestester/EncodingRulesTesterBaseModel.java:612-647 | an attribute gains its result and its owner information together, so each result has owner information and each owner record has a result |
| AttributeOwners.InformedEffect | TS_HLA_EncodingRulesTester/src/main/java/de/fraunhofer/iosb/tc_lib_encodingrulestester/EncodingRulesTesterBaseModel.java:819-841 | the owner notification never creates or removes an entry and changes no other entry; an existing entry takes the owner's handle; its owner's name is known afterwards exactly when it was known before or the name lookup succeeded |
| ResultInfos.WithHandle | TS_HLA_EncodingRulesTester/src/main/java/de/fraunhofer/iosb/tc_lib_encodingrulestester/EncodingRulesTesterBaseModel.java:156-158 | `addFederateHandle` stores the owner handle and leaves the name and the name-known flag as they were |
| ResultInfos.WithName | TS_HLA_EncodingRulesTester/src/main/java/de/fraunhofer/iosb/tc_lib_encodingrulestester/EncodingRulesTesterBaseModel.java:165-168 | `addFederateName` stores the name and marks it as known, leaving the handle as it was |
| AttributeOwners.WithEntriesStep | TS_HLA_EncodingRulesTester/src/main/java/de/fraunhofer/iosb/tc_lib_encodingrulestester/EncodingRulesTesterBaseModel.java:745-781 | adding owner entries for a delivery one attribute at a time builds up the entries of the whole delivery |
| AttributeOwners.RecordAllShape | TS_HLA_EncodingRulesTester/src/main/java/de/fraunhofer/iosb/tc_lib_encodingrulestester/EncodingRulesTesterBaseModel.java:741-783 | after a whole attribute update, results and owner information still have the same entries |
| Formatting.Unsigned | TS_HLA_EncodingRulesTester/src/main/java/de/fraunhofer/iosb/tc_lib_encodingrulestester/EncodingRulesTesterBaseModel.java:397 | `%02x` formats a Java byte as its unsigned value, below 256 and equal to the byte modulo 256 |
| Formatting.HexPair | TS_HLA_EncodingRulesTester/src/main/java/de/fraunhofer/iosb/tc_lib_encodingrulestester/EncodingRulesTesterBaseModel.java:397 | `%02x` of one byte is two lowercase hex digits, high first, whose value is the byte read as unsigned |
| Formatting.HexOf | TS_HLA_EncodingRulesTester/src/main/java/de/fraunhofer/iosb/tc_lib_encodingrulestester/EncodingRulesTesterBaseModel.java:394-400 | the hex dump has two characters per byte, all lowercase hex digits |
| Formatting.HexOfAt | TS_HLA_EncodingRulesTester/src/main/java/de/fraunhofer/iosb/tc_lib_encodingrulestester/EncodingRulesTesterBaseModel.java:394-400 | byte i is written at characters 2i and 2i+1 as the high and the low nibble of its unsigned value |
| Formatting.BytesToHex | TS_HLA_EncodingRulesTester/src/main/java/de/fraunhofer/iosb/tc_lib_encodingrulestester/EncodingRulesTesterBaseModel.java:394-400 | the loop of `bytesToHex` produces exactly the hex dump of its input |
| Formatting.DecodeHexOf | TS_HLA_EncodingRulesTester/src/main/java/de/fraunhofer/iosb/tc_lib_encodingrulestester/EncodingRulesTesterBaseModel.java:394-400 | reading the dump back gives the original bytes |
| Formatting.HexOfDecode | TS_HLA_EncodingRulesTester/src/main/java/de/fraunhofer/iosb/tc_lib_encodingrulestester/EncodingRulesTesterBaseModel.java:394-400 | every string that reads back as bytes is the dump of those bytes; with `DecodeHexOf` and `EvenHexDecodes`, the dump is a bijection onto even-length lowercase hex strings |
| Formatting.EvenHexDecodes | TS_HLA_EncodingRulesTester/src/main/java/de/fraunhofer/iosb/tc_lib_encodingrulestester/EncodingRulesTesterBaseModel.java:394-400 | every even-length string of lowercase hex digits reads back as bytes, so every such string is a dump |
| Formatting.DecimalRoundTrip | TS_HLA_EncodingRulesTester/src/main/java/de/fraunhofer/iosb/tc_lib_encodingrulestester/EncodingRulesTesterBaseModel.java:535 | the decimal text of every length reads back as that length |
| Formatting.IntToDecimal | TS_HLA_EncodingRulesTester/src/main/java/de/fraunhofer/iosb/tc_lib_encodingrulestester/EncodingRulesTesterBaseModel.java:535 | an `int` concatenated into a message starts with a minus sign exactly when it is negative; the digits after any sign read back as its magnitude |
| EncodingRulesTester.Judge | TS_HLA_EncodingRulesTester/src/main/java/de/fraunhofer/iosb/tc_lib_encodingrulestester/EncodingRulesTesterBaseModel.java:532-555 | a field is correct exactly when `testBuffer` returns without an exception and its length equals the buffer length; a correct field's text is "TEST BUFFER CORRECT"; an incorrect field's text is "TEST BUFFER INCORRECT: " followed by the exception's message, or on a length mismatch by the branch label, the computed length, " Buffer length: " and the buffer length |
| EncodingRulesTester.MismatchLengthsReadBack | TS_HLA_EncodingRulesTester/src/main/java/de/fraunhofer/iosb/tc_lib_encodingrulestester/EncodingRulesTesterBaseModel.java:534-535 | on a length mismatch the message holds the computed length (with its sign) and the buffer length, and each reads back as the number it came from |
| EncodingRulesTester.OwnershipRequestsStep | TS_HLA_EncodingRulesTester/src/main/java/de/fraunhofer/iosb/tc_lib_encodingrulestester/EncodingRulesTesterBaseModel.java:648-661 | judging one more attribute adds one ownership query for it exactly when its verdict is incorrect and its owner's name is unknown |
| EncodingRulesTester.CountedStep | TS_HLA_EncodingRulesTester/src/main/java/de/fraunhofer/iosb/tc_lib_encodingrulestester/EncodingRulesTesterBaseModel.java:532-555 | one more verdict raises `correct` or `incorrect` by one and sets `errorOccurred` when it is incorrect, which keeps the counters equal to the numbers of correct and incorrect fields so far |
| EncodingRulesTester.ReflectedStep | TS_HLA_EncodingRulesTester/src/main/java/de/fraunhofer/iosb/tc_lib_encodingrulestester/EncodingRulesTesterBaseModel.java:745-781 | one more pass of the attribute loop keeps the description of the update so far: flags, results, owner entries, ownership queries, counters and error flag |
| EncodingRulesTester.FoldReflected | TS_HLA_EncodingRulesTester/src/main/java/de/fraunhofer/iosb/tc_lib_encodingrulestester/EncodingRulesTesterBaseModel.java:745-781 | passes of the attribute loop over distinct attributes, in any order, satisfy `Reflected` (flags, results, owner entries, queries, counters and error flag as functions of the state before) for exactly those attributes |
| EncodingRulesTester.FoldAll | TS_HLA_EncodingRulesTester/src/main/java/de/fraunhofer/iosb/tc_lib_encodingrulestester/EncodingRulesTesterBaseModel.java:745-781 | passes over every attribute of an update, once each, satisfy `Reflected` for the whole update |
| EncodingRulesTester.AllChecked | TS_HLA_EncodingRulesTester/src/main/java/de/fraunhofer/iosb/tc_lib_encodingrulestester/EncodingRulesTesterBaseModel.java:236-255 | the "all checked" loop returns true exactly when no flag in the map is false, including when the map is empty |
| EncodingRulesTester.InitialisedNotAllChecked | TS_HLA_EncodingRulesTester/src/main/java/de/fraunhofer/iosb/tc_lib_encodingrulestester/EncodingRulesTesterBaseModel.java:305-345 | after the flags of the subscribed handles are cleared, "all checked" is true exactly when nothing was subscribed and every flag was already true |
| EncodingRulesTester.CheckingIsMonotone | TS_HLA_EncodingRulesTester/src/main/java/de/fraunhofer/iosb/tc_lib_encodingrulestester/EncodingRulesTesterBaseModel.java:745-749 | marking delivered handles as checked never turns "all checked" from true to false |
| EncodingRulesTester.AllSubscribedChecked | TS_HLA_EncodingRulesTester/src/main/java/de/fraunhofer/iosb/tc_lib_encodingrulestester/EncodingRulesTesterBaseModel.java:305-345 | once every subscribed handle was delivered after `init`, "all checked" holds exactly when every flag that was neither subscribed nor delivered was already true |
| EncodingRulesTester.EncodingRulesTesterBaseModel.constructor | TS_HLA_EncodingRulesTester/src/main/java/de/fraunhofer/iosb/tc_lib_encodingrulestester/EncodingRulesTesterBaseModel.java:202-217 | a new tester has no error, counters 0/0, empty result maps, empty coverage maps and no ownership queries |
| EncodingRulesTester.EncodingRulesTesterBaseModel.Init | TS_HLA_EncodingRulesTester/src/main/java/de/fraunhofer/iosb/tc_lib_encodingrulestester/EncodingRulesTesterBaseModel.java:305-345 | every subscribed interaction class and every attribute of every subscribed object class is marked unchecked; all other flags are kept |
| EncodingRulesTester.EncodingRulesTesterBaseModel.UncheckAttributes | TS_HLA_EncodingRulesTester/src/main/java/de/fraunhofer/iosb/tc_lib_encodingrulestester/EncodingRulesTesterBaseModel.java:334-336 | the attributes of one object class are marked unchecked and no other flag changes |
| EncodingRulesTester.EncodingRulesTesterBaseModel.GetWhetherAllInteractionsChecked | TS_HLA_EncodingRulesTester/src/main/java/de/fraunhofer/iosb/tc_lib_encodingrulestester/EncodingRulesTesterBaseModel.java:236-243 | true exactly when no interaction class flag is false |
| EncodingRulesTester.EncodingRulesTesterBaseModel.GetWhetherAllAttibutesChecked | TS_HLA_EncodingRulesTester/src/main/java/de/fraunhofer/iosb/tc_lib_encodingrulestester/EncodingRulesTesterBaseModel.java:248-255 | true exactly when no attribute flag is false |
| EncodingRulesTester.EncodingRulesTesterBaseModel.AddParameterResult | TS_HLA_EncodingRulesTester/src/main/java/de/fraunhofer/iosb/tc_lib_encodingrulestester/EncodingRulesTesterBaseModel.java:410-445 | the parameter result map takes one outcome for (interaction, parameter); with `RecordedEffect`, the entry exists afterwards, a new one holds only this outcome, and nothing else changes |
| EncodingRulesTester.EncodingRulesTesterBaseModel.AddAttributeResult | TS_HLA_EncodingRulesTester/src/main/java/de/fraunhofer/iosb/tc_lib_encodingrulestester/EncodingRulesTesterBaseModel.java:612-663 | the attribute result map takes one outcome for (object, attribute); a new entry gets owner information with no owner; one ownership query is sent exactly when the verdict is incorrect and the owner's name is not known; results and owner information keep the same entries |
| EncodingRulesTester.EncodingRulesTesterBaseModel.InformAttributeOwnership | TS_HLA_EncodingRulesTester/src/main/java/de/fraunhofer/iosb/tc_lib_encodingrulestester/EncodingRulesTesterBaseModel.java:819-841 | the owner information is updated as `InformedEffect` describes: only an existing entry changes, it takes the owner's handle, and it takes the name only when the lookup succeeded; results and owner information keep the same entries |
| EncodingRulesTester.EncodingRulesTesterBaseModel.ReceiveParameter | TS_HLA_EncodingRulesTester/src/main/java/de/fraunhofer/iosb/tc_lib_encodingrulestester/EncodingRulesTesterBaseModel.java:526-555 | one parameter is judged; its verdict is booked in the result map; the matching counter goes up by one; the error flag is set when the verdict is incorrect and otherwise kept |
| EncodingRulesTester.EncodingRulesTesterBaseModel.ParameterOutcome | TS_HLA_EncodingRulesTester/src/main/java/de/fraunhofer/iosb/tc_lib_encodingrulestester/EncodingRulesTesterBaseModel.java:526-555 | a parameter is correct exactly when `testBuffer` on its declared data type returns its buffer length; a length mismatch is reported under the interaction label "overall length caculation: " |
| EncodingRulesTester.EncodingRulesTesterBaseModel.ReceiveParameters | TS_HLA_EncodingRulesTester/src/main/java/de/fraunhofer/iosb/tc_lib_encodingrulestester/EncodingRulesTesterBaseModel.java:523-556 | after the loop every delivered parameter has taken its own verdict; the counters grew by the numbers of correct and incorrect parameters; the error flag is set exactly when it was set before or a parameter failed |
| EncodingRulesTester.EncodingRulesTesterBaseModel.DoReceiveInteraction | TS_HLA_EncodingRulesTester/src/main/java/de/fraunhofer/iosb/tc_lib_encodingrulestester/EncodingRulesTesterBaseModel.java:517-558 | the interaction is marked checked whatever the verdicts; every parameter's verdict is booked; `correct + incorrect` grows by the number of parameters; `errorOccurred` is set by any failure and never cleared |
| EncodingRulesTester.EncodingRulesTesterBaseModel.ReflectAttribute | TS_HLA_EncodingRulesTester/src/main/java/de/fraunhofer/iosb/tc_lib_encodingrulestester/EncodingRulesTesterBaseModel.java:749-780 | one attribute is marked checked, judged and booked by `addAttributeResult`; the matching counter goes up by one and the error flag is set when the verdict is incorrect |
| EncodingRulesTester.EncodingRulesTesterBaseModel.AttributeOutcome | TS_HLA_EncodingRulesTester/src/main/java/de/fraunhofer/iosb/tc_lib_encodingrulestester/EncodingRulesTesterBaseModel.java:751-780 | an attribute is correct exactly when `testBuffer` on its declared data type returns its buffer length; a length mismatch is reported under the attribute label "overall length calculation: " |
| EncodingRulesTester.EncodingRulesTesterBaseModel.ReflectAttributes | TS_HLA_EncodingRulesTester/src/main/java/de/fraunhofer/iosb/tc_lib_encodingrulestester/EncodingRulesTesterBaseModel.java:745-781 | after the loop the session state satisfies `Reflected` of the whole update: flags, results, owner entries, queries, counters and error flag as functions of the state before |
| EncodingRulesTester.EncodingRulesTesterBaseModel.DoReflectAttributeValues | TS_HLA_EncodingRulesTester/src/main/java/de/fraunhofer/iosb/tc_lib_encodingrulestester/EncodingRulesTesterBaseModel.java:741-783 | every delivered attribute is marked checked, whatever its verdict; every verdict is booked and every attribute has an owner entry; one ownership query goes out per failing attribute whose owner's name was unknown; `correct + incorrect` grows by the number of attributes; `errorOccurred` is set by any failure and never cleared; results and owner information keep the same entries |

## Left out

- `HlaDataType.testBuffer`, `HlaDataTypes` and `DataTreeBuilder` are not part of this model. The length check is a parameter of the class, a function of the data type name and the bytes.
- EncodingRulesTester.EncodingRulesTesterBaseModel.DoReceiveInteraction: requires every delivered parameter to have a data type that resolves. Otherwise the source throws a `NullPointerException` out of the RTI callback, which the model does not follow. The same holds for `DoReflectAttributeValues` with attributes.
- `processSOM`, the reading and parsing of the object model files, is left out. The interaction classes, object class attributes and data type names it fills in are constructor parameters.
- EncodingRulesTester.EncodingRulesTesterBaseModel.Init: the RTI subscription calls and their exception paths, which return `true` from `init` part-way through the loops, are left out. The model covers the coverage flags of a successful `init`.
- RTI calls: `queryAttributeOwnership` is a ghost record of the requests sent, and an exception it throws is swallowed by the source. `getFederateName` is the `Option` parameter `lookedUpName`, where `None` stands for an exception.
- Logging, `printParameterResults`, `printAttributeResults`, the `display…Message` methods and the `receiveInteraction` and `reflectAttributeValues` overloads are left out. These are output or one-line delegations. `bytesToHex` is modelled on its own, but the message text it goes into is not.
- `sleepFor` (thread sleep) and the trivial getters are left out.
- EncodingRulesTester.EncodingRulesTesterBaseModel.ReceiveParameter: `correct`, `incorrect` and the `ResultInfo` counters are unbounded. Java's 32-bit `int` wrap after 2^31 - 1 verdicts is not modelled.
- ResultInfos.ResultInfo.AddInfo: the counters are unbounded, as above.
- The result maps hold the state of each `ResultInfo` as a `Tally` value, not as an object. Updates in place through shared references, and aliasing between entries, are not captured. `ResultInfo` itself is modelled as a class whose `AddInfo` is proved to perform the same `Added` step.
- `ResultInfoAttribute` extends `ResultInfo`. Its owner fields are held in a second map, `attributeOwners`, with the same entries as the attribute results; `Valid` states this.
- HashMap iteration order is not known. The delivery loops pick the next key from the remaining ones in any order, and every contract is independent of that order.
- The "all checked" loops return at the first false flag. The model returns the same value but does not fix which false flag is found first.
