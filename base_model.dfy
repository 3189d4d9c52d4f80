/**
 * The encoding rules tester's base model. For every interaction parameter and
 * object attribute the RTI delivers, it asks the field's HLA data type how many
 * bytes the encoding occupies. A field is correct exactly when that is the whole
 * buffer. The verdict is booked per field and per session. The model also
 * records which subscribed interactions and attributes have been seen at least
 * once, and asks the RTI who owns an attribute that failed.
 */
module EncodingRulesTester {
  import opened Wrappers
  import opened Hla
  import opened Formatting
  import opened ResultInfos
  import opened ResultMaps
  import opened AttributeOwners

  /**
   * `HlaDataType.testBuffer` called on the whole buffer at offset 0: the number
   * of bytes the data type says its encoding occupies, or the message of the
   * `EncodingRulesException` it throws.
   */
  type TestBuffer = (TypeName, seq<JByte>) -> Result<int, string>

  const CorrectText := "TEST BUFFER CORRECT"
  const IncorrectPrefix := "TEST BUFFER INCORRECT: "
  /** The interaction branch spells the word as "caculation". */
  const InteractionLengthLabel := "overall length caculation: "
  const AttributeLengthLabel := "overall length calculation: "

  /**
   * The verdict on one delivered field: correct exactly when `testBuffer`
   * returned without an exception and its length is the buffer's length.
   */
  function Judge(tested: Result<int, string>, bufferLength: nat, lengthLabel: string): (o: Outcome)
    ensures o.correct <==> tested.Success? && tested.value == bufferLength
    ensures o.correct ==> o.text == CorrectText
    ensures !o.correct ==> IncorrectPrefix <= o.text
    ensures tested.Failure? ==> o.text == IncorrectPrefix + tested.error
    ensures tested.Success? && tested.value != bufferLength ==>
              o.text == IncorrectPrefix + lengthLabel + IntToDecimal(tested.value)
                        + " Buffer length: " + NatToDecimal(bufferLength)
  {
    match tested
    case Failure(message) => Outcome(false, IncorrectPrefix + message)
    case Success(calculatedLength) =>
      if calculatedLength != bufferLength then
        Outcome(false, IncorrectPrefix + lengthLabel + IntToDecimal(calculatedLength)
                       + " Buffer length: " + NatToDecimal(bufferLength))
      else
        Outcome(true, CorrectText)
  }

  /**
   * On a length mismatch the message carries both lengths, and each reads back
   * as the number it was written from: the computed length after the label
   * (with its sign), the buffer length after " Buffer length: ".
   */
  lemma MismatchLengthsReadBack(tested: Result<int, string>, bufferLength: nat, lengthLabel: string)
    requires tested.Success? && tested.value != bufferLength
    ensures var calculated := IntToDecimal(tested.value);
            var buffer := NatToDecimal(bufferLength);
            && Judge(tested, bufferLength, lengthLabel).text
                 == IncorrectPrefix + lengthLabel + calculated + " Buffer length: " + buffer
            && (tested.value < 0 ==> calculated[0] == '-' && DecimalValue(calculated[1..]) == -tested.value)
            && (tested.value >= 0 ==> DecimalValue(calculated) == tested.value)
            && DecimalValue(buffer) == bufferLength
  {
    DecimalRoundTrip(bufferLength);
  }

  /** The ownership queries one update sends: failing attributes whose owner's name is unknown. */
  function OwnershipRequests(o: ObjectInstanceHandle, outs: map<AttributeHandle, Outcome>, owners: Owners)
    : set<(ObjectInstanceHandle, AttributeHandle)>
  {
    set a | a in outs && !outs[a].correct && !KnowsOwnerName(owners, o, a) :: (o, a)
  }

  /**
   * Judging one more attribute adds a query for it exactly when it failed and
   * its owner's name is unknown.
   */
  lemma OwnershipRequestsStep(o: ObjectInstanceHandle, outs: map<AttributeHandle, Outcome>, owners: Owners,
                              a: AttributeHandle, out: Outcome)
    requires a !in outs
    ensures multiset(OwnershipRequests(o, outs[a := out], owners)) ==
              multiset(OwnershipRequests(o, outs, owners)) +
              (if !out.correct && !KnowsOwnerName(owners, o, a) then multiset{(o, a)} else multiset{})
  {
    var before := OwnershipRequests(o, outs, owners);
    var after := OwnershipRequests(o, outs[a := out], owners);
    if !out.correct && !KnowsOwnerName(owners, o, a) {
      assert after == before + {(o, a)};
      assert (o, a) !in before;
    } else {
      assert after == before;
    }
  }

  /**
   * The session counters after the fields of `seen` were judged, starting from
   * `correct0`, `incorrect0` and `error0`: one count per verdict, and the error
   * flag raised by any incorrect one.
   */
  predicate Counted<F>(correct: nat, incorrect: nat, error: bool,
                       correct0: nat, incorrect0: nat, error0: bool, seen: map<F, Outcome>)
  {
    && correct == correct0 + |Passed(seen)|
    && incorrect == incorrect0 + |Failed(seen)|
    && (error <==> error0 || |Failed(seen)| > 0)
  }

  /** Counting one more verdict the way the delivery loops do. */
  lemma CountedStep<F>(correct: nat, incorrect: nat, error: bool,
                       correct0: nat, incorrect0: nat, error0: bool, seen: map<F, Outcome>, f: F, o: Outcome)
    requires f !in seen
    requires Counted(correct, incorrect, error, correct0, incorrect0, error0, seen)
    ensures Counted(correct + (if o.correct then 1 else 0), incorrect + (if o.correct then 0 else 1),
                    error || !o.correct, correct0, incorrect0, error0, seen[f := o])
  {
    PassedFailedStep(seen, f, o);
  }

  /** The session state that one attribute update changes. */
  datatype AttributeBook = AttributeBook(
    checked: map<AttributeHandle, bool>,
    results: Tallies<ObjectInstanceHandle, AttributeHandle>,
    owners: Owners,
    queries: multiset<(ObjectInstanceHandle, AttributeHandle)>,
    correct: nat,
    incorrect: nat,
    error: bool)

  /** One pass of the loop of `doReflectAttributeValues`, for attribute `a` with verdict `out`. */
  function ReflectOne(b: AttributeBook, o: ObjectInstanceHandle, a: AttributeHandle, out: Outcome): AttributeBook {
    AttributeBook(
      b.checked[a := true],
      Recorded(b.results, o, a, out),
      WithEntry(b.owners, o, a),
      b.queries + (if !out.correct && !KnowsOwnerName(b.owners, o, a) then multiset{(o, a)} else multiset{}),
      b.correct + (if out.correct then 1 else 0),
      b.incorrect + (if out.correct then 0 else 1),
      b.error || !out.correct)
  }

  /** The passes for the attributes of `done`, in that order. */
  function Fold(b: AttributeBook, o: ObjectInstanceHandle, outs: map<AttributeHandle, Outcome>,
                done: seq<AttributeHandle>): AttributeBook
    requires forall k | k in done :: k in outs
    decreases |done|
  {
    if done == [] then b
    else
      var last := done[|done| - 1];
      ReflectOne(Fold(b, o, outs, done[..|done| - 1]), o, last, outs[last])
  }

  /** No attribute occurs twice in `done`. */
  predicate Distinct(done: seq<AttributeHandle>)
    decreases |done|
  {
    done == [] || (Distinct(done[..|done| - 1]) && done[|done| - 1] !in done[..|done| - 1])
  }

  /** The outcomes of the attributes of `done`. */
  function Take(outs: map<AttributeHandle, Outcome>, done: seq<AttributeHandle>): (seen: map<AttributeHandle, Outcome>)
    requires forall k | k in done :: k in outs
    ensures seen.Keys == set k | k in done
    ensures forall k | k in seen :: seen[k] == outs[k]
    decreases |done|
  {
    if done == [] then map[]
    else
      var last := done[|done| - 1];
      Take(outs, done[..|done| - 1])[last := outs[last]]
  }

  /**
   * What `doReflectAttributeValues` has done once the attributes of `seen`
   * were handled for object `o`, starting from `b0`: each is marked checked
   * and has taken its verdict, each has an owner entry, each failing one
   * whose owner's name was not known is the subject of one ownership query,
   * and the counters and the error flag count the verdicts.
   */
  predicate Reflected(b0: AttributeBook, b: AttributeBook, o: ObjectInstanceHandle, seen: map<AttributeHandle, Outcome>) {
    && b.checked == PutAll(b0.checked, seen.Keys, true)
    && b.results == RecordAll(b0.results, o, seen)
    && b.owners == WithEntries(b0.owners, o, seen)
    && b.queries == b0.queries + multiset(OwnershipRequests(o, seen, b0.owners))
    && Counted(b.correct, b.incorrect, b.error, b0.correct, b0.incorrect, b0.error, seen)
  }

  /** One more pass keeps `Reflected`. */
  lemma ReflectedStep(b0: AttributeBook, b: AttributeBook, o: ObjectInstanceHandle,
                      seen: map<AttributeHandle, Outcome>, a: AttributeHandle, out: Outcome)
    requires a !in seen
    requires Reflected(b0, b, o, seen)
    ensures Reflected(b0, ReflectOne(b, o, a, out), o, seen[a := out])
  {
    var after, seen' := ReflectOne(b, o, a, out), seen[a := out];
    assert seen'.Keys == seen.Keys + {a};
    PutAllStep(b0.checked, seen.Keys, a, true);
    assert after.checked == PutAll(b0.checked, seen'.Keys, true);
    RecordAllStep(b0.results, o, seen, a, out);
    assert after.results == RecordAll(b0.results, o, seen');
    WithEntriesStep(b0.owners, o, seen, a, out);
    assert after.owners == WithEntries(b0.owners, o, seen');
    WithEntriesKnows(b0.owners, o, seen);
    OwnershipRequestsStep(o, seen, b0.owners, a, out);
    assert after.queries == b0.queries + multiset(OwnershipRequests(o, seen', b0.owners));
    CountedStep(b.correct, b.incorrect, b.error, b0.correct, b0.incorrect, b0.error, seen, a, out);
  }

  /** The passes over distinct attributes do what `Reflected` says. */
  lemma {:induction false} FoldReflected(b: AttributeBook, o: ObjectInstanceHandle,
                                         outs: map<AttributeHandle, Outcome>, done: seq<AttributeHandle>)
    requires forall k | k in done :: k in outs
    requires Distinct(done)
    ensures Reflected(b, Fold(b, o, outs, done), o, Take(outs, done))
    decreases |done|
  {
    if done == [] {
      var none: map<AttributeHandle, Outcome> := map[];
      assert Passed(none) == {} && Failed(none) == {};
      assert OwnershipRequests(o, none, b.owners) == {};
      assert PutAll(b.checked, {}, true) == b.checked;
    } else {
      var front, last := done[..|done| - 1], done[|done| - 1];
      FoldReflected(b, o, outs, front);
      assert last !in Take(outs, front);
      ReflectedStep(b, Fold(b, o, outs, front), o, Take(outs, front), last, outs[last]);
    }
  }

  /** Passes over every attribute of the update, once each, do what `Reflected` says of the whole update. */
  lemma FoldAll(b: AttributeBook, o: ObjectInstanceHandle, outs: map<AttributeHandle, Outcome>, done: seq<AttributeHandle>)
    requires forall k | k in done :: k in outs
    requires forall k | k in outs :: k in done
    requires Distinct(done)
    ensures Reflected(b, Fold(b, o, outs, done), o, outs)
  {
    FoldReflected(b, o, outs, done);
    assert Take(outs, done) == outs;
  }

  /** The "all checked" queries: no flag in the map is false (vacuously true when empty). */
  predicate NoneUnchecked<K>(flags: map<K, bool>) {
    forall k | k in flags :: flags[k]
  }

  /** The loop of `getWhetherAllInteractionsChecked` and `getWhetherAllAttibutesChecked`. */
  method AllChecked<K>(flags: map<K, bool>) returns (all: bool)
    ensures all <==> NoneUnchecked(flags)
  {
    var remaining := flags.Keys;
    while remaining != {}
      invariant remaining <= flags.Keys
      invariant forall k | k in flags.Keys - remaining :: flags[k]
      decreases remaining
    {
      var k :| k in remaining;
      if !flags[k] {
        return false;
      }
      remaining := remaining - {k};
    }
    return true;
  }

  /** `flags` with every key of `keys` put to `value`. */
  function PutAll<K>(flags: map<K, bool>, keys: set<K>, value: bool): (r: map<K, bool>)
    ensures r.Keys == flags.Keys + keys
    ensures forall k | k in keys :: r[k] == value
    ensures forall k | k in flags && k !in keys :: r[k] == flags[k]
  {
    flags + map k | k in keys :: value
  }

  /** Putting the keys one at a time. */
  lemma PutAllStep<K>(flags: map<K, bool>, keys: set<K>, k: K, value: bool)
    ensures PutAll(flags, keys + {k}, value) == PutAll(flags, keys, value)[k := value]
  {
    assert PutAll(flags, keys + {k}, value).Keys == PutAll(flags, keys, value)[k := value].Keys;
  }

  /** Putting two key sets one after the other is putting their union. */
  lemma PutAllUnion<K>(flags: map<K, bool>, first: set<K>, second: set<K>, value: bool)
    ensures PutAll(PutAll(flags, first, value), second, value) == PutAll(flags, first + second, value)
  {
    assert PutAll(PutAll(flags, first, value), second, value).Keys == PutAll(flags, first + second, value).Keys;
  }

  /** Initialised flags are all checked only when nothing was subscribed and all were checked before. */
  lemma InitialisedNotAllChecked<K>(flags: map<K, bool>, subscribed: set<K>)
    ensures NoneUnchecked(PutAll(flags, subscribed, false)) <==> subscribed == {} && NoneUnchecked(flags)
  {
    if subscribed != {} {
      var k :| k in subscribed;
      assert !PutAll(flags, subscribed, false)[k];
    }
  }

  /** Marking keys as checked never makes the "all checked" query false. */
  lemma CheckingIsMonotone<K>(flags: map<K, bool>, keys: set<K>)
    requires NoneUnchecked(flags)
    ensures NoneUnchecked(PutAll(flags, keys, true))
  {
  }

  /** Once every subscribed key has been marked checked, the query is true. */
  lemma AllSubscribedChecked<K>(flags: map<K, bool>, subscribed: set<K>, delivered: set<K>)
    requires subscribed <= delivered
    ensures NoneUnchecked(PutAll(PutAll(flags, subscribed, false), delivered, true)) <==>
              forall k | k in flags && k !in subscribed && k !in delivered :: flags[k]
  {
  }

  /**
   * `EncodingRulesTesterBaseModel`. The constants are what the object model
   * processing produced; the variables are the session state.
   */
  class EncodingRulesTesterBaseModel {
    /** Interaction classes to subscribe. */
    const interactionClasses: set<InteractionClassHandle>
    /** Attributes to subscribe, per object class. */
    const objectClassAttributes: map<ObjectClassHandle, set<AttributeHandle>>
    /** The data type name of each parameter and of each attribute. */
    const parameterDataType: map<ParameterHandle, TypeName>
    const attributeDataType: map<AttributeHandle, TypeName>
    /** The names the data type registry knows. */
    const knownTypes: set<TypeName>
    const testBuffer: TestBuffer

    /** `interactionParameterResultsmap`: the state of each parameter's `ResultInfo`. */
    var interactionParameterResults: Tallies<InteractionClassHandle, ParameterHandle>
    /** `objectAttributeResultsmap`: the `ResultInfo` state of each `ResultInfoAttribute` ... */
    var objectAttributeResults: Tallies<ObjectInstanceHandle, AttributeHandle>
    /** ... and its owner information, entry for entry. */
    var attributeOwners: Owners

    var errorOccurred: bool
    var correct: nat
    var incorrect: nat
    var interactionClassChecked: map<InteractionClassHandle, bool>
    var attributeHandleChecked: map<AttributeHandle, bool>

    /** Every `queryAttributeOwnership` request sent to the RTI. */
    ghost var ownershipQueries: multiset<(ObjectInstanceHandle, AttributeHandle)>

    /** The attribute side of the session state. */
    ghost function Book(): AttributeBook
      reads this
    {
      AttributeBook(attributeHandleChecked, objectAttributeResults, attributeOwners, ownershipQueries,
                    correct, incorrect, errorOccurred)
    }

    /** Every attribute result has its owner information and vice versa. */
    ghost predicate Valid()
      reads this
    {
      SameShape(objectAttributeResults, attributeOwners)
    }

    /** The verdict on one parameter of a delivered interaction. */
    function ParameterOutcome(p: ParameterHandle, value: seq<JByte>): (o: Outcome)
      requires p in parameterDataType && parameterDataType[p] in knownTypes
      ensures var tested := testBuffer(parameterDataType[p], value);
              o.correct <==> tested.Success? && tested.value == |value|
      ensures var tested := testBuffer(parameterDataType[p], value);
              tested.Success? && tested.value != |value| ==> IncorrectPrefix + InteractionLengthLabel <= o.text
    {
      Judge(testBuffer(parameterDataType[p], value), |value|, InteractionLengthLabel)
    }

    /** The verdict on each parameter of a delivered interaction. */
    function ParameterOutcomes(parameters: map<ParameterHandle, seq<JByte>>): (outs: map<ParameterHandle, Outcome>)
      requires forall p | p in parameters :: p in parameterDataType && parameterDataType[p] in knownTypes
      ensures outs.Keys == parameters.Keys
    {
      map p | p in parameters :: ParameterOutcome(p, parameters[p])
    }

    /** The verdict on one attribute of a delivered update. */
    function AttributeOutcome(a: AttributeHandle, value: seq<JByte>): (o: Outcome)
      requires a in attributeDataType && attributeDataType[a] in knownTypes
      ensures var tested := testBuffer(attributeDataType[a], value);
              o.correct <==> tested.Success? && tested.value == |value|
      ensures var tested := testBuffer(attributeDataType[a], value);
              tested.Success? && tested.value != |value| ==> IncorrectPrefix + AttributeLengthLabel <= o.text
    {
      Judge(testBuffer(attributeDataType[a], value), |value|, AttributeLengthLabel)
    }

    /** The verdict on each attribute of a delivered update. */
    function AttributeOutcomes(attributes: map<AttributeHandle, seq<JByte>>): (outs: map<AttributeHandle, Outcome>)
      requires forall a | a in attributes :: a in attributeDataType && attributeDataType[a] in knownTypes
      ensures outs.Keys == attributes.Keys
    {
      map a | a in attributes :: AttributeOutcome(a, attributes[a])
    }

    /** The attributes subscribed over all object classes. */
    function SubscribedAttributes(): set<AttributeHandle> {
      set c, a | c in objectClassAttributes && a in objectClassAttributes[c] :: a
    }

    constructor (interactionClasses: set<InteractionClassHandle>,
                 objectClassAttributes: map<ObjectClassHandle, set<AttributeHandle>>,
                 parameterDataType: map<ParameterHandle, TypeName>,
                 attributeDataType: map<AttributeHandle, TypeName>,
                 knownTypes: set<TypeName>,
                 testBuffer: TestBuffer)
      ensures Valid()
      ensures this.interactionClasses == interactionClasses
      ensures this.objectClassAttributes == objectClassAttributes
      ensures this.parameterDataType == parameterDataType
      ensures this.attributeDataType == attributeDataType
      ensures this.knownTypes == knownTypes && this.testBuffer == testBuffer
      ensures !errorOccurred && correct == 0 && incorrect == 0
      ensures interactionParameterResults == map[] && objectAttributeResults == map[] && attributeOwners == map[]
      ensures interactionClassChecked == map[] && attributeHandleChecked == map[]
      ensures ownershipQueries == multiset{}
    {
      this.interactionClasses := interactionClasses;
      this.objectClassAttributes := objectClassAttributes;
      this.parameterDataType := parameterDataType;
      this.attributeDataType := attributeDataType;
      this.knownTypes := knownTypes;
      this.testBuffer := testBuffer;
      interactionParameterResults := map[];
      objectAttributeResults := map[];
      attributeOwners := map[];
      errorOccurred := false;
      correct := 0;
      incorrect := 0;
      interactionClassChecked := map[];
      attributeHandleChecked := map[];
      ownershipQueries := multiset{};
    }

    /** `init` after the subscriptions: every subscribed interaction and attribute is unchecked. */
    method Init()
      modifies this`interactionClassChecked, this`attributeHandleChecked
      ensures interactionClassChecked == PutAll(old(interactionClassChecked), interactionClasses, false)
      ensures attributeHandleChecked == PutAll(old(attributeHandleChecked), SubscribedAttributes(), false)
    {
      var classes := interactionClasses;
      ghost var subscribed: set<InteractionClassHandle> := {};
      while classes != {}
        invariant attributeHandleChecked == old(attributeHandleChecked)
        invariant classes + subscribed == interactionClasses && classes !! subscribed
        invariant interactionClassChecked == PutAll(old(interactionClassChecked), subscribed, false)
        decreases classes
      {
        var ich :| ich in classes;
        PutAllStep(old(interactionClassChecked), subscribed, ich, false);
        interactionClassChecked := interactionClassChecked[ich := false];
        classes := classes - {ich};
        subscribed := subscribed + {ich};
      }

      var objectClasses := objectClassAttributes.Keys;
      ghost var doneClasses: set<ObjectClassHandle> := {};
      assert AttributesOf({}) == {};
      assert PutAll(old(attributeHandleChecked), {}, false) == old(attributeHandleChecked);
      while objectClasses != {}
        invariant interactionClassChecked == PutAll(old(interactionClassChecked), interactionClasses, false)
        invariant objectClasses + doneClasses == objectClassAttributes.Keys && objectClasses !! doneClasses
        invariant attributeHandleChecked == PutAll(old(attributeHandleChecked), AttributesOf(doneClasses), false)
        decreases objectClasses
      {
        var och :| och in objectClasses;
        UncheckAttributes(objectClassAttributes[och]);
        PutAllUnion(old(attributeHandleChecked), AttributesOf(doneClasses), objectClassAttributes[och], false);
        AttributesOfStep(doneClasses, och);
        objectClasses := objectClasses - {och};
        doneClasses := doneClasses + {och};
      }
      assert AttributesOf(doneClasses) == SubscribedAttributes();
    }

    /** The attributes subscribed for the object classes in `classes`. */
    ghost function AttributesOf(classes: set<ObjectClassHandle>): set<AttributeHandle>
      requires classes <= objectClassAttributes.Keys
    {
      set c, a | c in classes && a in objectClassAttributes[c] :: a
    }

    lemma AttributesOfStep(classes: set<ObjectClassHandle>, c: ObjectClassHandle)
      requires classes <= objectClassAttributes.Keys && c in objectClassAttributes
      ensures AttributesOf(classes + {c}) == AttributesOf(classes) + objectClassAttributes[c]
    {
    }

    /** The inner loop of `init`: the attributes of one object class become unchecked. */
    method UncheckAttributes(attributes: set<AttributeHandle>)
      modifies this`attributeHandleChecked
      ensures attributeHandleChecked == PutAll(old(attributeHandleChecked), attributes, false)
    {
      var remaining := attributes;
      ghost var done: set<AttributeHandle> := {};
      assert PutAll(old(attributeHandleChecked), {}, false) == old(attributeHandleChecked);
      while remaining != {}
        invariant remaining + done == attributes && remaining !! done
        invariant attributeHandleChecked == PutAll(old(attributeHandleChecked), done, false)
        decreases remaining
      {
        var ah :| ah in remaining;
        PutAllStep(old(attributeHandleChecked), done, ah, false);
        attributeHandleChecked := attributeHandleChecked[ah := false];
        remaining := remaining - {ah};
        done := done + {ah};
      }
    }

    /** `getWhetherAllInteractionsChecked`. */
    method GetWhetherAllInteractionsChecked() returns (all: bool)
      ensures all <==> NoneUnchecked(interactionClassChecked)
    {
      all := AllChecked(interactionClassChecked);
    }

    /** `getWhetherAllAttibutesChecked`. */
    method GetWhetherAllAttibutesChecked() returns (all: bool)
      ensures all <==> NoneUnchecked(attributeHandleChecked)
    {
      all := AllChecked(attributeHandleChecked);
    }

    /** `addParameterResult`: one verdict for (interaction, parameter), creating the entry on first use. */
    method AddParameterResult(ich: InteractionClassHandle, p: ParameterHandle, b: bool, text: string)
      modifies this`interactionParameterResults
      ensures interactionParameterResults == Recorded(old(interactionParameterResults), ich, p, Outcome(b, text))
    {
      interactionParameterResults := AddResult(interactionParameterResults, ich, p, b, text);
    }

    /**
     * `addAttributeResult`: one verdict for (object, attribute), creating the
     * entry, unowned, on first use; an incorrect verdict for an attribute whose
     * owner's name is not known asks the RTI for the owner.
     */
    method AddAttributeResult(o: ObjectInstanceHandle, a: AttributeHandle, b: bool, text: string)
      modifies this`objectAttributeResults, this`attributeOwners, this`ownershipQueries
      ensures objectAttributeResults == Recorded(old(objectAttributeResults), o, a, Outcome(b, text))
      ensures attributeOwners == WithEntry(old(attributeOwners), o, a)
      ensures ownershipQueries == old(ownershipQueries) +
                (if !b && !KnowsOwnerName(old(attributeOwners), o, a) then multiset{(o, a)} else multiset{})
      ensures old(Valid()) ==> Valid()
    {
      if Valid() {
        RecordedShape(objectAttributeResults, attributeOwners, o, a, Outcome(b, text));
      }
      objectAttributeResults := AddResult(objectAttributeResults, o, a, b, text);
      attributeOwners := WithEntry(attributeOwners, o, a);
      if !b {
        if !attributeOwners[o][a].gotName {
          // queryAttributeOwnership
          ownershipQueries := ownershipQueries + multiset{(o, a)};
        }
      }
    }

    /**
     * `informAttributeOwnership`: the RTI names the owner of (o, a);
     * `lookedUpName` is the result of `getFederateName`, None when it threw.
     */
    method InformAttributeOwnership(o: ObjectInstanceHandle, a: AttributeHandle, owner: FederateHandle,
                                    lookedUpName: Option<string>)
      requires Valid()
      modifies this`attributeOwners
      ensures Valid()
      ensures attributeOwners == Informed(old(attributeOwners), o, a, owner, lookedUpName)
    {
      if o in objectAttributeResults && a in objectAttributeResults[o] {
        var ownership := WithHandle(attributeOwners[o][a], owner);
        if lookedUpName.Some? {
          ownership := WithName(ownership, lookedUpName.value);
        }
        PutExistingShape(objectAttributeResults, attributeOwners, o, a, ownership);
        attributeOwners := attributeOwners[o := attributeOwners[o][a := ownership]];
      }
    }

    /**
     * One pass of the loop of `doReceiveInteraction`: judge one parameter and
     * book the verdict in the result map, the counters and the error flag.
     */
    method ReceiveParameter(ich: InteractionClassHandle, p: ParameterHandle, value: seq<JByte>)
      requires p in parameterDataType && parameterDataType[p] in knownTypes
      modifies this`errorOccurred, this`correct, this`incorrect, this`interactionParameterResults
      ensures interactionParameterResults ==
                Recorded(old(interactionParameterResults), ich, p, ParameterOutcome(p, value))
      ensures correct == old(correct) + (if ParameterOutcome(p, value).correct then 1 else 0)
      ensures incorrect == old(incorrect) + (if ParameterOutcome(p, value).correct then 0 else 1)
      ensures errorOccurred <==> old(errorOccurred) || !ParameterOutcome(p, value).correct
    {
      var verdict := ParameterOutcome(p, value);
      if !verdict.correct {
        errorOccurred := true;
      }
      AddParameterResult(ich, p, verdict.correct, verdict.text);
      if verdict.correct {
        correct := correct + 1;
      } else {
        incorrect := incorrect + 1;
      }
    }

    /**
     * `doReceiveInteraction`: the interaction is marked checked, then every
     * parameter is judged and booked. The counters grow by the number of
     * parameters between them, and the error flag is set by any failure and
     * never cleared.
     */
    method DoReceiveInteraction(ich: InteractionClassHandle, parameters: map<ParameterHandle, seq<JByte>>)
      requires forall p | p in parameters :: p in parameterDataType && parameterDataType[p] in knownTypes
      modifies this`interactionClassChecked, this`errorOccurred, this`correct, this`incorrect
      modifies this`interactionParameterResults
      ensures interactionClassChecked == old(interactionClassChecked)[ich := true]
      ensures interactionParameterResults ==
                RecordAll(old(interactionParameterResults), ich, ParameterOutcomes(parameters))
      ensures correct == old(correct) + |Passed(ParameterOutcomes(parameters))|
      ensures incorrect == old(incorrect) + |Failed(ParameterOutcomes(parameters))|
      ensures correct + incorrect == old(correct + incorrect) + |parameters|
      ensures errorOccurred <==> old(errorOccurred) || Failed(ParameterOutcomes(parameters)) != {}
    {
      interactionClassChecked := interactionClassChecked[ich := true];
      ReceiveParameters(ich, parameters);
      PassedFailedPartition(ParameterOutcomes(parameters));
    }

    /** The loop of `doReceiveInteraction` over the delivered parameters. */
    method ReceiveParameters(ich: InteractionClassHandle, parameters: map<ParameterHandle, seq<JByte>>)
      requires forall p | p in parameters :: p in parameterDataType && parameterDataType[p] in knownTypes
      modifies this`errorOccurred, this`correct, this`incorrect, this`interactionParameterResults
      ensures interactionParameterResults ==
                RecordAll(old(interactionParameterResults), ich, ParameterOutcomes(parameters))
      ensures Counted(correct, incorrect, errorOccurred, old(correct), old(incorrect), old(errorOccurred),
                      ParameterOutcomes(parameters))
    {
      ghost var c0, i0, e0 := correct, incorrect, errorOccurred;
      var remaining := parameters.Keys;
      ghost var seen: map<ParameterHandle, Outcome> := map[];
      assert Passed(seen) == {} && Failed(seen) == {};
      while remaining != {}
        invariant remaining <= parameters.Keys
        invariant forall q | q in remaining :: q !in seen
        invariant forall q | q in parameters :: q in remaining || q in seen
        invariant forall q | q in seen :: q in parameters && seen[q] == ParameterOutcome(q, parameters[q])
        invariant interactionParameterResults == RecordAll(old(interactionParameterResults), ich, seen)
        invariant Counted(correct, incorrect, errorOccurred, c0, i0, e0, seen)
        decreases remaining
      {
        var p :| p in remaining;
        ghost var verdict := ParameterOutcome(p, parameters[p]);
        CountedStep(correct, incorrect, errorOccurred, c0, i0, e0, seen, p, verdict);
        RecordAllStep(old(interactionParameterResults), ich, seen, p, verdict);
        ReceiveParameter(ich, p, parameters[p]);
        remaining := remaining - {p};
        seen := seen[p := verdict];
      }
      assert seen == ParameterOutcomes(parameters);
    }

    /**
     * One pass of the loop of `doReflectAttributeValues`: mark the attribute
     * checked, judge it and book the verdict.
     */
    method ReflectAttribute(o: ObjectInstanceHandle, a: AttributeHandle, value: seq<JByte>)
      requires a in attributeDataType && attributeDataType[a] in knownTypes
      modifies this`attributeHandleChecked, this`errorOccurred, this`correct, this`incorrect
      modifies this`objectAttributeResults, this`attributeOwners, this`ownershipQueries
      ensures Book() == ReflectOne(old(Book()), o, a, AttributeOutcome(a, value))
    {
      attributeHandleChecked := attributeHandleChecked[a := true];
      var verdict := AttributeOutcome(a, value);
      if !verdict.correct {
        errorOccurred := true;
      }
      AddAttributeResult(o, a, verdict.correct, verdict.text);
      if verdict.correct {
        correct := correct + 1;
      } else {
        incorrect := incorrect + 1;
      }
    }

    /**
     * `doReflectAttributeValues`: every attribute is marked checked, judged and
     * booked; each failing attribute whose owner's name is unknown is the
     * subject of one ownership query.
     */
    method DoReflectAttributeValues(o: ObjectInstanceHandle, attributes: map<AttributeHandle, seq<JByte>>)
      requires Valid()
      requires forall a | a in attributes :: a in attributeDataType && attributeDataType[a] in knownTypes
      modifies this`attributeHandleChecked, this`errorOccurred, this`correct, this`incorrect
      modifies this`objectAttributeResults, this`attributeOwners, this`ownershipQueries
      ensures Valid()
      ensures attributeHandleChecked == PutAll(old(attributeHandleChecked), attributes.Keys, true)
      ensures objectAttributeResults == RecordAll(old(objectAttributeResults), o, AttributeOutcomes(attributes))
      ensures attributeOwners == WithEntries(old(attributeOwners), o, attributes)
      ensures ownershipQueries == old(ownershipQueries) +
                multiset(OwnershipRequests(o, AttributeOutcomes(attributes), old(attributeOwners)))
      ensures correct == old(correct) + |Passed(AttributeOutcomes(attributes))|
      ensures incorrect == old(incorrect) + |Failed(AttributeOutcomes(attributes))|
      ensures correct + incorrect == old(correct + incorrect) + |attributes|
      ensures errorOccurred <==> old(errorOccurred) || Failed(AttributeOutcomes(attributes)) != {}
    {
      ReflectAttributes(o, attributes);
      PassedFailedPartition(AttributeOutcomes(attributes));
      RecordAllShape(old(objectAttributeResults), old(attributeOwners), o, AttributeOutcomes(attributes));
    }

    /** The loop of `doReflectAttributeValues` over the delivered attributes. */
    method ReflectAttributes(o: ObjectInstanceHandle, attributes: map<AttributeHandle, seq<JByte>>)
      requires forall a | a in attributes :: a in attributeDataType && attributeDataType[a] in knownTypes
      modifies this`attributeHandleChecked, this`errorOccurred, this`correct, this`incorrect
      modifies this`objectAttributeResults, this`attributeOwners, this`ownershipQueries
      ensures Reflected(old(Book()), Book(), o, AttributeOutcomes(attributes))
    {
      var remaining := attributes.Keys;
      ghost var done: seq<AttributeHandle> := [];
      while remaining != {}
        invariant remaining <= attributes.Keys
        invariant forall k | k in done :: k in attributes && k !in remaining
        invariant forall k | k in attributes :: k in remaining || k in done
        invariant Distinct(done)
        invariant Book() == Fold(old(Book()), o, AttributeOutcomes(attributes), done)
        decreases remaining
      {
        var a :| a in remaining;
        ReflectAttribute(o, a, attributes[a]);
        assert (done + [a])[..|done|] == done;
        remaining := remaining - {a};
        done := done + [a];
      }
      FoldAll(old(Book()), o, AttributeOutcomes(attributes), done);
    }
  }
}
