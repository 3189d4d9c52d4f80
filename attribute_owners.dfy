/**
 * The owner information that each `ResultInfoAttribute` of the tester's
 * attribute result map carries beside its `ResultInfo` state: one `Ownership`
 * per (object instance, attribute), in a map of maps of the same shape as the
 * attribute results.
 */
module AttributeOwners {
  import opened Wrappers
  import opened Hla
  import opened ResultInfos
  import opened ResultMaps

  type Owners = map<ObjectInstanceHandle, map<AttributeHandle, Ownership>>

  /** `haveFederateName` of the entry (o, a); false when there is no entry. */
  predicate KnowsOwnerName(owners: Owners, o: ObjectInstanceHandle, a: AttributeHandle) {
    Lookup(owners, o, a).Some? && Lookup(owners, o, a).value.gotName
  }

  /** A new entry for (o, a) starts unowned; an existing entry keeps its owner. */
  function WithEntry(owners: Owners, o: ObjectInstanceHandle, a: AttributeHandle): Owners {
    if Lookup(owners, o, a).Some? then owners else Put(owners, o, a, Unowned)
  }

  /** The handle is stored; the name only when the RTI could name the owner. */
  function Inform(w: Ownership, owner: FederateHandle, lookedUpName: Option<string>): Ownership {
    var withHandle := WithHandle(w, owner);
    if lookedUpName.Some? then WithName(withHandle, lookedUpName.value) else withHandle
  }

  /** `informAttributeOwnership` on the owner information of every entry. */
  function Informed(owners: Owners, o: ObjectInstanceHandle, a: AttributeHandle,
                    owner: FederateHandle, lookedUpName: Option<string>): Owners
  {
    if Lookup(owners, o, a).None? then owners
    else Put(owners, o, a, Inform(owners[o][a], owner, lookedUpName))
  }

  /**
   * Recording a verdict for (o, a) creates an unowned entry when there was none,
   * keeps an existing entry's owner, changes no other entry, and never changes
   * whether any owner's name is known.
   */
  lemma WithEntryEffect(owners: Owners, o: ObjectInstanceHandle, a: AttributeHandle)
    ensures Lookup(WithEntry(owners, o, a), o, a) ==
              if Lookup(owners, o, a).Some? then Lookup(owners, o, a) else Some(Unowned)
    ensures forall o', a' | o' != o || a' != a :: Lookup(WithEntry(owners, o, a), o', a') == Lookup(owners, o', a')
    ensures forall o', a' :: KnowsOwnerName(WithEntry(owners, o, a), o', a') == KnowsOwnerName(owners, o', a')
  {
    PutEffect(owners, o, a, Unowned);
  }

  /**
   * The owner notification never creates an entry and changes no other entry;
   * an existing entry takes the owner's handle, and its owner's name becomes
   * known exactly when it was known before or the RTI could name the owner.
   */
  lemma InformedEffect(owners: Owners, o: ObjectInstanceHandle, a: AttributeHandle,
                       owner: FederateHandle, lookedUpName: Option<string>)
    ensures forall o', a' ::
              (Lookup(Informed(owners, o, a, owner, lookedUpName), o', a').Some? <==> Lookup(owners, o', a').Some?)
    ensures forall o', a' | o' != o || a' != a ::
              Lookup(Informed(owners, o, a, owner, lookedUpName), o', a') == Lookup(owners, o', a')
    ensures Lookup(owners, o, a).Some? ==>
              Lookup(Informed(owners, o, a, owner, lookedUpName), o, a).value.handle == Some(owner)
    ensures (KnowsOwnerName(Informed(owners, o, a, owner, lookedUpName), o, a) <==>
             KnowsOwnerName(owners, o, a) || (Lookup(owners, o, a).Some? && lookedUpName.Some?))
  {
    if Lookup(owners, o, a).Some? {
      PutEffect(owners, o, a, Inform(owners[o][a], owner, lookedUpName));
    }
  }

  /**
   * Every attribute of `outs` has an entry for `o`: new entries are unowned,
   * existing ones keep their owner. An empty update changes nothing.
   */
  function WithEntries<X>(owners: Owners, o: ObjectInstanceHandle, outs: map<AttributeHandle, X>): Owners {
    if outs == map[] then owners
    else
      var inner := if o in owners then owners[o] else map[];
      owners[o := map a | a in inner.Keys + outs.Keys :: if a in inner then inner[a] else Unowned]
  }

  /** Adding the entries one attribute at a time. */
  lemma WithEntriesStep<X>(owners: Owners, o: ObjectInstanceHandle, outs: map<AttributeHandle, X>, a: AttributeHandle, x: X)
    requires a !in outs
    ensures WithEntries(owners, o, outs[a := x]) == WithEntry(WithEntries(owners, o, outs), o, a)
  {
    var left := WithEntries(owners, o, outs[a := x]);
    var right := WithEntry(WithEntries(owners, o, outs), o, a);
    assert left[o].Keys == right[o].Keys;
    assert left[o] == right[o];
  }

  /** Adding entries never changes whether any owner's name is known. */
  lemma WithEntriesKnows<X>(owners: Owners, o: ObjectInstanceHandle, outs: map<AttributeHandle, X>)
    ensures forall o', a' :: KnowsOwnerName(WithEntries(owners, o, outs), o', a') == KnowsOwnerName(owners, o', a')
  {
  }

  /** Results and owner information gain their entries together. */
  lemma RecordedShape(t: Tallies<ObjectInstanceHandle, AttributeHandle>, w: Owners,
                      o: ObjectInstanceHandle, a: AttributeHandle, out: Outcome)
    requires SameShape(t, w)
    ensures SameShape(Recorded(t, o, a, out), WithEntry(w, o, a))
  {
    if Lookup(w, o, a).None? {
      PutShape(t, w, o, a, Added(Prior(t, o, a), out), Unowned);
    }
  }

  /** A delivery gives the same attributes new results and new owner entries. */
  lemma RecordAllShape(t: Tallies<ObjectInstanceHandle, AttributeHandle>, w: Owners,
                       o: ObjectInstanceHandle, outs: map<AttributeHandle, Outcome>)
    requires SameShape(t, w)
    ensures SameShape(RecordAll(t, o, outs), WithEntries(w, o, outs))
  {
    if outs != map[] {
      var after := RecordAll(t, o, outs);
      assert after[o].Keys == WithEntries(w, o, outs)[o].Keys;
    }
  }
}
