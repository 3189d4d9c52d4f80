/**
 * The abstract content of the tester's two-level result maps (interaction ->
 * parameter -> result, object -> attribute -> result): the `Tally` of every
 * field, and the two ways the tester changes it: one outcome for one field
 * (`addParameterResult`, `addAttributeResult`) and one outcome for every field
 * of a delivered update.
 */
module ResultMaps {
  import opened Wrappers
  import opened ResultInfos

  /** Result states keyed by class (or instance) and then by field. */
  type Tallies<C, F> = map<C, map<F, Tally>>

  /** The entry for (c, f) of a two-level map, if there is one. */
  function Lookup<C, F, V>(m: map<C, map<F, V>>, c: C, f: F): Option<V> {
    if c in m && f in m[c] then Some(m[c][f]) else None
  }

  /** Two two-level maps with the same keys at both levels. */
  predicate SameShape<C, F, V, W>(m: map<C, map<F, V>>, n: map<C, map<F, W>>) {
    && m.Keys == n.Keys
    && forall c | c in m :: m[c].Keys == n[c].Keys
  }

  /** `m` with (c, f) mapped to `v`, creating the inner map for `c` if needed. */
  function Put<C, F, V>(m: map<C, map<F, V>>, c: C, f: F, v: V): (r: map<C, map<F, V>>)
    ensures Lookup(r, c, f) == Some(v)
  {
    m[c := (if c in m then m[c] else map[])[f := v]]
  }

  /** Putting one entry leaves every other entry as it was. */
  lemma PutEffect<C, F, V>(m: map<C, map<F, V>>, c: C, f: F, v: V)
    ensures forall c', f' | c' != c || f' != f :: Lookup(Put(m, c, f, v), c', f') == Lookup(m, c', f')
  {
  }

  /** Putting the same key into two maps of the same shape keeps them alike. */
  lemma PutShape<C, F, V, W>(m: map<C, map<F, V>>, n: map<C, map<F, W>>, c: C, f: F, v: V, w: W)
    requires SameShape(m, n)
    ensures SameShape(Put(m, c, f, v), Put(n, c, f, w))
  {
  }

  /** Overwriting an entry that exists keeps the shape of the map. */
  lemma PutExistingShape<C, F, V, W>(m: map<C, map<F, V>>, n: map<C, map<F, W>>, c: C, f: F, w: W)
    requires SameShape(m, n) && Lookup(m, c, f).Some?
    ensures SameShape(m, Put(n, c, f, w))
  {
  }

  /** The state of (c, f) so far; a field never seen is in the state of a new `ResultInfo`. */
  function Prior<C, F>(h: Tallies<C, F>, c: C, f: F): Tally {
    if c in h && f in h[c] then h[c][f] else Empty
  }

  /** One more outcome for the field (c, f), creating its entry on first use. */
  function Recorded<C, F>(h: Tallies<C, F>, c: C, f: F, o: Outcome): Tallies<C, F> {
    Put(h, c, f, Added(Prior(h, c, f), o))
  }

  /**
   * After one outcome the entry exists and has taken exactly that outcome (a new
   * entry holds it alone, with counts 1/0 or 0/1); no other entry changed and none
   * appeared.
   */
  lemma RecordedEffect<C, F>(h: Tallies<C, F>, c: C, f: F, o: Outcome)
    ensures Lookup(Recorded(h, c, f, o), c, f) == Some(Added(Prior(h, c, f), o))
    ensures Lookup(h, c, f).None? ==>
              Lookup(Recorded(h, c, f, o), c, f) ==
                Some(if o.correct then Tally(1, 0, Some(o.text)) else Tally(0, 1, Some(o.text)))
    ensures forall c', f' | c' != c || f' != f ::
              Lookup(Recorded(h, c, f, o), c', f') == Lookup(h, c', f')
    ensures Recorded(h, c, f, o).Keys == h.Keys + {c}
  {
  }

  /**
   * `addParameterResult` and the map part of `addAttributeResult`: a class that
   * is not managed yet gets a new inner map holding a new result (branch A), a
   * field that is not managed yet gets a new result (branch C), and a managed
   * field's result takes the verdict (branch D). A new result is a fresh
   * `ResultInfo` after one `addInfo`.
   */
  method AddResult<C, F>(m: Tallies<C, F>, c: C, f: F, b: bool, text: string) returns (r: Tallies<C, F>)
    ensures r == Recorded(m, c, f, Outcome(b, text))
  {
    var outcome := Outcome(b, text);
    if c !in m {
      r := m[c := map[f := Added(Empty, outcome)]];
    } else {
      var fieldResults := m[c];
      if f !in fieldResults {
        r := m[c := fieldResults[f := Added(Empty, outcome)]];
      } else {
        r := m[c := fieldResults[f := Added(fieldResults[f], outcome)]];
      }
    }
  }

  /** The fields whose outcome is correct. */
  function Passed<F>(outs: map<F, Outcome>): set<F> {
    set f | f in outs && outs[f].correct
  }

  /** The fields whose outcome is incorrect. */
  function Failed<F>(outs: map<F, Outcome>): set<F> {
    set f | f in outs && !outs[f].correct
  }

  /** Every delivered field is counted once, as correct or as incorrect. */
  lemma PassedFailedPartition<F>(outs: map<F, Outcome>)
    ensures |Passed(outs)| + |Failed(outs)| == |outs|
  {
    assert Passed(outs) + Failed(outs) == outs.Keys;
    assert Passed(outs) !! Failed(outs);
  }

  /** Adding one field's outcome adds that field to exactly one of the two sets. */
  lemma PassedFailedStep<F>(outs: map<F, Outcome>, f: F, o: Outcome)
    requires f !in outs
    ensures Passed(outs[f := o]) == if o.correct then Passed(outs) + {f} else Passed(outs)
    ensures Failed(outs[f := o]) == if o.correct then Failed(outs) else Failed(outs) + {f}
    ensures |Passed(outs[f := o])| == |Passed(outs)| + (if o.correct then 1 else 0)
    ensures |Failed(outs[f := o])| == |Failed(outs)| + (if o.correct then 0 else 1)
    ensures Failed(outs[f := o]) != {} <==> Failed(outs) != {} || !o.correct
  {
    assert f !in Passed(outs) && f !in Failed(outs);
    if o.correct {
      assert Passed(outs[f := o]) == Passed(outs) + {f};
      assert Failed(outs[f := o]) == Failed(outs);
    } else {
      assert Passed(outs[f := o]) == Passed(outs);
      assert Failed(outs[f := o]) == Failed(outs) + {f};
    }
  }

  /**
   * Every field of one delivered update for class `c` takes its outcome. An empty
   * update leaves the map as it was (no entry for `c` is created).
   */
  function RecordAll<C, F>(h: Tallies<C, F>, c: C, outs: map<F, Outcome>): Tallies<C, F> {
    if outs == map[] then h
    else
      var inner := if c in h then h[c] else map[];
      h[c := map f | f in inner.Keys + outs.Keys ::
                 if f in outs then Added(Prior(h, c, f), outs[f]) else inner[f]]
  }

  /**
   * What a delivery does to each entry: every delivered field of `c` has taken
   * exactly its outcome, every other entry is as before.
   */
  lemma RecordAllEffect<C, F>(h: Tallies<C, F>, c: C, outs: map<F, Outcome>)
    ensures forall f | f in outs :: Lookup(RecordAll(h, c, outs), c, f) == Some(Added(Prior(h, c, f), outs[f]))
    ensures forall c', f' | c' != c || f' !in outs :: Lookup(RecordAll(h, c, outs), c', f') == Lookup(h, c', f')
  {
  }

  /** Recording a delivery field by field: one more field is one more `Recorded`. */
  lemma RecordAllStep<C, F>(h: Tallies<C, F>, c: C, outs: map<F, Outcome>, f: F, o: Outcome)
    requires f !in outs
    ensures RecordAll(h, c, outs[f := o]) == Recorded(RecordAll(h, c, outs), c, f, o)
  {
    var before := RecordAll(h, c, outs);
    var left := RecordAll(h, c, outs[f := o]);
    var right := Recorded(before, c, f, o);
    assert Prior(before, c, f) == Prior(h, c, f);
    assert left[c].Keys == right[c].Keys;
    assert left[c] == right[c];
  }
}
