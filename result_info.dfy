/**
 * Per-field result bookkeeping: `ResultInfo` counts correct and incorrect
 * encodings of one interaction parameter or object attribute and keeps one
 * diagnostic text; `ResultInfoAttribute` adds what is known about the federate
 * that owns a failing attribute.
 *
 * The state of a `ResultInfo` is a `Tally`; `Added` is what one `addInfo` call
 * does to it, and `Replay` is the state after a whole sequence of calls. The
 * lemmas say what the replay amounts to, against definitions that count directly.
 */
module ResultInfos {
  import opened Wrappers
  import opened Hla

  /** One call of `addInfo`: the verdict and the text that came with it. */
  datatype Outcome = Outcome(correct: bool, text: string)

  /** The observable state of a `ResultInfo`. */
  datatype Tally = Tally(correctCount: nat, incorrectCount: nat, text: Option<string>)

  /** A new `ResultInfo`: no verdicts, no text. */
  const Empty := Tally(0, 0, None)

  /**
   * `addInfo`: one counter goes up; the text is stored when there is none yet
   * and overwritten by every incorrect outcome.
   */
  function Added(t: Tally, o: Outcome): (r: Tally)
    ensures r.correctCount - t.correctCount == (if o.correct then 1 else 0)
    ensures r.incorrectCount - t.incorrectCount == (if o.correct then 0 else 1)
    ensures r.text.Some?
    ensures t.text.None? || !o.correct ==> r.text == Some(o.text)
    ensures t.text.Some? && o.correct ==> r.text == t.text
  {
    Tally(if o.correct then t.correctCount + 1 else t.correctCount,
          if o.correct then t.incorrectCount else t.incorrectCount + 1,
          if t.text.None? || !o.correct then Some(o.text) else t.text)
  }

  /** The state after `addInfo` was called with each outcome of `h` in turn. */
  function Replay(h: seq<Outcome>): Tally
    decreases |h|
  {
    if h == [] then Empty else Added(Replay(h[..|h| - 1]), h[|h| - 1])
  }

  /** Number of correct outcomes in a history, counted from the front. */
  function CorrectCount(h: seq<Outcome>): nat
    decreases |h|
  {
    if h == [] then 0 else (if h[0].correct then 1 else 0) + CorrectCount(h[1..])
  }

  /** Number of incorrect outcomes in a history, counted from the front. */
  function IncorrectCount(h: seq<Outcome>): nat
    decreases |h|
  {
    if h == [] then 0 else (if h[0].correct then 0 else 1) + IncorrectCount(h[1..])
  }

  /** The text of the most recent incorrect outcome, if there is one. */
  function LastFailure(h: seq<Outcome>): (r: Option<string>)
    ensures r.Some? <==> exists i :: 0 <= i < |h| && !h[i].correct
    ensures r.Some? ==> exists i :: 0 <= i < |h| && !h[i].correct && h[i].text == r.value &&
                          forall j :: i < j < |h| ==> h[j].correct
    decreases |h|
  {
    if h == [] then None
    else if !h[|h| - 1].correct then Some(h[|h| - 1].text)
    else
      var r := LastFailure(h[..|h| - 1]);
      assert forall i :: 0 <= i < |h| - 1 ==> h[..|h| - 1][i] == h[i];
      r
  }

  /** Counting from the back gives the same numbers as counting from the front. */
  lemma {:induction false} CountSnoc(h: seq<Outcome>, o: Outcome)
    ensures CorrectCount(h + [o]) == CorrectCount(h) + (if o.correct then 1 else 0)
    ensures IncorrectCount(h + [o]) == IncorrectCount(h) + (if o.correct then 0 else 1)
    decreases |h|
  {
    if h == [] {
      assert ([] + [o])[1..] == [];
    } else {
      CountSnoc(h[1..], o);
      assert (h + [o])[1..] == h[1..] + [o];
    }
  }

  /** The counters of a `ResultInfo` are the numbers of correct and incorrect outcomes. */
  lemma {:induction false} ReplayCounts(h: seq<Outcome>)
    ensures Replay(h).correctCount == CorrectCount(h)
    ensures Replay(h).incorrectCount == IncorrectCount(h)
    decreases |h|
  {
    if h != [] {
      var front := h[..|h| - 1];
      ReplayCounts(front);
      CountSnoc(front, h[|h| - 1]);
      assert front + [h[|h| - 1]] == h;
    }
  }

  /** Every recorded outcome raises exactly one of the two counters. */
  lemma {:induction false} CountsSumToCalls(h: seq<Outcome>)
    ensures Replay(h).correctCount + Replay(h).incorrectCount == |h|
    decreases |h|
  {
    if h != [] {
      CountsSumToCalls(h[..|h| - 1]);
    }
  }

  /**
   * The stored text is the latest failure's text if any outcome was incorrect,
   * otherwise the first outcome's text, and absent only before the first outcome.
   */
  lemma {:induction false} StoredTextIsLastFailureOrFirst(h: seq<Outcome>)
    ensures Replay(h).text == if LastFailure(h).Some? then LastFailure(h)
                              else if h == [] then None
                              else Some(h[0].text)
    decreases |h|
  {
    if |h| > 1 {
      var front := h[..|h| - 1];
      StoredTextIsLastFailureOrFirst(front);
      assert front[0] == h[0];
    }
  }

  /** A correct outcome after the first one never changes the stored text. */
  lemma CorrectOutcomeKeepsText(h: seq<Outcome>, text: string)
    requires h != []
    ensures Replay(h + [Outcome(true, text)]).text == Replay(h).text
  {
    assert (h + [Outcome(true, text)])[..|h|] == h;
    StoredTextIsLastFailureOrFirst(h);
  }

  /**
   * `ResultInfo`. `history` is the ghost record of every `AddInfo` call; `Valid`
   * says the counters and the text are its replay.
   */
  class ResultInfo {
    var correctCount: nat
    var incorrectCount: nat
    var text: Option<string>
    ghost var history: seq<Outcome>

    ghost function State(): Tally
      reads this
    {
      Tally(correctCount, incorrectCount, text)
    }

    ghost predicate Valid()
      reads this
    {
      State() == Replay(history)
    }

    constructor ()
      ensures State() == Empty && history == [] && Valid()
    {
      correctCount := 0;
      incorrectCount := 0;
      text := None;
      history := [];
    }

    /** `addInfo`: records one verdict and its text. */
    method AddInfo(correct: bool, msg: string)
      modifies this
      ensures State() == Added(old(State()), Outcome(correct, msg))
      ensures history == old(history) + [Outcome(correct, msg)]
      ensures old(Valid()) ==> Valid()
    {
      if correct {
        correctCount := correctCount + 1;
      } else {
        incorrectCount := incorrectCount + 1;
      }
      if text.None? {
        text := Some(msg);
      } else if !correct {
        text := Some(msg);
      }
      history := history + [Outcome(correct, msg)];
      assert history[..|history| - 1] == old(history);
    }
  }

  /**
   * What `ResultInfoAttribute` adds to `ResultInfo`: the handle and the name of
   * the federate that owns the attribute, and whether the name is known.
   */
  datatype Ownership = Ownership(handle: Option<FederateHandle>, name: Option<string>, gotName: bool)

  /** A new `ResultInfoAttribute`: no owner handle, no name, name not known. */
  const Unowned := Ownership(None, None, false)

  /** `addFederateHandle`. */
  function WithHandle(w: Ownership, handle: FederateHandle): (r: Ownership)
    ensures r.handle == Some(handle)
    ensures r.name == w.name && r.gotName == w.gotName
  {
    w.(handle := Some(handle))
  }

  /** `addFederateName`: the name is stored and marked as known. */
  function WithName(w: Ownership, name: string): (r: Ownership)
    ensures r.name == Some(name) && r.gotName
    ensures r.handle == w.handle
  {
    w.(name := Some(name), gotName := true)
  }
}
