/** The bootstrap of content.js: on every page load the script reads the
    question list and the loop state from the store and either resumes the
    automation at the stored index, offers to start it, or does nothing.

    A page load runs `processQuestion` at most once, on the page it sees;
    a load in which it throws leaves the stored state alone. Reloads, alerts
    and the injected buttons are not modelled; a reload is simply the next
    call of `Bootstrap` on the stored state. */
module Resume {
  import opened Seqs
  import opened Store
  import Automator

  /** What the bootstrap decides to do on one page load. */
  datatype Mode =
    | Resuming(index: nat, question: Question)
    | OfferingStart(count: nat)
    | Inactive

  /** The stored question list when it is an array (`data && data.length`);
      any other stored value has no usable length. */
  function QuestionList(data: Stored<Question>): (r: Option<seq<Question>>)
    ensures r.Some? <==> data.Array?
    ensures r.Some? ==> r.value == data.items
  {
    if data.Array? then Some(data.items) else None
  }

  /** `result.scilympiadLoopState || { isRunning: false, currentIndex: 0 }`. */
  function CurrentState(ls: Option<LoopState>): (s: LoopState)
    ensures ls.None? ==> s == Idle
    ensures ls.Some? ==> s == ls.value
  {
    ls.GetOr(Idle)
  }

  /** `state.isRunning && data && state.currentIndex < data.length`. */
  predicate ResumeCondition(data: Stored<Question>, ls: Option<LoopState>) {
    var s := CurrentState(ls);
    s.isRunning && data.Array? && s.currentIndex < |data.items|
  }

  /** The branch the bootstrap takes on a load. */
  function ModeOf(data: Stored<Question>, ls: Option<LoopState>): (m: Mode)
    ensures m.Resuming? <==> ResumeCondition(data, ls)
    ensures m.Resuming? ==> m.index == CurrentState(ls).currentIndex
                            && m.question == data.items[m.index]
    ensures m.OfferingStart? <==> !ResumeCondition(data, ls) && data.Array? && |data.items| > 0
    ensures m.OfferingStart? ==> m.count == |data.items|
  {
    var s := CurrentState(ls);
    match QuestionList(data)
    case Some(items) =>
      if s.isRunning && s.currentIndex < |items| then Resuming(s.currentIndex, items[s.currentIndex])
      else if |items| > 0 then OfferingStart(|items|)
      else Inactive
    case None => Inactive
  }

  /** The stored loop state after a load: one past the processed index when
      the question was processed without an exception, otherwise as it was. */
  function AfterLoad(data: Stored<Question>, ls: Option<LoopState>, completed: bool): Option<LoopState> {
    var s := CurrentState(ls);
    if ResumeCondition(data, ls) && completed then Some(s.(currentIndex := s.currentIndex + 1)) else ls
  }

  /** Whether the load's `processQuestion` throws: only in resume mode,
      and only when the resumed question throws on `page`. */
  predicate LoadThrows(data: Stored<Question>, ls: Option<LoopState>, page: Automator.Page) {
    var m := ModeOf(data, ls);
    m.Resuming? && Automator.Throws(m.question, page)
  }

  /** One page load on `page`: the question is processed in resume mode, and
      the index advances only when that did not throw. */
  method Bootstrap(store: LocalStore, page: Automator.Page) returns (mode: Mode, run: Option<Automator.Run>)
    modifies store
    ensures mode == ModeOf(old(store.testData), old(store.loopState))
    ensures run.Some? <==> mode.Resuming?
    ensures run.Some? ==> Automator.Processed(mode.question, page, run.value)
    ensures store.testData == old(store.testData)
    ensures store.loopState == AfterLoad(old(store.testData), old(store.loopState),
                                         !LoadThrows(old(store.testData), old(store.loopState), page))
  {
    var data := store.testData;
    var state := CurrentState(store.loopState);
    var list := QuestionList(data);
    run := None;
    if state.isRunning && list.Some? && state.currentIndex < |list.value| {
      var q := list.value[state.currentIndex];
      mode := Resuming(state.currentIndex, q);
      var r := Automator.ProcessQuestion(q, page);
      run := Some(r);
      assert r.threw == Automator.Throws(q, page);
      if !r.threw {
        state := state.(currentIndex := state.currentIndex + 1);
        store.SetLoopState(state);
      }
    } else if list.Some? && |list.value| > 0 {
      mode := OfferingStart(|list.value|);
    } else {
      mode := Inactive;
    }
  }

  /** The "STOP / RESET" button. */
  method StopAndReset(store: LocalStore)
    modifies store
    ensures store.loopState == Some(Idle) && store.testData == old(store.testData)
  {
    store.SetLoopState(LoopState(false, 0));
  }

  /** The "Start Upload" button; `contextValid` is whether the extension
      context (`chrome.runtime.id`) is still there. */
  method StartUpload(store: LocalStore, contextValid: bool)
    modifies store
    ensures contextValid ==> store.loopState == Some(LoopState(true, 0))
    ensures !contextValid ==> store.loopState == old(store.loopState)
    ensures store.testData == old(store.testData)
  {
    if contextValid {
      store.SetLoopState(LoopState(true, 0));
    }
  }

  /** The "Clear Data" button. */
  method ClearData(store: LocalStore, contextValid: bool)
    modifies store
    ensures contextValid ==> store.testData == Missing
    ensures !contextValid ==> store.testData == old(store.testData)
    ensures store.loopState == old(store.loopState)
  {
    if contextValid {
      store.RemoveTestData();
    }
  }

  // ---------------------------------------------------------------------
  // Properties

  /** Without a stored loop state the automation never resumes. */
  lemma AbsentStateNeverResumes(data: Stored<Question>)
    ensures !ModeOf(data, None).Resuming?
    ensures AfterLoad(data, None, true) == None
  {
  }

  /** A load changes the stored state only by advancing the index by one,
      to at most the number of questions, and only when the question was
      processed without an exception. */
  lemma AfterLoadAdvances(data: Stored<Question>, ls: Option<LoopState>, completed: bool)
    ensures var after := AfterLoad(data, ls, completed);
      after != ls ==> completed && ResumeCondition(data, ls) && after.Some?
                      && after.value.isRunning
                      && after.value.currentIndex == CurrentState(ls).currentIndex + 1
                      && after.value.currentIndex <= |data.items|
    ensures !completed ==> AfterLoad(data, ls, completed) == ls
  {
  }

  /** `currentIndex <= |data|` holds of every state the bootstrap writes and
      is kept by every load. */
  predicate InBounds(data: Stored<Question>, ls: Option<LoopState>) {
    data.Array? ==> CurrentState(ls).currentIndex <= |data.items|
  }

  lemma AfterLoadKeepsBounds(data: Stored<Question>, ls: Option<LoopState>, completed: bool)
    requires InBounds(data, ls)
    ensures InBounds(data, AfterLoad(data, ls, completed))
    ensures CurrentState(ls).currentIndex <= CurrentState(AfterLoad(data, ls, completed)).currentIndex
  {
  }

  /** `n` page loads in a row, each processing its question without an
      exception: the final stored state and the questions processed. */
  function Loads(data: Stored<Question>, ls: Option<LoopState>, n: nat): (Option<LoopState>, seq<Question>)
    decreases n
  {
    if n == 0 then (ls, [])
    else
      var m := ModeOf(data, ls);
      var rest := Loads(data, AfterLoad(data, ls, true), n - 1);
      (rest.0, (if m.Resuming? then [m.question] else []) + rest.1)
  }

  /** Resuming at `k`, the next `n` loads process questions k .. k+n-1 in
      order, once each, and leave the index at k + n. */
  lemma {:induction false} ResumesInOrder(items: seq<Question>, k: nat, n: nat)
    requires k + n <= |items|
    ensures Loads(Array(items), Some(LoopState(true, k)), n) == (Some(LoopState(true, k + n)), items[k..k + n])
    decreases n
  {
    var ls := Some(LoopState(true, k));
    if n > 0 {
      assert ModeOf(Array(items), ls) == Resuming(k, items[k]);
      assert AfterLoad(Array(items), ls, true) == Some(LoopState(true, k + 1));
      ResumesInOrder(items, k + 1, n - 1);
      var rest := Loads(Array(items), Some(LoopState(true, k + 1)), n - 1);
      assert Loads(Array(items), ls, n) == (rest.0, [items[k]] + rest.1);
      assert items[k..k + n] == [items[k]] + items[k + 1..k + n];
    } else {
      assert Loads(Array(items), ls, n) == (ls, []);
      assert Loads(Array(items), ls, n).0 == Some(LoopState(true, k + n));
      assert Loads(Array(items), ls, n).1 == items[k..k + n];
    }
  }

  /** After the last question the start button is offered again and further
      loads process nothing. */
  lemma {:induction false} FinishedRunIsIdle(items: seq<Question>, n: nat)
    requires |items| > 0
    ensures ModeOf(Array(items), Some(LoopState(true, |items|))) == OfferingStart(|items|)
    ensures Loads(Array(items), Some(LoopState(true, |items|)), n) == (Some(LoopState(true, |items|)), [])
    decreases n
  {
    var ls := Some(LoopState(true, |items|));
    assert !ResumeCondition(Array(items), ls);
    if n > 0 {
      assert AfterLoad(Array(items), ls, true) == ls;
      FinishedRunIsIdle(items, n - 1);
      assert Loads(Array(items), ls, n).0 == Loads(Array(items), ls, n - 1).0;
      assert Loads(Array(items), ls, n).1 == [] + Loads(Array(items), ls, n - 1).1;
    }
    assert Loads(Array(items), ls, n).0 == ls;
    assert Loads(Array(items), ls, n).1 == [];
  }

  /** A full run: starting at 0, |items| successful loads process every
      question exactly once, in list order. */
  lemma FullRun(items: seq<Question>)
    ensures Loads(Array(items), Some(LoopState(true, 0)), |items|) == (Some(LoopState(true, |items|)), items)
  {
    ResumesInOrder(items, 0, |items|);
    assert items[0..|items|] == items;
  }

  /** A load that throws leaves the state as it was, so the next load
      resumes the same question again. */
  lemma ThrowRetriesSameQuestion(data: Stored<Question>, ls: Option<LoopState>)
    requires ResumeCondition(data, ls)
    ensures ModeOf(data, AfterLoad(data, ls, false)) == ModeOf(data, ls)
  {
  }

  /** The answer-step throw stalls a run: resuming at a short-answer
      question (no options, a non-empty answer that is not a letter A-F) on
      a page that shows answer controls, the load throws and stores nothing,
      so every further load on such a page resumes that question again. */
  lemma {:induction false} ShortAnswerStallsRun(items: seq<Question>, k: nat, page: Automator.Page)
    requires k < |items| && items[k].options.None?
    requires items[k].answer.Some? && items[k].answer.value != "" && !Automator.IsOptionLetter(items[k].answer.value)
    requires Automator.AnswerInputs(page.marked, page.radios, page.header) != []
    ensures var ls := Some(LoopState(true, k));
      LoadThrows(Array(items), ls, page)
      && AfterLoad(Array(items), ls, !LoadThrows(Array(items), ls, page)) == ls
      && ModeOf(Array(items), ls) == Resuming(k, items[k])
  {
    var ls := Some(LoopState(true, k));
    assert ModeOf(Array(items), ls) == Resuming(k, items[k]);
    Automator.AnswerStepThrowsExactly(items[k].answer, items[k].options,
                                      Automator.AnswerInputs(page.marked, page.radios, page.header));
  }
}
