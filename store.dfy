/** The shapes the extension keeps in local storage, and the store itself.

    Two keys are used: one holds the question list (`scilympiadTestData`),
    the other the loop state (`scilympiadLoopState`). The store is a class
    whose two fields are those keys; absence of a key is `Missing` / `None`. */
module Store {
  import opened Seqs

  /** One question as the generative model produces it and as the preview
      page saves it. A field the JavaScript object may lack is an Option. */
  datatype Question = Question(
    number: int,
    text: Option<string>,
    qType: Option<string>,
    options: Option<seq<string>>,
    answer: Option<string>,
    image: Option<string>,
    requiresImage: bool)

  /** A stored value as the scripts see it before unwrapping: absent (or a
      falsy value), some other primitive, an array of elements, or a plain
      object whose properties appear in the order `Object.keys` lists them. */
  datatype Stored<T> =
    | Missing
    | Primitive
    | Array(items: seq<T>)
    | Object(props: seq<(string, Stored<T>)>)

  /** Progress through the question list; the index is only ever written as
      0 or as one more than a previous index, so it is never negative. */
  datatype LoopState = LoopState(isRunning: bool, currentIndex: nat)

  /** The state written by "stop / reset" and by the preview page's save. */
  const Idle: LoopState := LoopState(false, 0)

  /** The browser's local key-value store, reduced to the two keys used. */
  class LocalStore {
    var testData: Stored<Question>
    var loopState: Option<LoopState>

    constructor (testData: Stored<Question>, loopState: Option<LoopState>)
      ensures this.testData == testData && this.loopState == loopState
    {
      this.testData := testData;
      this.loopState := loopState;
    }

    /** `chrome.storage.local.set({ scilympiadTestData: v })`. */
    method SetTestData(v: Stored<Question>)
      modifies this
      ensures testData == v && loopState == old(loopState)
    {
      testData := v;
    }

    /** `chrome.storage.local.set({ scilympiadLoopState: s })`. */
    method SetLoopState(s: LoopState)
      modifies this
      ensures loopState == Some(s) && testData == old(testData)
    {
      loopState := Some(s);
    }

    /** `chrome.storage.local.remove('scilympiadTestData')`. */
    method RemoveTestData()
      modifies this
      ensures testData == Missing && loopState == old(loopState)
    {
      testData := Missing;
    }
  }
}
