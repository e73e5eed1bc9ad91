/** The automation driver of content.js: what `processQuestion` does for one
    question, with every heuristic DOM lookup reduced to the result the page
    gives it.

    Elements are identified by their position in document order. Delays are
    not modelled (the steps are in sequence either way); the editor-count poll
    reads the number of visible editors from `observed`, where `observed(i)`
    is the count seen at check `i`. */
module Automator {
  import opened Seqs
  import opened Strings
  import opened Store
  import opened Bridge

  // ---------------------------------------------------------------------
  // Text cleanup (content.js:79-85)

  /** A leading label such as "A.", "b)" or "C:" (regex `^[A-Z][\.\)\:]`
      with the `i` flag). */
  predicate HasLabel(t: string) {
    |t| >= 2 && IsAsciiLetter(t[0]) && (t[1] == '.' || t[1] == ')' || t[1] == ':')
  }

  /** `.replace(/,$/, '')`. */
  predicate EndsInComma(t: string) {
    t != [] && t[|t| - 1] == ','
  }

  /** The stages of `cleanText`: where the text starts once a leading label
      and the white space after it are dropped, and where it ends once a
      trailing comma is dropped. */
  function LabelEnd(t: string): (c: nat)
    ensures c <= |t|
    ensures HasLabel(t) ==> c >= 2
    ensures !HasLabel(t) ==> c == 0
  {
    if HasLabel(t) then SkipSpace(t, 2) else 0
  }

  function CommaEnd(t: string): (e: nat)
    ensures e <= |t|
    ensures EndsInComma(t) ==> e == |t| - 1
    ensures !EndsInComma(t) ==> e == |t|
  {
    if EndsInComma(t) then |t| - 1 else |t|
  }

  /** `cleanText`: trim, drop one leading label with the white space after
      it, drop one trailing comma, trim again. `None` is null or undefined. */
  function CleanText(text: Option<string>): (r: string)
    ensures IsTrimmed(r)
    ensures text.None? || text.value == "" ==> r == ""
    ensures text.Some? ==> |r| <= |text.value|
  {
    match text
    case None => ""
    case Some(s) =>
      if s == "" then ""
      else
        var t := Trim(s);
        var t1 := t[LabelEnd(t)..];
        Trim(t1[..CommaEnd(t1)])
  }

  /** Trimming, cutting `c` characters from the front, keeping the first
      `e`, and trimming again leaves a piece of the input. */
  lemma TrimCutTrim(s: string, c: nat, e: nat) returns (i: nat)
    requires c <= |Trim(s)| && e <= |Trim(s)| - c
    ensures var r := Trim(Trim(s)[c..][..e]);
      i + |r| <= |s| && forall k :: 0 <= k < |r| ==> r[k] == s[i + k]
  {
    var t := Trim(s);
    var t1 := t[c..];
    var t2 := t1[..e];
    var f := TrimFrom(t2);
    var r := Trim(t2);
    i := TrimFrom(s) + c + f;
    forall k | 0 <= k < |r| ensures r[k] == s[i + k] {
      TrimAt(t2, k);
      TakeAt(t1, e, f + k);
      DropAt(t, c, f + k);
      TrimAt(s, c + f + k);
    }
  }

  /** Cleaning only cuts characters off the two ends: the result is the
      piece of the input that starts at `i`. */
  lemma CleanTextIsSlice(s: string) returns (i: nat)
    ensures i + |CleanText(Some(s))| <= |s|
    ensures forall k :: 0 <= k < |CleanText(Some(s))| ==> CleanText(Some(s))[k] == s[i + k]
  {
    if s == "" {
      i := 0;
    } else {
      var t := Trim(s);
      var t1 := t[LabelEnd(t)..];
      i := TrimCutTrim(s, LabelEnd(t), CommaEnd(t1));
    }
  }

  /** `cleanText` leaves a string alone exactly when it is already trimmed,
      has no leading label and does not end in a comma. */
  lemma CleanTextFixedPoint(s: string)
    ensures CleanText(Some(s)) == s <==> IsTrimmed(s) && !HasLabel(s) && !EndsInComma(s)
  {
    if s != "" {
      var t := Trim(s);
      var t1 := t[LabelEnd(t)..];
      var t2 := t1[..CommaEnd(t1)];
      assert CleanText(Some(s)) == Trim(t2);
      if IsTrimmed(s) && !HasLabel(s) && !EndsInComma(s) {
        TrimOfTrimmed(s);
        assert t1 == s;
        assert t2 == s;
      }
      if CleanText(Some(s)) == s {
        assert |t| == |s|;
        assert t == s by {
          TrimSpec(s);
          assert TrimFrom(s) == 0 && TrimTo(s) == |s|;
        }
        assert |t1| == |s|;
      }
    }
  }

  /** A trimmed string with a label, `n - 2` spaces after it and then `r`,
      possibly followed by one comma, cleans to `r`. */
  lemma CleansTo(s: string, n: nat, r: string)
    requires IsTrimmed(s) && HasLabel(s) && 2 <= n < |s|
    requires forall k :: 2 <= k < n ==> IsSpace(s[k])
    requires !IsSpace(s[n])
    requires IsTrimmed(r)
    requires (s[n..] == r && !EndsInComma(r)) || s[n..] == r + ","
    ensures CleanText(Some(s)) == r
  {
    TrimOfTrimmed(s);
    SkipSpaceRun(s, 2, n);
    var t1 := s[n..];
    assert t1[..CommaEnd(t1)] == r;
    TrimOfTrimmed(r);
  }

  /** The label goes with the space after it. */
  lemma CleanTextDropsLabel()
    ensures CleanText(Some("B) Paris")) == "Paris"
  {
    CleansTo("B) Paris", 3, "Paris");
  }

  /** One trailing comma goes too. */
  lemma CleanTextDropsComma()
    ensures CleanText(Some("C: Rome,")) == "Rome"
  {
    CleansTo("C: Rome,", 3, "Rome");
  }

  /** Only one label is removed per call, so cleaning twice can remove a
      second one: `cleanText` is not idempotent. */
  lemma CleanTextNotIdempotent()
    ensures CleanText(Some("A. B. x")) == "B. x"
    ensures CleanText(Some(CleanText(Some("A. B. x")))) == "x"
  {
    CleansTo("A. B. x", 3, "B. x");
    CleansTo("B. x", 3, "x");
  }

  // ---------------------------------------------------------------------
  // Correct-answer resolution and click guard (content.js:112-139)

  /** `correct_answer` matches `/^[A-F]$/i`. */
  predicate IsOptionLetter(a: string) {
    |a| == 1 && ('A' <= a[0] <= 'F' || 'a' <= a[0] <= 'f')
  }

  /** `cleanText(x).toLowerCase()`, the key both sides are compared by. */
  function MatchKey(x: string): string {
    Lower(CleanText(Some(x)))
  }

  /** `options.findIndex(o => cleanText(o).toLowerCase() === cleanAns)`. */
  function MatchIndex(answer: string, options: seq<string>): (r: int)
    ensures -1 <= r < |options|
    ensures r == -1 <==> forall j :: 0 <= j < |options| ==> MatchKey(options[j]) != MatchKey(answer)
    ensures r >= 0 ==> MatchKey(options[r]) == MatchKey(answer)
                       && forall j :: 0 <= j < r ==> MatchKey(options[j]) != MatchKey(answer)
  {
    var key := MatchKey(answer);
    match FirstWhere((o: string) => MatchKey(o) == key, options)
    case None => -1
    case Some(k) => k
  }

  /** The index the answer resolves to, as the code is written: `None` is the
      TypeError raised when the answer is not a letter A-F and `options` is
      null (content.js:131 calls `q.options.findIndex`). */
  function AnswerIndexAsWritten(answer: string, options: Option<seq<string>>): (r: Option<int>)
    ensures IsOptionLetter(answer) ==> r == Some(UpperChar(answer[0]) as int - 65)
    ensures !IsOptionLetter(answer) ==> (r.None? <==> options.None?)
    ensures !IsOptionLetter(answer) && options.Some? ==> r == Some(MatchIndex(answer, options.value))
  {
    if IsOptionLetter(answer) then Some(UpperChar(answer[0]) as int - 65)
    else if options.None? then None
    else Some(MatchIndex(answer, options.value))
  }

  /** The index the answer resolves to, with a question that has no options
      resolving to -1 (no match) instead of throwing. */
  function AnswerIndex(answer: string, options: Option<seq<string>>): (r: int)
    ensures IsOptionLetter(answer) ==> 0 <= r < 6 && r == UpperChar(answer[0]) as int - 65
    ensures !IsOptionLetter(answer) && options.None? ==> r == -1
    ensures !IsOptionLetter(answer) && options.Some? ==> r == MatchIndex(answer, options.value)
    ensures AnswerIndexAsWritten(answer, options).Some? ==> AnswerIndexAsWritten(answer, options) == Some(r)
  {
    if IsOptionLetter(answer) then UpperChar(answer[0]) as int - 65
    else if options.None? then -1
    else MatchIndex(answer, options.value)
  }

  /** A letter answer picks the same position in either case: A-F and a-f
      both map onto 0..5 in alphabetical order. */
  lemma LetterIndex(c: char)
    requires 'A' <= c <= 'F'
    ensures AnswerIndex([c], None) == c as int - 65
    ensures AnswerIndex([LowerChar(c)], None) == c as int - 65
  {
    assert IsOptionLetter([LowerChar(c)]);
  }

  /** The correct-answer candidates: controls whose enclosing text contains
      "option is correct" (`marked`), or, when there are none, every radio
      (`radios`) that comes after `header` in document order:
      `radio.compareDocumentPosition(header) & PRECEDING` holds when the
      header precedes the radio. `header` is the position of the first
      element, in document order, whose text content contains "Specify up
      to 6 answers". Text content includes the descendants' text, so when
      such a label is on the page that first element is the root `<html>`
      element, which precedes every radio: then every radio is a candidate. */
  function AnswerInputs(marked: seq<nat>, radios: seq<nat>, header: Option<nat>): (r: seq<nat>)
    ensures marked != [] ==> r == marked
    ensures marked == [] && header.None? ==> r == []
    ensures marked == [] && header.Some? ==>
              r == Filter((x: nat) => header.value < x, radios)
              && forall x :: x in r <==> x in radios && header.value < x
  {
    if marked != [] then marked
    else match header
      case None => []
      case Some(h) =>
        FilterMembers((x: nat) => h < x, radios);
        Filter((x: nat) => h < x, radios)
  }

  /** What happens to the correct-answer controls. */
  datatype Click = NoClick | ClickAt(position: nat)

  /** The click step as written; `None` is the exception of content.js:131. */
  function AnswerClickAsWritten(answer: Option<string>, options: Option<seq<string>>, candidates: seq<nat>): Option<Click> {
    if answer.None? || answer.value == "" || candidates == [] then Some(NoClick)
    else match AnswerIndexAsWritten(answer.value, options)
      case None => None
      case Some(idx) => Some(if 0 <= idx < |candidates| then ClickAt(candidates[idx]) else NoClick)
  }

  /** The click step: a control is clicked only for a non-empty answer, a
      non-empty candidate list and an index inside it. */
  function AnswerClick(answer: Option<string>, options: Option<seq<string>>, candidates: seq<nat>): (c: Click)
    ensures c.ClickAt? <==> answer.Some? && answer.value != "" && candidates != []
                            && 0 <= AnswerIndex(answer.value, options) < |candidates|
    ensures c.ClickAt? ==> c.position == candidates[AnswerIndex(answer.value, options)]
    ensures AnswerClickAsWritten(answer, options, candidates).Some? ==> AnswerClickAsWritten(answer, options, candidates) == Some(c)
  {
    if answer.None? || answer.value == "" || candidates == [] then NoClick
    else
      var idx := AnswerIndex(answer.value, options);
      if 0 <= idx < |candidates| then ClickAt(candidates[idx]) else NoClick
  }

  /** Whether `processQuestion` throws at the answer step as written. */
  predicate AnswerStepThrows(answer: Option<string>, options: Option<seq<string>>, candidates: seq<nat>) {
    AnswerClickAsWritten(answer, options, candidates).None?
  }

  /** The answer step throws exactly for a non-empty answer that is not a
      letter A-F, on a question without options, with candidates present;
      when it does not throw it is the corrected step. */
  lemma AnswerStepThrowsExactly(answer: Option<string>, options: Option<seq<string>>, candidates: seq<nat>)
    ensures AnswerStepThrows(answer, options, candidates) <==>
              answer.Some? && answer.value != "" && candidates != [] && !IsOptionLetter(answer.value) && options.None?
    ensures !AnswerStepThrows(answer, options, candidates) ==>
              AnswerClickAsWritten(answer, options, candidates) == Some(AnswerClick(answer, options, candidates))
  {
  }

  /** A short-answer question (no options, an answer that is not a letter)
      on a form that shows answer controls throws as written; the corrected
      step clicks nothing. */
  lemma ShortAnswerThrows()
    ensures AnswerClickAsWritten(Some("photosynthesis"), None, [7, 9]).None?
    ensures AnswerClick(Some("photosynthesis"), None, [7, 9]) == NoClick
  {
  }

  /** Text with nothing for `cleanText` to remove is compared lower-cased as is. */
  lemma PlainKey(x: string)
    requires IsTrimmed(x) && !HasLabel(x) && !EndsInComma(x)
    ensures MatchKey(x) == Lower(x)
  {
    CleanTextFixedPoint(x);
  }

  // ---------------------------------------------------------------------
  // The other lookups (content.js:52-71, 142-147)

  /** An element in document order: tag name and text content. */
  datatype Element = Element(tag: string, text: string)

  predicate IsAddLabel(e: Element) {
    e.text != "" && (Lower(Trim(e.text)) == "add question" || Lower(Trim(e.text)) == "add new question")
  }

  /** The "add question" affordance that is clicked: the first element whose
      text is that label, unless it is a SCRIPT element (the search does not
      go on past it). */
  function AddButton(elements: seq<Element>): (r: Option<nat>)
    ensures r.Some? ==> r.value < |elements| && IsAddLabel(elements[r.value])
                        && elements[r.value].tag != "SCRIPT"
                        && forall k :: 0 <= k < r.value ==> !IsAddLabel(elements[k])
    ensures r.None? ==> forall k :: 0 <= k < |elements| && IsAddLabel(elements[k]) ==>
                          exists j :: 0 <= j <= k && IsAddLabel(elements[j]) && elements[j].tag == "SCRIPT"
  {
    match FirstWhere(IsAddLabel, elements)
    case None => None
    case Some(k) => if elements[k].tag != "SCRIPT" then Some(k) else None
  }

  /** An option of the Type select: its value and its label. */
  datatype SelectOption = SelectOption(value: string, text: string)

  predicate IsMultipleChoiceLabel(text: string) {
    Contains(Lower(text), "multiple choice") || Contains(Lower(text), "multiple answers")
  }

  const FallbackType: string := "3"

  /** `value` is the value of the first option labelled multiple choice or
      multiple answers, or the fallback when there is no select or no such
      option. */
  predicate IsTypeChoice(typeOptions: Option<seq<SelectOption>>, value: string) {
    match typeOptions
    case None => value == FallbackType
    case Some(os) =>
      (value == FallbackType && forall j :: 0 <= j < |os| ==> !IsMultipleChoiceLabel(os[j].text))
      || exists j :: 0 <= j < |os| && IsMultipleChoiceLabel(os[j].text) && value == os[j].value
                     && forall k :: 0 <= k < j ==> !IsMultipleChoiceLabel(os[k].text)
  }

  /** The loop over `frameSelect.options` that picks the type value. */
  method ChooseTypeValue(typeOptions: Option<seq<SelectOption>>) returns (value: string)
    ensures IsTypeChoice(typeOptions, value)
  {
    value := FallbackType;
    if typeOptions.Some? {
      var os := typeOptions.value;
      var i := 0;
      while i < |os|
        invariant 0 <= i <= |os|
        invariant value == FallbackType
        invariant forall k :: 0 <= k < i ==> !IsMultipleChoiceLabel(os[k].text)
      {
        if IsMultipleChoiceLabel(os[i].text) {
          value := os[i].value;
          return;
        }
        i := i + 1;
      }
    }
  }

  /** A candidate save control: whether it is rendered (`offsetParent` is not
      null), its text content and its value ("" when it has none). */
  datatype Button = Button(visible: bool, text: string, value: string)

  predicate IsSaveButton(b: Button) {
    b.visible
    && ((Contains(Lower(b.text), "save") && !Contains(Lower(b.text), "cancel")) || Contains(Lower(b.value), "save"))
  }

  /** The save control that is clicked: the first visible one whose text says
      save but not cancel, or whose value says save. */
  function SaveButton(buttons: seq<Button>): (r: Option<nat>)
    ensures r.Some? ==> r.value < |buttons| && IsSaveButton(buttons[r.value])
                        && forall k :: 0 <= k < r.value ==> !IsSaveButton(buttons[k])
    ensures r.None? ==> forall k :: 0 <= k < |buttons| ==> !IsSaveButton(buttons[k])
  {
    FirstWhere(IsSaveButton, buttons)
  }

  // ---------------------------------------------------------------------
  // The editor-count poll (content.js:16-25, 74)

  const MaxChecks: nat := 20

  /** `1 + q.options.length`, or 1 when the question has no options. */
  function RequiredEditors(options: Option<seq<string>>): (n: nat)
    ensures n >= 1
    ensures options.None? ==> n == 1
    ensures options.Some? ==> n == 1 + |options.value|
  {
    match options
    case None => 1
    case Some(os) => 1 + |os|
  }

  /** The poll made `checks` checks and stopped at the first one that saw at
      least `minCount` editors (`ready`), or gave up after the last. */
  predicate PollSpec(observed: nat -> nat, minCount: nat, ready: bool, checks: nat) {
    1 <= checks <= MaxChecks
    && (forall j :: 0 <= j < checks - 1 ==> observed(j) < minCount)
    && (ready <==> observed(checks - 1) >= minCount)
    && (!ready ==> checks == MaxChecks)
  }

  /** `waitForOptionsToLoad`: each check dispatches `scan`, then counts. */
  method WaitForOptionsToLoad(observed: nat -> nat, minCount: nat) returns (ready: bool, checks: nat)
    ensures PollSpec(observed, minCount, ready, checks)
  {
    checks := 0;
    while checks < MaxChecks
      invariant 0 <= checks <= MaxChecks
      invariant forall j :: 0 <= j < checks ==> observed(j) < minCount
    {
      // bridgeAction('scan') is dispatched here
      var visibleEditors := observed(checks);
      checks := checks + 1;
      if visibleEditors >= minCount {
        return true, checks;
      }
    }
    return false, checks;
  }

  /** The poll outcome is determined by the observations: it is ready
      exactly when some check of the twenty sees enough editors, and then it
      stops at the first such check. */
  lemma PollOutcomeUnique(observed: nat -> nat, minCount: nat, ready: bool, checks: nat)
    requires PollSpec(observed, minCount, ready, checks)
    ensures ready <==> exists j :: 0 <= j < MaxChecks && observed(j) >= minCount
    ensures forall checks': nat :: PollSpec(observed, minCount, ready, checks') ==> checks' == checks
  {
    if !ready {
      assert forall j :: 0 <= j < MaxChecks ==> observed(j) < minCount by {
        forall j | 0 <= j < MaxChecks ensures observed(j) < minCount {
          if j < checks - 1 { } else { assert j == checks - 1; }
        }
      }
    }
    forall checks': nat | PollSpec(observed, minCount, ready, checks') ensures checks' == checks {
      // each run stops at the first check that sees enough editors
      assert ready <==> observed(checks' - 1) >= minCount;
      assert ready <==> observed(checks - 1) >= minCount;
    }
  }

  // ---------------------------------------------------------------------
  // The dispatch plan of one question (content.js:61-105)

  /** `if (q.image)`: a non-empty image source. */
  function ImageOf(q: Question): (r: Option<string>)
    ensures r.Some? <==> q.image.Some? && q.image.value != ""
    ensures r.Some? ==> r == q.image
  {
    if q.image.Some? && q.image.value != "" then q.image else None
  }

  function ImageHtml(src: string): string {
    "<br><img src=\"" + src + "\" style=\"max-width: 100%; margin-top: 10px;\">"
  }

  /** `cleanText` of every option. */
  function CleanAll(options: seq<string>): (r: seq<string>)
    ensures |r| == |options|
    ensures forall j :: 0 <= j < |options| ==> r[j] == CleanText(Some(options[j]))
  {
    seq(|options|, j requires 0 <= j < |options| => CleanText(Some(options[j])))
  }

  /** One `inject` per option text, the j-th (from 0) into editor j + 1. */
  function OptionInjects(texts: seq<string>): (r: seq<Action>)
    ensures |r| == |texts|
  {
    seq(|texts|, j requires 0 <= j < |texts| => Inject(texts[j], Some(j + 1)))
  }

  function Scans(n: nat): (r: seq<Action>)
    ensures |r| == n
  {
    seq(n, _ => Scan)
  }

  /** The `<img>` fragment for the question's image, if it has one. */
  function ImageFragment(q: Question): (r: Option<string>)
    ensures r.Some? <==> ImageOf(q).Some?
    ensures r.Some? ==> r.value == ImageHtml(q.image.value)
  {
    match ImageOf(q)
    case Some(src) => Some(ImageHtml(src))
    case None => None
  }

  /** The signals of one question given what goes into them: the type
      change, one scan per poll check, the question text into editor 0, the
      image fragment into editor 0 when there is one, then the options. */
  function Signals(typeValue: string, checks: nat, text: string, image: Option<string>, optionTexts: seq<string>): seq<Action> {
    [ChangeType(typeValue)] + Scans(checks)
    + [Inject(text, Some(0))]
    + (if image.Some? then [Inject(image.value, Some(0))] else [])
    + OptionInjects(optionTexts)
  }

  /** The signals `processQuestion` sends for `q`. */
  function Plan(q: Question, typeValue: string, checks: nat): seq<Action> {
    Signals(typeValue, checks, CleanText(q.text), ImageFragment(q), CleanAll(q.options.GetOr([])))
  }

  /** The outcome of `processQuestion` on one page. */
  datatype Page = Page(
    elements: seq<Element>,
    typeOptions: Option<seq<SelectOption>>,
    observed: nat -> nat,
    marked: seq<nat>,
    radios: seq<nat>,
    header: Option<nat>,
    buttons: seq<Button>)

  datatype Run = Run(
    addClicked: Option<nat>,
    typeValue: string,
    ready: bool,
    checks: nat,
    sent: seq<Action>,
    answerClick: Click,
    saveClicked: Option<nat>,
    threw: bool)

  /** Whether `processQuestion` throws for `q` on `page`. */
  predicate Throws(q: Question, page: Page) {
    AnswerStepThrows(q.answer, q.options, AnswerInputs(page.marked, page.radios, page.header))
  }

  lemma OptionInjectsSnoc(texts: seq<string>, j: nat)
    requires j < |texts|
    ensures OptionInjects(texts[..j + 1]) == OptionInjects(texts[..j]) + [Inject(texts[j], Some(j + 1))]
  {
  }

  /** The loop that sends one `inject` per option (content.js:100-105). */
  method InjectOptions(options: seq<string>) returns (sent: seq<Action>)
    ensures sent == OptionInjects(CleanAll(options))
  {
    ghost var texts := CleanAll(options);
    sent := [];
    var j := 0;
    while j < |options|
      invariant 0 <= j <= |options|
      invariant sent == OptionInjects(texts[..j])
    {
      OptionInjectsSnoc(texts, j);
      sent := sent + [Inject(CleanText(Some(options[j])), Some(j + 1))];
      j := j + 1;
    }
    assert texts[..j] == texts;
  }

  /** What `processQuestion` does for `q` on `page`, as written: every
      signal is sent before the answer step, and when that step throws
      nothing is clicked and the save control is not reached. */
  predicate Processed(q: Question, page: Page, run: Run) {
    && run.addClicked == AddButton(page.elements)
    && IsTypeChoice(page.typeOptions, run.typeValue)
    && PollSpec(page.observed, RequiredEditors(q.options), run.ready, run.checks)
    && run.sent == Plan(q, run.typeValue, run.checks)
    && (run.threw <==> Throws(q, page))
    && (!run.threw ==> run.answerClick == AnswerClick(q.answer, q.options, AnswerInputs(page.marked, page.radios, page.header))
                       && run.saveClicked == SaveButton(page.buttons))
    && (run.threw ==> run.answerClick == NoClick && run.saveClicked.None?)
  }

  /** `processQuestion` for one question on one page. */
  method ProcessQuestion(q: Question, page: Page) returns (run: Run)
    ensures Processed(q, page, run)
  {
    var addClicked := AddButton(page.elements);
    var typeValue := ChooseTypeValue(page.typeOptions);
    var sent := [ChangeType(typeValue)];
    var ready, checks := WaitForOptionsToLoad(page.observed, RequiredEditors(q.options));
    sent := sent + Scans(checks);
    var text := CleanText(q.text);
    sent := sent + [Inject(text, Some(0))];
    var image := ImageFragment(q);
    ghost var head := sent + if image.Some? then [Inject(image.value, Some(0))] else [];
    if image.Some? {
      sent := sent + [Inject(image.value, Some(0))];
    } else {
      assert sent + [] == sent;
    }
    assert sent == head;
    var optionSignals := InjectOptions(q.options.GetOr([]));
    sent := sent + optionSignals;
    assert sent == Plan(q, typeValue, checks);
    var candidates := AnswerInputs(page.marked, page.radios, page.header);
    match AnswerClickAsWritten(q.answer, q.options, candidates) {
      case None =>
        run := Run(addClicked, typeValue, ready, checks, sent, NoClick, None, true);
      case Some(click) =>
        run := Run(addClicked, typeValue, ready, checks, sent, click, SaveButton(page.buttons), false);
    }
  }

  // ---------------------------------------------------------------------
  // Properties of the plan

  predicate IsChangeType(a: Action) { a.ChangeType? }

  predicate IsInject(a: Action) { a.Inject? }

  function ChangeTypes(s: seq<Action>): seq<Action> {
    Filter(IsChangeType, s)
  }

  function Injects(s: seq<Action>): seq<Action> {
    Filter(IsInject, s)
  }

  lemma {:induction false} ScansFilter(n: nat)
    ensures ChangeTypes(Scans(n)) == [] && Injects(Scans(n)) == []
  {
    if n > 0 {
      assert Scans(n)[..n - 1] == Scans(n - 1);
      ScansFilter(n - 1);
    }
  }

  lemma {:induction false} OptionInjectsFilter(texts: seq<string>)
    ensures ChangeTypes(OptionInjects(texts)) == []
    ensures Injects(OptionInjects(texts)) == OptionInjects(texts)
  {
    if texts != [] {
      var n := |texts|;
      assert OptionInjects(texts)[..n - 1] == OptionInjects(texts[..n - 1]);
      OptionInjectsFilter(texts[..n - 1]);
    }
  }

  lemma SingletonFilter<T>(p: T -> bool, x: T)
    ensures Filter(p, [x]) == if p(x) then [x] else []
  {
    assert [x][..0] == [];
  }

  /** Filtering the signals piece by piece. */
  lemma SignalsFilter(p: Action -> bool, typeValue: string, checks: nat, text: string, image: Option<string>, optionTexts: seq<string>)
    ensures var img := if image.Some? then [Inject(image.value, Some(0))] else [];
      Filter(p, Signals(typeValue, checks, text, image, optionTexts))
      == Filter(p, [ChangeType(typeValue)]) + Filter(p, Scans(checks)) + Filter(p, [Inject(text, Some(0))])
         + Filter(p, img) + Filter(p, OptionInjects(optionTexts))
  {
    var ct := [ChangeType(typeValue)];
    var tx := [Inject(text, Some(0))];
    var img := if image.Some? then [Inject(image.value, Some(0))] else [];
    FilterAppend(p, ct + Scans(checks) + tx + img, OptionInjects(optionTexts));
    FilterAppend(p, ct + Scans(checks) + tx, img);
    FilterAppend(p, ct + Scans(checks), tx);
    FilterAppend(p, ct, Scans(checks));
  }

  /** Exactly one `change-type` is sent, and it is the first signal. */
  lemma SignalsHaveOneChangeType(typeValue: string, checks: nat, text: string, image: Option<string>, optionTexts: seq<string>)
    ensures Signals(typeValue, checks, text, image, optionTexts)[0] == ChangeType(typeValue)
    ensures ChangeTypes(Signals(typeValue, checks, text, image, optionTexts)) == [ChangeType(typeValue)]
  {
    var p := IsChangeType;
    var img := if image.Some? then [Inject(image.value, Some(0))] else [];
    SignalsFilter(p, typeValue, checks, text, image, optionTexts);
    assert Filter(p, [ChangeType(typeValue)]) == [ChangeType(typeValue)] by {
      SingletonFilter(p, ChangeType(typeValue));
    }
    assert Filter(p, [Inject(text, Some(0))]) == [] by {
      SingletonFilter(p, Inject(text, Some(0)));
    }
    assert Filter(p, img) == [] by {
      if image.Some? { SingletonFilter(p, Inject(image.value, Some(0))); }
    }
    ScansFilter(checks);
    OptionInjectsFilter(optionTexts);
  }

  /** The injects are the text, then the image when there is one, then the
      options in order. */
  lemma SignalsInjects(typeValue: string, checks: nat, text: string, image: Option<string>, optionTexts: seq<string>)
    ensures Injects(Signals(typeValue, checks, text, image, optionTexts))
            == [Inject(text, Some(0))]
               + (if image.Some? then [Inject(image.value, Some(0))] else [])
               + OptionInjects(optionTexts)
  {
    var p := IsInject;
    SignalsFilter(p, typeValue, checks, text, image, optionTexts);
    SingletonFilter(p, ChangeType(typeValue));
    SingletonFilter(p, Inject(text, Some(0)));
    if image.Some? { SingletonFilter(p, Inject(image.value, Some(0))); }
    ScansFilter(checks);
    OptionInjectsFilter(optionTexts);
  }

  /** The injects one by one, with the editor each one targets. */
  lemma SignalsInjectsAt(sent: seq<Action>, typeValue: string, checks: nat, text: string, image: Option<string>, optionTexts: seq<string>)
    requires sent == Signals(typeValue, checks, text, image, optionTexts)
    ensures var inj := Injects(sent);
      var head := if image.Some? then 2 else 1;
      |inj| == head + |optionTexts|
      && inj[0] == Inject(text, Some(0))
      && (image.Some? ==> inj[1] == Inject(image.value, Some(0)))
      && (forall j :: 0 <= j < |optionTexts| ==> inj[head + j] == Inject(optionTexts[j], Some(j + 1)))
      && (forall i :: 0 <= i < |inj| ==> inj[i].Inject? && TargetIndex(inj[i].index) == if i < head then 0 else i - head + 1)
  {
    SignalsInjects(typeValue, checks, text, image, optionTexts);
    var inj := Injects(Signals(typeValue, checks, text, image, optionTexts));
    var head := if image.Some? then 2 else 1;
    forall i | 0 <= i < |inj|
      ensures inj[i].Inject? && TargetIndex(inj[i].index) == if i < head then 0 else i - head + 1
    {
      if i >= head {
        assert inj[head + (i - head)] == Inject(optionTexts[i - head], Some(i - head + 1));
      }
    }
  }

  /** Exactly one `change-type` is sent per question, first, with the chosen
      value whatever the question's own type. */
  lemma PlanHasOneChangeType(q: Question, typeValue: string, checks: nat)
    ensures Plan(q, typeValue, checks)[0] == ChangeType(typeValue)
    ensures ChangeTypes(Plan(q, typeValue, checks)) == [ChangeType(typeValue)]
  {
    SignalsHaveOneChangeType(typeValue, checks, CleanText(q.text), ImageFragment(q), CleanAll(q.options.GetOr([])));
  }

  /** The question's injects: the cleaned text into editor 0, the image into
      editor 0 only when there is one, and the j-th cleaned option into
      editor j + 1, in option order; so the targets are 0 (once or twice),
      then 1, 2, ..., n. */
  lemma PlanInjects(q: Question, typeValue: string, checks: nat)
    ensures var inj := Injects(Plan(q, typeValue, checks));
      var opts := q.options.GetOr([]);
      var head := if ImageOf(q).Some? then 2 else 1;
      |inj| == head + |opts|
      && inj[0] == Inject(CleanText(q.text), Some(0))
      && (ImageOf(q).Some? ==> inj[1] == Inject(ImageHtml(q.image.value), Some(0)))
      && (forall j :: 0 <= j < |opts| ==> inj[head + j] == Inject(CleanText(Some(opts[j])), Some(j + 1)))
      && (forall i :: 0 <= i < |inj| ==> inj[i].Inject? && TargetIndex(inj[i].index) == if i < head then 0 else i - head + 1)
  {
    SignalsInjectsAt(Plan(q, typeValue, checks), typeValue, checks, CleanText(q.text), ImageFragment(q), CleanAll(q.options.GetOr([])));
  }

  /** The end-to-end example: a four-option multiple-choice question sends
      one type change and five injects; a question without options sends the
      text alone. */
  lemma PlanExample(typeValue: string, checks: nat)
    ensures var mc := Question(1, Some("Capital?"), Some("multiple_choice"), Some(["A. Paris", "B. Rome", "C. Oslo", "D. Bern"]), Some("B"), None, false);
      |ChangeTypes(Plan(mc, typeValue, checks))| == 1 && |Injects(Plan(mc, typeValue, checks))| == 5
    ensures var sa := Question(2, Some("Explain."), Some("short_answer"), None, Some("photosynthesis"), None, false);
      |ChangeTypes(Plan(sa, typeValue, checks))| == 1 && |Injects(Plan(sa, typeValue, checks))| == 1
  {
    var mc := Question(1, Some("Capital?"), Some("multiple_choice"), Some(["A. Paris", "B. Rome", "C. Oslo", "D. Bern"]), Some("B"), None, false);
    var sa := Question(2, Some("Explain."), Some("short_answer"), None, Some("photosynthesis"), None, false);
    PlanHasOneChangeType(mc, typeValue, checks);
    PlanInjects(mc, typeValue, checks);
    PlanHasOneChangeType(sa, typeValue, checks);
    PlanInjects(sa, typeValue, checks);
  }
}
