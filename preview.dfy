/** The preview page of preview.js: it loads the generated question list
    from the store into an editable table (one row per question) and saves
    the edited rows back as questions before the automation is launched.

    A table row is reduced to what `saveDataAndLaunch` reads from it: the
    question text, the image preview's `src`, and either the option rows
    (multiple choice) or the rubric text area (short answer). Widgets,
    styling, pasting and file reading are not modelled. */
module Preview {
  import opened Seqs
  import opened Strings
  import opened Store

  // ---------------------------------------------------------------------
  // Loading

  /** A property of a stored object whose value is an array. */
  predicate IsArrayProp(kv: (string, Stored<Question>)) {
    kv.1.Array?
  }

  /** The question list `loadData` makes of the stored value: the value
      itself when it is an array, the first array-valued property (in key
      order) when it is another object, and [] otherwise. */
  function Unwrap(stored: Stored<Question>): (r: seq<Question>)
    ensures stored.Missing? || stored.Primitive? ==> r == []
    ensures stored.Array? ==> r == stored.items
  {
    match stored
    case Array(items) => items
    case Object(props) =>
      (match FirstWhere(IsArrayProp, props)
       case Some(k) => props[k].1.items
       case None => [])
    case _ => []
  }

  /** The object case of Unwrap, stated without it: the first array-valued
      property wins, and an object without one gives []. */
  lemma UnwrapObject(props: seq<(string, Stored<Question>)>)
    ensures (forall j :: 0 <= j < |props| ==> !props[j].1.Array?) ==> Unwrap(Object(props)) == []
    ensures forall k :: 0 <= k < |props| && props[k].1.Array? && (forall j :: 0 <= j < k ==> !props[j].1.Array?)
                 ==> Unwrap(Object(props)) == props[k].1.items
  {
    var f := FirstWhere(IsArrayProp, props);
    forall k | 0 <= k < |props| && props[k].1.Array? && (forall j :: 0 <= j < k ==> !props[j].1.Array?)
      ensures Unwrap(Object(props)) == props[k].1.items
    {
      assert IsArrayProp(props[k]);
    }
  }

  /** `loadData`'s normalisation: `result.scilympiadTestData || []`, then
      a scan of the object's keys that stops at the first array. */
  method LoadData(stored: Stored<Question>) returns (data: seq<Question>)
    ensures data == Unwrap(stored)
  {
    match stored {
      case Array(items) =>
        data := items;
      case Object(props) =>
        data := [];
        var k := 0;
        while k < |props|
          invariant 0 <= k <= |props|
          invariant forall j :: 0 <= j < k ==> !props[j].1.Array?
          invariant data == []
        {
          if props[k].1.Array? {
            data := props[k].1.items;
            UnwrapObject(props);
            return;
          }
          k := k + 1;
        }
        UnwrapObject(props);
      case _ =>
        data := [];
    }
  }

  // ---------------------------------------------------------------------
  // Building a row

  const MultipleChoiceName: string := "multiple_choice"
  const ShortAnswerName: string := "short_answer"

  /** The Type select's initial value. */
  function InitialType(t: Option<string>): (r: string)
    ensures r == ShortAnswerName <==> t == Some("short_answer") || t == Some("free_response")
    ensures r == ShortAnswerName || r == MultipleChoiceName
  {
    if t == Some("short_answer") || t == Some("free_response") then ShortAnswerName else MultipleChoiceName
  }

  /** The options a multiple-choice row shows: four empty ones when the
      question has none. */
  function DisplayedOptions(options: Option<seq<string>>): (r: seq<string>)
    ensures options.Some? && |options.value| > 0 ==> r == options.value
    ensures options.None? || options.value == [] ==> r == ["", "", "", ""]
  {
    if options.Some? && |options.value| > 0 then options.value else ["", "", "", ""]
  }

  /** Whether option `i`, showing `optText`, starts out marked correct. */
  predicate IsCorrect(answer: Option<string>, optText: string, i: nat) {
    answer.Some? && answer.value != [] &&
    if |answer.value| == 1 && IsAsciiLetter(answer.value[0]) then UpperChar(answer.value[0]) as int - 65 == i
    else optText != [] && Contains(answer.value, optText)
  }

  /** A one-letter answer marks exactly the option at its alphabet position,
      whatever the option texts are. */
  lemma LetterAnswerMarksPosition(c: char, optText: string, i: nat)
    requires IsAsciiLetter(c)
    ensures IsCorrect(Some([c]), optText, i) <==> i == UpperChar(c) as int - 65
    ensures 0 <= UpperChar(c) as int - 65 < 26
  {
  }

  /** Any other answer marks the non-empty options contained in it. */
  lemma TextAnswerMarksContained(answer: string, optText: string, i: nat)
    requires answer != [] && !(|answer| == 1 && IsAsciiLetter(answer[0]))
    ensures IsCorrect(Some(answer), optText, i) <==> optText != [] && Contains(answer, optText)
  {
  }

  /** No answer marks nothing. */
  lemma NoAnswerMarksNothing(answer: Option<string>, optText: string, i: nat)
    requires answer.None? || answer == Some("")
    ensures !IsCorrect(answer, optText, i)
  {
  }

  /** An option row: its text input and whether its radio is checked. */
  datatype OptionRow = OptionRow(text: string, checked: bool)

  /** The answer cell: the option rows, or the rubric text area. */
  datatype Body = Choices(options: seq<OptionRow>) | Rubric(rubric: string)

  /** A table row as saving reads it. */
  datatype Row = Row(text: string, image: string, body: Body)

  /** The row `createRow` builds for question `q`. Every option the answer
      marks gets a checked radio. */
  function RowOf(q: Question): (row: Row)
    ensures row.body.Rubric? <==> InitialType(q.qType) == ShortAnswerName
  {
    var body :=
      if InitialType(q.qType) == ShortAnswerName then Rubric(q.answer.GetOr(""))
      else
        var opts := DisplayedOptions(q.options);
        Choices(seq(|opts|, j requires 0 <= j < |opts| => OptionRow(opts[j], IsCorrect(q.answer, opts[j], j))));
    Row(q.text.GetOr(""), q.image.GetOr(""), body)
  }

  // ---------------------------------------------------------------------
  // Saving

  /** An option is saved when its trimmed text is non-empty. */
  predicate Kept(o: OptionRow) {
    Trim(o.text) != []
  }

  function Texts(rows: seq<OptionRow>): (r: seq<string>)
    ensures |r| == |rows| && forall j :: 0 <= j < |rows| ==> r[j] == rows[j].text
  {
    seq(|rows|, j requires 0 <= j < |rows| => rows[j].text)
  }

  /** The position of the last checked row. */
  function LastChecked(rows: seq<OptionRow>): (r: Option<nat>)
    ensures r.Some? ==> r.value < |rows| && rows[r.value].checked
                        && forall j :: r.value < j < |rows| ==> !rows[j].checked
    ensures r.None? <==> forall j :: 0 <= j < |rows| ==> !rows[j].checked
  {
    if rows == [] then None
    else if rows[|rows| - 1].checked then Some(|rows| - 1)
    else LastChecked(rows[..|rows| - 1])
  }

  /** `String.fromCharCode(65 + k)`. The code unit is taken modulo 2^16; a
      lone surrogate, which has no `char`, stands as U+FFFD. */
  function Letter(k: nat): (c: char)
    ensures k < 26 ==> c as int == 65 + k && IsAsciiLetter(c) && UpperChar(c) == c
  {
    var u := (65 + k) % 0x1_0000;
    if u < 0xD800 || 0xE000 <= u then u as char else '\U{FFFD}'
  }

  function LetterAnswer(k: Option<nat>): Option<string> {
    match k
    case Some(k) => Some([Letter(k)])
    case None => None
  }

  /** The saved options of a multiple-choice row and its saved answer: the
      letter of the last checked option among the kept ones. */
  function SavedOptions(options: seq<OptionRow>): seq<string> {
    Texts(Filter(Kept, options))
  }

  function SavedAnswer(options: seq<OptionRow>): Option<string> {
    LetterAnswer(LastChecked(Filter(Kept, options)))
  }

  /** The question `saveDataAndLaunch` makes of the row at position `i`. */
  function SavedQuestion(row: Row, i: nat): (q: Question)
    ensures q.number == i + 1 && q.text == Some(row.text) && !q.requiresImage
    ensures q.image.Some? <==> StartsWith(row.image, "data:image")
    ensures q.image.Some? ==> q.image.value == row.image
    ensures row.body.Rubric? ==> q.qType == Some(ShortAnswerName) && q.options.None? && q.answer == Some(row.body.rubric)
    ensures row.body.Choices? ==> q.qType == Some(MultipleChoiceName) && q.options.Some?
  {
    Question(
      i + 1,
      Some(row.text),
      Some(if row.body.Rubric? then ShortAnswerName else MultipleChoiceName),
      if row.body.Rubric? then None else Some(SavedOptions(row.body.options)),
      if row.body.Rubric? then Some(row.body.rubric) else SavedAnswer(row.body.options),
      if StartsWith(row.image, "data:image") then Some(row.image) else None,
      false)
  }

  /** The saved options keep the row order and multiplicity: saved option
      i is the text of row option idx[i], the positions idx increase, and
      every kept row option is among them, so each kept option is saved
      once, duplicates included. */
  lemma SavedOptionsInOrder(options: seq<OptionRow>) returns (idx: seq<nat>)
    ensures |idx| == |SavedOptions(options)|
    ensures forall i :: 0 <= i < |idx| ==>
              idx[i] < |options| && Kept(options[idx[i]]) && SavedOptions(options)[i] == options[idx[i]].text
    ensures forall i, j :: 0 <= i < j < |idx| ==> idx[i] < idx[j]
    ensures forall k :: 0 <= k < |options| && Kept(options[k]) ==> k in idx
  {
    idx := FilterIndices(Kept, options);
  }

  /** The saved options are exactly the texts of the kept ones, untrimmed. */
  lemma SavedOptionsKept(options: seq<OptionRow>)
    ensures forall t :: t in SavedOptions(options) <==> exists o :: o in options && Kept(o) && o.text == t
  {
    var kept := Filter(Kept, options);
    FilterMembers(Kept, options);
    forall t ensures t in SavedOptions(options) <==> exists o :: o in options && Kept(o) && o.text == t {
      if t in SavedOptions(options) {
        var j :| 0 <= j < |kept| && SavedOptions(options)[j] == t;
        assert kept[j] in kept;
      }
      if exists o :: o in options && Kept(o) && o.text == t {
        var o :| o in options && Kept(o) && o.text == t;
        var j :| 0 <= j < |kept| && kept[j] == o;
        assert SavedOptions(options)[j] == t;
      }
    }
  }

  /** The saved answer names a checked, kept option, the last such one, by
      its position among the kept options; it is null when no kept option is
      checked, so a checked blank option counts for nothing. */
  lemma SavedAnswerIsLastChecked(options: seq<OptionRow>)
    ensures var kept := Filter(Kept, options);
      && (SavedAnswer(options).None? <==> forall j :: 0 <= j < |kept| ==> !kept[j].checked)
      && (SavedAnswer(options).Some? ==>
            exists k :: 0 <= k < |kept| && kept[k].checked && (forall j :: k < j < |kept| ==> !kept[j].checked)
                        && SavedAnswer(options) == Some([Letter(k)]))
  {
    var kept := Filter(Kept, options);
    assert SavedAnswer(options) == LetterAnswer(LastChecked(kept));
    LetterOfLastChecked(kept);
  }

  lemma LetterOfLastChecked(kept: seq<OptionRow>)
    ensures (LetterAnswer(LastChecked(kept)).None? <==> forall j :: 0 <= j < |kept| ==> !kept[j].checked)
    ensures LetterAnswer(LastChecked(kept)).Some? ==>
              exists k :: 0 <= k < |kept| && kept[k].checked && (forall j :: k < j < |kept| ==> !kept[j].checked)
                          && LetterAnswer(LastChecked(kept)) == Some([Letter(k)])
  {
    var k := LastChecked(kept);
    if k.Some? {
      assert LetterAnswer(k) == Some([Letter(k.value)]);
    }
  }

  lemma TextsSnoc(rows: seq<OptionRow>, x: OptionRow)
    ensures Texts(rows + [x]) == Texts(rows) + [x.text]
  {
  }

  lemma LastCheckedSnoc(rows: seq<OptionRow>, x: OptionRow)
    ensures LastChecked(rows + [x]) == if x.checked then Some(|rows|) else LastChecked(rows)
  {
    assert (rows + [x])[..|rows|] == rows;
  }

  /** One step of the option loop on the kept lists: row `x` is appended,
      and `b` is whether it is kept. */
  lemma KeptStep(kept: seq<OptionRow>, kept': seq<OptionRow>, x: OptionRow, b: bool)
    requires kept' == kept + (if b then [x] else [])
    ensures Texts(kept') == Texts(kept) + (if b then [x.text] else [])
    ensures LetterAnswer(LastChecked(kept')) ==
              (if b && x.checked then Some([Letter(|Texts(kept)|)]) else LetterAnswer(LastChecked(kept)))
  {
    if b {
      TextsSnoc(kept, x);
      LastCheckedSnoc(kept, x);
    } else {
      assert kept' == kept;
    }
  }

  /** The body of the `optRows.forEach`: collects the kept texts and the
      letter of the last checked kept option. */
  method SaveOptions(options: seq<OptionRow>) returns (texts: seq<string>, answer: Option<string>)
    ensures texts == SavedOptions(options) && answer == SavedAnswer(options)
  {
    texts := [];
    answer := None;
    ghost var kept: seq<OptionRow> := [];
    var k := 0;
    while k < |options|
      invariant 0 <= k <= |options|
      invariant kept == Filter(Kept, options[..k])
      invariant texts == Texts(kept) && answer == LetterAnswer(LastChecked(kept))
    {
      FilterSnoc(Kept, options, k);
      ghost var kept' := Filter(Kept, options[..k + 1]);
      KeptStep(kept, kept', options[k], Kept(options[k]));
      if Kept(options[k]) {
        texts := texts + [options[k].text];
        if options[k].checked {
          answer := Some([Letter(|texts| - 1)]);
        }
      }
      kept := kept';
      k := k + 1;
    }
    SaveWhole(options);
  }

  lemma SaveWhole(options: seq<OptionRow>)
    ensures SavedOptions(options[..|options|]) == SavedOptions(options)
    ensures SavedAnswer(options[..|options|]) == SavedAnswer(options)
  {
    assert options[..|options|] == options;
  }

  /** One row of `saveDataAndLaunch`. */
  method SaveRow(row: Row, i: nat) returns (q: Question)
    ensures q == SavedQuestion(row, i)
  {
    var finalImg: Option<string> := None;
    if StartsWith(row.image, "data:image") {
      finalImg := Some(row.image);
    }
    var texts: seq<string> := [];
    var answer: Option<string> := None;
    var qType := MultipleChoiceName;
    match row.body {
      case Choices(options) =>
        texts, answer := SaveOptions(options);
      case Rubric(rubric) =>
        qType := ShortAnswerName;
        answer := Some(rubric);
    }
    q := Question(i + 1, Some(row.text), Some(qType), if qType == ShortAnswerName then None else Some(texts),
                  answer, finalImg, false);
  }

  /** The questions saved from the whole table. */
  function SavedQuestions(rows: seq<Row>): (qs: seq<Question>)
    ensures |qs| == |rows| && forall i :: 0 <= i < |rows| ==> qs[i] == SavedQuestion(rows[i], i)
  {
    seq(|rows|, i requires 0 <= i < |rows| => SavedQuestion(rows[i], i))
  }

  /** "Save & Launch": the saved list replaces the stored one and the loop
      state is reset, so the automation does not start by itself. */
  method SaveDataAndLaunch(store: LocalStore, rows: seq<Row>)
    modifies store
    ensures store.testData == Array(SavedQuestions(rows))
    ensures store.loopState == Some(Idle)
  {
    var newData: seq<Question> := [];
    var i := 0;
    while i < |rows|
      invariant 0 <= i <= |rows|
      invariant |newData| == i && forall j :: 0 <= j < i ==> newData[j] == SavedQuestion(rows[j], j)
    {
      var q := SaveRow(rows[i], i);
      newData := newData + [q];
      i := i + 1;
    }
    store.SetTestData(Array(newData));
    store.SetLoopState(Idle);
  }

  // ---------------------------------------------------------------------
  // Save, then load again

  lemma LastCheckedUnique(rows: seq<OptionRow>, k: nat)
    requires k < |rows| && forall j :: 0 <= j < |rows| ==> (rows[j].checked <==> j == k)
    ensures LastChecked(rows) == Some(k)
  {
    var r := LastChecked(rows);
    assert r.Some? by { assert rows[k].checked; }
  }

  /** Reloading saved options: every shown option was kept, and only the
      saved letter's option is checked. */
  lemma ReloadedOptions(texts: seq<string>, answer: Option<nat>, opts: seq<OptionRow>)
    requires forall j :: 0 <= j < |texts| ==> Trim(texts[j]) != []
    requires answer.Some? ==> answer.value < |texts| && answer.value < 26
    requires |opts| == |texts|
    requires forall j :: 0 <= j < |texts| ==> opts[j] == OptionRow(texts[j], IsCorrect(LetterAnswer(answer), texts[j], j))
    ensures Filter(Kept, opts) == opts && Texts(opts) == texts && LastChecked(opts) == answer
  {
    FilterKeepsAll(Kept, opts);
    assert Texts(opts) == texts;
    if answer.Some? {
      var k := answer.value;
      forall j | 0 <= j < |opts| ensures opts[j].checked <==> j == k {
        LetterAnswerMarksPosition(Letter(k), texts[j], j);
      }
      LastCheckedUnique(opts, k);
    } else {
      forall j | 0 <= j < |opts| ensures !opts[j].checked {
        NoAnswerMarksNothing(None, texts[j], j);
      }
    }
  }

  /** Saving a multiple-choice row, reloading the saved question and saving
      again gives the same options and answer. The last checked kept option
      must be one of the first 26, so that its letter lies in A–Z. */
  lemma {:induction false} ChoicesRoundTrip(options: seq<OptionRow>)
    requires var k := LastChecked(Filter(Kept, options)); k.Some? ==> k.value < 26
    ensures var q := Question(0, None, Some(MultipleChoiceName), Some(SavedOptions(options)), SavedAnswer(options), None, false);
      var row := RowOf(q);
      row.body.Choices?
      && SavedOptions(row.body.options) == SavedOptions(options)
      && SavedAnswer(row.body.options) == SavedAnswer(options)
  {
    var kept := Filter(Kept, options);
    var texts := SavedOptions(options);
    var k := LastChecked(kept);
    var q := Question(0, None, Some(MultipleChoiceName), Some(texts), LetterAnswer(k), None, false);
    FilterMembers(Kept, options);
    forall j | 0 <= j < |texts| ensures Trim(texts[j]) != [] {
      assert kept[j] in kept;
    }
    var opts := RowOf(q).body.options;
    if texts == [] {
      assert k.None?;
      assert DisplayedOptions(q.options) == ["", "", "", ""];
      forall j | 0 <= j < |opts| ensures !Kept(opts[j]) {
        assert opts[j].text == "";
        TrimEmpty("");
      }
      FilterKeepsNone(Kept, opts);
    } else {
      ReloadedOptions(texts, k, opts);
    }
  }

  /** The round trip for a whole row at position `i`: saving it, rebuilding
      the row from the saved question and saving again gives the same
      question. */
  lemma {:induction false} SaveLoadRoundTrip(row: Row, i: nat)
    requires row.body.Choices? ==> var k := LastChecked(Filter(Kept, row.body.options)); k.Some? ==> k.value < 26
    ensures SavedQuestion(RowOf(SavedQuestion(row, i)), i) == SavedQuestion(row, i)
  {
    var q := SavedQuestion(row, i);
    if row.body.Choices? {
      ChoicesRoundTrip(row.body.options);
    }
    if q.image.None? {
      assert !StartsWith("", "data:image");
    }
  }

  /** The round trip for the whole table, through the store: the list that
      "Save & Launch" stores is what the next load unwraps, and saving the
      rows built from it stores the same list again. */
  lemma TableRoundTrip(rows: seq<Row>)
    requires forall i :: 0 <= i < |rows| && rows[i].body.Choices? ==>
               var k := LastChecked(Filter(Kept, rows[i].body.options)); k.Some? ==> k.value < 26
    ensures var saved := SavedQuestions(rows);
      var reloaded := Unwrap(Array(saved));
      SavedQuestions(seq(|reloaded|, i requires 0 <= i < |reloaded| => RowOf(reloaded[i]))) == saved
  {
    var saved := SavedQuestions(rows);
    forall i | 0 <= i < |rows| ensures SavedQuestion(RowOf(saved[i]), i) == saved[i] {
      SaveLoadRoundTrip(rows[i], i);
    }
  }
}
