/** The extension's popup of popup.js: it lists the generative models the
    API key can use, and on "process" sends the test (a PDF and/or pasted
    text, plus an optional answer key) to the chosen model, strips the reply
    of code fences and stores the parsed question list.

    The network is a parameter: `respond` gives the reply to a request and
    `answer` the outcome of the model-list fetch. `JSON.parse` is the
    parameter `parse`, reading files as base64 happens before (an `Upload`
    carries the result), and the messages the JavaScript engine itself puts
    into a TypeError are the parameter `engineMessage`. Opening tabs and the
    console are not modelled. */
module Popup {
  import opened Seqs
  import opened Strings
  import opened Store

  // ---------------------------------------------------------------------
  // Validation

  const NoKeyMessage: string := "Please provide API Key."
  const NoModelMessage: string := "Please select a model."
  const NoInputMessage: string := "Please provide a Test PDF or paste text."

  /** The checks of the process handler, in order: the first failing one
      gives the status message and nothing is requested. */
  function Validate(apiKey: string, model: string, hasTestFile: bool, testText: string): (r: Option<string>)
    ensures r.None? <==> apiKey != [] && model != [] && (hasTestFile || testText != [])
    ensures apiKey == [] ==> r == Some(NoKeyMessage)
    ensures apiKey != [] && model == [] ==> r == Some(NoModelMessage)
    ensures apiKey != [] && model != [] && !hasTestFile && testText == [] ==> r == Some(NoInputMessage)
  {
    if apiKey == [] then Some(NoKeyMessage)
    else if model == [] then Some(NoModelMessage)
    else if !hasTestFile && testText == [] then Some(NoInputMessage)
    else None
  }

  // ---------------------------------------------------------------------
  // The request

  /** The fixed instructions that open every prompt, line by line. */
  const BasePrompt: string :=
    "You are a precise data-extraction parser for Science Olympiad tests. \n"
    + "        Your task is to extract questions and answers and convert them into a strict JSON array.\n"
    + "        Format: [{\"question_number\": 1, \"question_text\": \"...\", \"type\": \"multiple_choice\" | \"true_false\" | \"short_answer\", \"options\": [\"A\", \"B\", \"C\", \"D\"] or null, \"correct_answer\": \"...\", \"points\": 1, \"requires_image\": true/false}].\n"
    + "        \n"
    + "        CRITICAL INSTRUCTIONS:\n"
    + "        1. Output ONLY minified JSON.\n"
    + "        2. \"requires_image\": Set to true IF the question refers to a diagram, graph, map, or picture present in the document.\n"
    + "        3. For \"short_answer\" questions (FRQs), set \"options\" to null and put the expected answer rubric or expected text in \"correct_answer\".\n"
    + "        4. If an answer key is provided, use it.\n"
    + "        "

  const ContextHeading: string := "\n\nAdditional Instructions/Context:\n"

  /** The prompt on a given base: pasted text is appended under a heading
      only when there is some. */
  function PromptWith(base: string, testText: string): (p: string)
    ensures StartsWith(p, base)
    ensures testText == [] ==> p == base
    ensures testText != [] ==> EndsWith(p, testText) && |p| == |base| + |ContextHeading| + |testText|
  {
    if testText != [] then base + ContextHeading + testText else base
  }

  /** A file already read as base64, with its MIME type. */
  datatype Upload = Upload(data: string, mimeType: string)

  /** A request part. The text part is the system prompt; it is kept as the
      pasted text it carries, and its full text is `PartText`. */
  datatype Part = PromptPart(context: Option<string>) | InlineData(upload: Upload)

  /** The text of a prompt part: the instructions, then the pasted text. */
  function PartText(p: Part): string
    requires p.PromptPart?
  {
    PromptWith(BasePrompt, p.context.GetOr([]))
  }

  function OptionalPart(f: Option<Upload>): seq<Part> {
    match f
    case Some(u) => [InlineData(u)]
    case None => []
  }

  /** The request parts: the prompt, then the test file if there is one,
      then the answer-key file if there is one. The prompt carries the
      pasted text exactly when it is non-empty. */
  function RequestParts(testText: string, testFile: Option<Upload>, answerKeyFile: Option<Upload>): (ps: seq<Part>)
    ensures |ps| == 1 + |OptionalPart(testFile)| + |OptionalPart(answerKeyFile)|
    ensures ps[0].PromptPart? && (ps[0].context.Some? <==> testText != [])
    ensures ps[0].context.Some? ==> ps[0].context.value == testText
    ensures testFile.Some? ==> ps[1] == InlineData(testFile.value)
    ensures answerKeyFile.Some? ==> ps[|ps| - 1] == InlineData(answerKeyFile.value)
    ensures forall j :: 1 <= j < |ps| ==> ps[j].InlineData?
  {
    [PromptPart(if testText != [] then Some(testText) else None)] + OptionalPart(testFile) + OptionalPart(answerKeyFile)
  }

  /** The handler's `parts.push` sequence. */
  method BuildParts(testText: string, testFile: Option<Upload>, answerKeyFile: Option<Upload>) returns (parts: seq<Part>)
    ensures parts == RequestParts(testText, testFile, answerKeyFile)
  {
    var context: Option<string> := None;
    if testText != [] {
      context := Some(testText);
    }
    parts := [PromptPart(context)];
    if testFile.Some? {
      parts := parts + [InlineData(testFile.value)];
    }
    if answerKeyFile.Some? {
      parts := parts + [InlineData(answerKeyFile.value)];
    }
  }

  datatype Request = Request(model: string, apiKey: string, parts: seq<Part>)

  // ---------------------------------------------------------------------
  // The reply

  datatype ReplyPart = ReplyPart(text: Option<string>)

  /** A candidate; `content` is its `content.parts`, `None` when the
      candidate has no content. */
  datatype Candidate = Candidate(content: Option<seq<ReplyPart>>)

  /** The decoded reply: its `error` message, if it has an `error`, and its
      `candidates`. */
  datatype Reply = Reply(error: Option<string>, candidates: Option<seq<Candidate>>)

  /** Why processing stopped. `Malformed` is a TypeError from reading a
      property of something absent (an empty candidate list, empty content
      parts, a part without text). */
  datatype Failure = ApiError(message: string) | NoContent | Malformed | ParseError(message: string)

  datatype Outcome<T> = Ok(value: T) | Fail(failure: Failure)

  /** The text of the first part of the first candidate, after the two
      checks of the handler. */
  function ReplyText(r: Reply): (o: Outcome<string>)
    ensures r.error.Some? ==> o == Fail(ApiError(r.error.value))
    ensures r.error.None? && r.candidates.None? ==> o == Fail(NoContent)
    ensures o.Ok? ==> r.error.None? && r.candidates.Some? && |r.candidates.value| > 0
                      && r.candidates.value[0].content.Some? && |r.candidates.value[0].content.value| > 0
                      && r.candidates.value[0].content.value[0].text == Some(o.value)
  {
    if r.error.Some? then Fail(ApiError(r.error.value))
    else if r.candidates.None? then Fail(NoContent)
    else if |r.candidates.value| == 0 then Fail(Malformed)
    else if r.candidates.value[0].content.None? then Fail(NoContent)
    else if |r.candidates.value[0].content.value| == 0 then Fail(Malformed)
    else match r.candidates.value[0].content.value[0].text
      case None => Fail(Malformed)
      case Some(t) => Ok(t)
  }

  const NoContentMessage: string := "No content generated. The model might have been blocked or failed."
  const SuccessMessage: string := "Success! Data saved. Opening preview..."

  /** The status line the catch block shows. */
  function FailureStatus(f: Failure, engineMessage: string): string {
    "Error: " + match f
      case ApiError(m) => m
      case NoContent => NoContentMessage
      case Malformed => engineMessage
      case ParseError(m) => m
  }

  /** `replace(/```json/g, '').replace(/```/g, '').trim()`. */
  function StripFences(s: string): (r: string)
    ensures IsTrimmed(r) && |r| <= |s|
  {
    Trim(RemoveAll(RemoveAll(s, "```json"), Fence))
  }

  /** The stripped reply contains no fence at all. */
  lemma StripFencesLeavesNone(s: string)
    ensures !Contains(StripFences(s), Fence)
  {
    var t := RemoveAll(RemoveAll(s, "```json"), Fence);
    RemoveFenceLeavesNone(RemoveAll(s, "```json"));
    TrimSpec(t);
    if Contains(StripFences(s), Fence) {
      ContainsInSlice(t, TrimFrom(t), TrimTo(t), Fence);
    }
  }

  /** The outcome of `JSON.parse`. */
  datatype Parse = Parsed(value: Stored<Question>) | SyntaxError(message: string)

  // ---------------------------------------------------------------------
  // The model list

  /** A model as the list endpoint describes it. */
  datatype Model = Model(name: string, displayName: Option<string>, methods: Option<seq<string>>)

  /** The model-list fetch: a network or decoding failure with its message,
      or the decoded body with its `error` message and `models`. */
  datatype ModelsResponse = FetchFailed(message: string) | ModelsBody(error: Option<string>, models: Option<seq<Model>>)

  predicate SupportsGenerate(m: Model) {
    m.methods.Some? && "generateContent" in m.methods.value
  }

  function GenModels(models: seq<Model>): seq<Model> {
    Filter(SupportsGenerate, models)
  }

  /** The models kept are exactly those that support content generation,
      in their original order. */
  lemma GenModelsKept(models: seq<Model>)
    ensures forall m :: m in GenModels(models) <==> m in models && SupportsGenerate(m)
    ensures forall j :: 0 <= j < |models| && SupportsGenerate(models[j]) ==>
              |GenModels(models[..j])| < |GenModels(models)| && GenModels(models)[|GenModels(models[..j])|] == models[j]
  {
    FilterMembers(SupportsGenerate, models);
    forall j | 0 <= j < |models| && SupportsGenerate(models[j])
      ensures |GenModels(models[..j])| < |GenModels(models)| && GenModels(models)[|GenModels(models[..j])|] == models[j]
    {
      FilterPosition(SupportsGenerate, models, j);
    }
  }

  /** An entry of the model select. */
  datatype ModelOption = ModelOption(value: string, caption: string, disabled: bool)

  const ModelsPrefix: string := "models/"

  /** `model.name.replace('models/', '')`. */
  function ModelValue(name: string): string {
    ReplaceFirst(name, ModelsPrefix, "")
  }

  /** `model.displayName || model.name`. */
  function ModelLabel(m: Model): (l: string)
    ensures m.displayName.Some? && m.displayName.value != [] ==> l == m.displayName.value
    ensures m.displayName.None? || m.displayName.value == [] ==> l == m.name
  {
    if m.displayName.Some? && m.displayName.value != [] then m.displayName.value else m.name
  }

  function OptionFor(m: Model): ModelOption {
    ModelOption(ModelValue(m.name), ModelLabel(m), false)
  }

  function ModelOptions(gen: seq<Model>): (r: seq<ModelOption>)
    ensures |r| == |gen| && forall j :: 0 <= j < |gen| ==> r[j] == OptionFor(gen[j])
  {
    seq(|gen|, j requires 0 <= j < |gen| => OptionFor(gen[j]))
  }

  /** A name that starts with the prefix loses exactly the prefix. */
  lemma ModelValueDropsPrefix(name: string)
    requires StartsWith(name, ModelsPrefix)
    ensures ModelValue(name) == name[|ModelsPrefix|..]
  {
  }

  /** A name without the prefix anywhere is its own value. */
  lemma {:induction false} ModelValueWithoutPrefix(name: string)
    requires !Contains(name, ModelsPrefix)
    ensures ModelValue(name) == name
    decreases |name|
  {
    if |name| >= |ModelsPrefix| {
      assert !OccursAt(name, ModelsPrefix, 0);
      assert !Contains(name[1..], ModelsPrefix) by {
        if Contains(name[1..], ModelsPrefix) {
          assert name[1..|name|] == name[1..];
          ContainsInSlice(name, 1, |name|, ModelsPrefix);
        }
      }
      ModelValueWithoutPrefix(name[1..]);
    }
  }

  const Flash: string := "gemini-1.5-flash"

  predicate IsFlashModel(m: Model) {
    Contains(m.name, Flash)
  }

  predicate HasFlashValue(o: ModelOption) {
    o.value == Flash
  }

  /** The default selection as written: when some kept model's name
      contains the Flash name, the select's value is set to exactly that
      name, which selects the first option with that value or none at all;
      otherwise the first option. */
  function DefaultSelectionAsWritten(gen: seq<Model>): (r: Option<nat>)
    ensures r.Some? ==> r.value < |gen|
    ensures r.None? <==> gen == [] || (Any(IsFlashModel, gen) && forall j :: 0 <= j < |gen| ==> !HasFlashValue(OptionFor(gen[j])))
  {
    var opts := ModelOptions(gen);
    if Any(IsFlashModel, gen) then FirstWhere(HasFlashValue, opts)
    else if |opts| > 0 then Some(0)
    else None
  }

  /** The corrected default: an option whose value is exactly the Flash
      name if there is one, else the first Flash model, else the first
      option. */
  function DefaultSelection(gen: seq<Model>): (r: Option<nat>)
    ensures r.None? <==> gen == []
    ensures r.Some? ==> r.value < |gen|
    ensures Any(IsFlashModel, gen) ==> r.Some? && (HasFlashValue(OptionFor(gen[r.value])) || IsFlashModel(gen[r.value]))
    ensures (exists j :: 0 <= j < |gen| && HasFlashValue(OptionFor(gen[j]))) && Any(IsFlashModel, gen) ==>
              r.Some? && HasFlashValue(OptionFor(gen[r.value]))
    ensures !Any(IsFlashModel, gen) && gen != [] ==> r == Some(0)
  {
    var opts := ModelOptions(gen);
    if Any(IsFlashModel, gen) then
      match FirstWhere(HasFlashValue, opts)
      case Some(k) => Some(k)
      case None => FirstWhere(IsFlashModel, gen)
    else if |opts| > 0 then Some(0)
    else None
  }

  /** Where the written default selects something, the corrected one
      selects the same option. */
  lemma DefaultSelectionAgrees(gen: seq<Model>)
    requires DefaultSelectionAsWritten(gen).Some?
    ensures DefaultSelection(gen) == DefaultSelectionAsWritten(gen)
  {
  }

  /** The `genModels.forEach` that adds one option per kept model. */
  method AddOptions(gen: seq<Model>) returns (options: seq<ModelOption>)
    ensures options == ModelOptions(gen)
  {
    options := [];
    var i := 0;
    while i < |gen|
      invariant 0 <= i <= |gen|
      invariant |options| == i && forall j :: 0 <= j < i ==> options[j] == OptionFor(gen[j])
    {
      options := options + [OptionFor(gen[i])];
      i := i + 1;
    }
  }

  const FetchNoKeyMessage: string := "Please enter API Key first."
  const FetchingMessage: string := "Fetching models..."
  const LoadedMessage: string := "Models loaded."
  const NoneFoundText: string := "No compatible models found"

  /** The popup's status line and model select. */
  class PopupPage {
    var status: string
    var options: seq<ModelOption>
    var selected: Option<nat>

    constructor (status: string, options: seq<ModelOption>, selected: Option<nat>)
      ensures this.status == status && this.options == options && this.selected == selected
    {
      this.status := status;
      this.options := options;
      this.selected := selected;
    }

    /** `modelSelect.value`: the selected option's value, "" when none is
        selected. */
    function SelectedValue(): (v: string)
      reads this
      ensures selected.None? ==> v == []
    {
      if selected.Some? && selected.value < |options| then options[selected.value].value else []
    }

    /** "Refresh models". */
    method FetchModels(apiKey: string, response: ModelsResponse)
      modifies this
      ensures apiKey == [] ==> status == FetchNoKeyMessage && options == old(options) && selected == old(selected)
      ensures apiKey != [] && (response.FetchFailed? || response.error.Some?) ==>
                status == "Error fetching models: " + (if response.FetchFailed? then response.message else response.error.value)
                && options == [ModelOption([], "Error loading models", true)] && selected == Some(0)
      ensures apiKey != [] && response.ModelsBody? && response.error.None? ==>
                var gen := GenModels(response.models.GetOr([]));
                if gen == [] then
                  status == FetchingMessage && options == [ModelOption(NoneFoundText, NoneFoundText, false)] && selected == Some(0)
                else
                  status == LoadedMessage && options == ModelOptions(gen) && selected == DefaultSelectionAsWritten(gen)
    {
      if apiKey == [] {
        status := FetchNoKeyMessage;
        return;
      }
      status := FetchingMessage;
      options := [ModelOption([], "Loading...", true)];
      selected := Some(0);
      match response {
        case FetchFailed(message) =>
          status := "Error fetching models: " + message;
          options := [ModelOption([], "Error loading models", true)];
          selected := Some(0);
        case ModelsBody(error, models) =>
          if error.Some? {
            status := "Error fetching models: " + error.value;
            options := [ModelOption([], "Error loading models", true)];
            selected := Some(0);
            return;
          }
          options := [];
          selected := None;
          var gen := GenModels(models.GetOr([]));
          if |gen| == 0 {
            // An option without a value attribute has its text as value.
            options := [ModelOption(NoneFoundText, NoneFoundText, false)];
            selected := Some(0);
            return;
          }
          options := AddOptions(gen);
          selected := DefaultSelectionAsWritten(gen);
          status := LoadedMessage;
      }
    }

    /** "Process": validate, send, strip and parse the reply, store it. */
    method Process(store: LocalStore, apiKey: string, testFile: Option<Upload>, answerKeyFile: Option<Upload>,
                   testText: string, respond: Request -> Reply, parse: string -> Parse, engineMessage: string)
      returns (request: Option<Request>)
      modifies this, store
      ensures options == old(options) && selected == old(selected)
      ensures store.loopState == old(store.loopState)
      ensures var v := Validate(apiKey, old(SelectedValue()), testFile.Some?, testText);
        if v.Some? then
          status == v.value && request.None? && store.testData == old(store.testData)
        else
          request == Some(Request(old(SelectedValue()), apiKey, RequestParts(testText, testFile, answerKeyFile)))
          && match ReplyText(respond(request.value))
             case Fail(f) => status == FailureStatus(f, engineMessage) && store.testData == old(store.testData)
             case Ok(text) =>
               match parse(StripFences(text))
               case SyntaxError(m) => status == FailureStatus(ParseError(m), engineMessage) && store.testData == old(store.testData)
               case Parsed(data) => status == SuccessMessage && store.testData == data
    {
      var model := SelectedValue();
      var v := Validate(apiKey, model, testFile.Some?, testText);
      if v.Some? {
        status := v.value;
        request := None;
        return;
      }
      status := "Parsing with " + model + "...";
      var parts := BuildParts(testText, testFile, answerKeyFile);
      request := Some(Request(model, apiKey, parts));
      var reply := respond(request.value);
      match ReplyText(reply) {
        case Fail(f) =>
          status := FailureStatus(f, engineMessage);
        case Ok(text) =>
          var cleaned := StripFences(text);
          match parse(cleaned) {
            case SyntaxError(m) =>
              status := FailureStatus(ParseError(m), engineMessage);
            case Parsed(data) =>
              store.SetTestData(data);
              status := SuccessMessage;
          }
      }
    }
  }

  // ---------------------------------------------------------------------
  // The default selection, as written

  /** With only a versioned Flash model listed, the written default
      selects nothing, so the select's value is "" and processing stops
      at "Please select a model.". */
  lemma FlashVariantSelectsNothing()
    ensures var gen := [Model("models/gemini-1.5-flash-001", None, Some(["generateContent"]))];
      DefaultSelectionAsWritten(gen).None? && DefaultSelection(gen) == Some(0)
  {
    var name := "models/gemini-1.5-flash-001";
    var m := Model(name, None, Some(["generateContent"]));
    var gen := [m];
    ModelValueDropsPrefix(name);
    assert ModelValue(name) == "gemini-1.5-flash-001";
    assert !HasFlashValue(OptionFor(m));
    assert OccursAt(name, Flash, 7);
    assert IsFlashModel(gen[0]);
  }

  lemma NoSelectionFailsValidation(page: PopupPage, apiKey: string, hasTestFile: bool, testText: string)
    requires page.selected.None? && apiKey != []
    ensures Validate(apiKey, page.SelectedValue(), hasTestFile, testText) == Some(NoModelMessage)
  {
  }
}
