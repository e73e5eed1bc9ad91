/** The bridge receiver of summernote_bridge.js: a listener in the page's own
    script context that turns `scilympiad-action` signals into edits of the
    page's rich-text editors and of the question-type select.

    The visible `.note-editable` editors are an array of their HTML contents,
    in document order. Focus, selection ranges, the synthesised
    input/change/blur events, jQuery triggers and console output are not
    modelled; the outcome of `document.execCommand('insertHTML', ...)` is the
    parameter `inserted`. */
module Bridge {
  import opened Seqs

  /** A signal's `detail`: the action and its payload. `index` is `None`
      when the payload has no numeric `index`. */
  datatype Action =
    | Scan
    | ChangeType(value: string)
    | Inject(content: string, index: Option<int>)

  /** The Type select: the values of its options and its current value
      (`None` when no option is selected, where jQuery's `val()` gives null). */
  datatype TypeSelect = TypeSelect(values: seq<string>, selected: Option<string>)

  /** `typeof data.index === 'number' ? data.index : 0`. */
  function TargetIndex(index: Option<int>): (i: int)
    ensures index.None? ==> i == 0
    ensures index.Some? ==> i == index.value
  {
    match index
    case None => 0
    case Some(n) => n
  }

  /** Editor contents after an `inject` of `content` into editor `i`. An
      index past the last editor is only logged; a negative index makes
      `editables[index]` undefined and the exception it raises is caught,
      so it changes nothing either. A successful insertion lands at the end
      of the editor because the cursor was collapsed there first; a failed
      one overwrites the editor unless it already holds exactly `content`. */
  function Injected(contents: seq<string>, content: string, i: int, inserted: bool): seq<string> {
    if 0 <= i < |contents| then
      contents[i := if inserted then contents[i] + content
                    else if contents[i] != content then content
                    else contents[i]]
    else contents
  }

  /** The editor contents after the receiver handles one action. */
  function Apply(contents: seq<string>, a: Action, inserted: bool): seq<string> {
    match a
    case Inject(content, index) => Injected(contents, content, TargetIndex(index), inserted)
    case _ => contents
  }

  /** Only editor `i` can change, and the number of editors never does. */
  lemma InjectOnlyTouchesTarget(contents: seq<string>, content: string, i: int, inserted: bool)
    ensures |Injected(contents, content, i, inserted)| == |contents|
    ensures forall k :: 0 <= k < |contents| && k != i ==> Injected(contents, content, i, inserted)[k] == contents[k]
  {
  }

  /** An index outside the editors leaves every editor as it was. */
  lemma InjectOutOfRange(contents: seq<string>, content: string, i: int, inserted: bool)
    requires i < 0 || i >= |contents|
    ensures Injected(contents, content, i, inserted) == contents
  {
  }

  /** A successful insertion appends; a failed one leaves exactly the fragment. */
  lemma InjectTargetContent(contents: seq<string>, content: string, i: int, inserted: bool)
    requires 0 <= i < |contents|
    ensures inserted ==> Injected(contents, content, i, inserted)[i] == contents[i] + content
    ensures !inserted ==> Injected(contents, content, i, inserted)[i] == content
  {
  }

  /** The fallback path is idempotent: a second failed inject of the same
      fragment finds it already there and writes nothing. */
  lemma FailedInjectIdempotent(contents: seq<string>, content: string, i: int)
    ensures var once := Injected(contents, content, i, false);
      Injected(once, content, i, false) == once
  {
  }

  /** The page as the receiver sees it. */
  class Page {
    var editors: array<string>
    var jQueryLoaded: bool
    var typeSelect: Option<TypeSelect>

    constructor (contents: seq<string>, jQueryLoaded: bool, typeSelect: Option<TypeSelect>)
      ensures fresh(editors) && editors[..] == contents
      ensures this.jQueryLoaded == jQueryLoaded && this.typeSelect == typeSelect
    {
      editors := new string[|contents|](i requires 0 <= i < |contents| => contents[i]);
      this.jQueryLoaded := jQueryLoaded;
      this.typeSelect := typeSelect;
    }

    /** `change-type`: with jQuery present and a Type select on the page, a
        value that differs from the current one is written and `change` is
        raised (`raised`). jQuery's `val(v)` selects the option whose value
        is `v`, or none when no option has that value. */
    method ChangeType(value: string) returns (raised: bool)
      modifies this
      ensures editors == old(editors) && jQueryLoaded == old(jQueryLoaded)
      ensures raised <==> old(jQueryLoaded) && old(typeSelect).Some? && old(typeSelect).value.selected != Some(value)
      ensures raised ==> typeSelect == Some(old(typeSelect).value.(
                selected := if value in old(typeSelect).value.values then Some(value) else None))
      ensures !raised ==> typeSelect == old(typeSelect)
    {
      raised := false;
      if jQueryLoaded {
        match typeSelect {
          case Some(ts) =>
            if ts.selected != Some(value) {
              typeSelect := Some(ts.(selected := if value in ts.values then Some(value) else None));
              raised := true;
            }
          case None =>
        }
      }
    }

    /** `inject`: `wrote` tells whether the fallback assigned `innerHTML`. */
    method Inject(content: string, index: Option<int>, inserted: bool) returns (wrote: bool)
      modifies editors
      ensures editors[..] == Injected(old(editors[..]), content, TargetIndex(index), inserted)
      ensures wrote <==> 0 <= TargetIndex(index) < editors.Length && !inserted
                         && old(editors[TargetIndex(index)]) != content
    {
      var i := TargetIndex(index);
      wrote := false;
      if 0 <= i < editors.Length {
        if inserted {
          editors[i] := editors[i] + content;
        } else if editors[i] != content {
          editors[i] := content;
          wrote := true;
        }
      }
    }

    /** The listener: one signal, dispatched on its action. */
    method Handle(a: Action, inserted: bool)
      modifies this, editors
      ensures editors == old(editors) && jQueryLoaded == old(jQueryLoaded)
      ensures editors[..] == Apply(old(editors[..]), a, inserted)
      ensures !a.ChangeType? ==> typeSelect == old(typeSelect)
      ensures a.ChangeType? ==>
                if old(jQueryLoaded) && old(typeSelect).Some? && old(typeSelect).value.selected != Some(a.value) then
                  typeSelect == Some(old(typeSelect).value.(
                    selected := if a.value in old(typeSelect).value.values then Some(a.value) else None))
                else typeSelect == old(typeSelect)
    {
      match a {
        case Scan =>
          // `scan` only logs the editor count and flashes their borders
        case ChangeType(v) =>
          var _ := ChangeType(v);
        case Inject(content, index) =>
          var _ := Inject(content, index, inserted);
      }
    }
  }
}
