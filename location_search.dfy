/** The geocoding search box (trip-eld-frontend/src/components/LocationSearchInput.tsx):
    the typed text, its debounced copy, the autocomplete results, the dropdown with its
    keyboard highlight, and the selections it reports to its owner. Timers and the network
    are events: `DebounceTick` is the 400 ms timer firing, `Resolved` is a query answering. */
module LocationSearch {
  import opened Wrappers
  import opened JsNumbers
  import opened TripTypes

  /** An autocomplete hit: the optional `label` (here `labelText`) and `name` properties and its point. */
  datatype Feature = Feature(labelText: Option<string>, name: Option<string>, coordinates: Position)

  /** The text a chosen hit puts in the box: its label, else its name, else a fixed
      caption; an empty string counts as missing, as with JavaScript's `||`. */
  function FeatureLabel(f: Feature): (s: string)
    ensures s != ""
    ensures f.labelText.Some? && f.labelText.value != "" ==> s == f.labelText.value
    ensures s != "Selected place" ==> s == f.labelText.GetOr("") || s == f.name.GetOr("")
    ensures (f.labelText.None? || f.labelText.value == "") && f.name.Some? && f.name.value != "" ==> s == f.name.value
  {
    if f.labelText.Some? && f.labelText.value != "" then f.labelText.value
    else if f.name.Some? && f.name.value != "" then f.name.value
    else "Selected place"
  }

  /** The query only runs for a debounced text of at least two characters. */
  predicate QueryEnabled(debounced: string) {
    |debounced| >= 2
  }

  /** What the query holds for the debounced text: nothing yet (`undefined`, while it
      is disabled or in flight), a failed request (`null`), or the answer's hits. */
  datatype Results = Pending | Failed | Hits(features: seq<Feature>)

  /** The answer a query resolves to: `None` for a request that failed. */
  function AnswerOf(res: Option<seq<Feature>>): (r: Results)
    ensures r != Pending
    ensures r.Failed? <==> res.None?
    ensures r.Hits? ==> r.features == res.value
  {
    match res
    case None => Failed
    case Some(fs) => Hits(fs)
  }

  /** The component's state. `value` is the `value` prop: the coordinates the owner holds
      for this field, which it sets from every selection the box reports (`emitted`). */
  datatype Box = Box(
    inputValue: string,
    debounced: string,
    open: bool,
    highlight: int,
    suppress: bool,
    results: Results,
    value: Option<Position>,
    emitted: seq<Option<Feature>>)

  /** `results?.features?.length ?? 0`. */
  function Count(b: Box): nat {
    match b.results
    case Hits(fs) => |fs|
    case _ => 0
  }

  /** The effect on `[results, debouncedInputValue]`: unless a selection has just been
      made, open the dropdown for hits or for a query long enough to have run, and clear
      the highlight. */
  function ResultsEffect(b: Box): (r: Box)
    ensures b.suppress ==> r == b
    ensures !b.suppress ==> r.highlight == -1 && (r.open <==> Count(b) > 0 || QueryEnabled(b.debounced))
    ensures r == b.(open := r.open, highlight := r.highlight)
  {
    if b.suppress then b
    else if b.results.Hits? && |b.results.features| > 0 then b.(open := true, highlight := -1)
    else b.(open := QueryEnabled(b.debounced), highlight := -1)
  }

  /** The first render: the debounced text starts as the given text, no results are in,
      and the results effect runs once. */
  function Mount(inputValue: string, value: Option<Position>): (b: Box)
    ensures b.inputValue == b.debounced == inputValue && b.results == Pending && b.emitted == []
    ensures !b.suppress && b.highlight == -1
    ensures b.open <==> |inputValue| >= 2
  {
    ResultsEffect(Box(inputValue, inputValue, false, -1, false, Pending, value, []))
  }

  /** `handleInputChange`: a held selection is withdrawn (reported as null, twice) and
      the suppression after a selection ends. */
  function InputChange(b: Box, text: string): (r: Box)
    ensures r.inputValue == text && !r.suppress
    ensures b.value.Some? ==> r.emitted == b.emitted + [None, None] && r.value.None?
    ensures b.value.None? ==> r.emitted == b.emitted && r.value.None?
    ensures r.open == b.open && r.highlight == b.highlight && r.results == b.results && r.debounced == b.debounced
  {
    b.(inputValue := text,
       emitted := if b.value.Some? then b.emitted + [None, None] else b.emitted,
       value := None,
       suppress := false)
  }

  /** The debounce timer fires: the debounced text catches up, the query key changes so
      no results are held for it yet, and the results effect runs. */
  function DebounceTick(b: Box): (r: Box)
    ensures r.debounced == b.inputValue
    ensures b.debounced == b.inputValue ==> r == b
    ensures b.debounced != b.inputValue ==> r == ResultsEffect(b.(debounced := b.inputValue, results := Pending))
  {
    if b.debounced == b.inputValue then b
    else ResultsEffect(b.(debounced := b.inputValue, results := Pending))
  }

  /** The query for `text` answers `res` (None for a failed request). Only the query of
      the current debounced text, and only an enabled one, feeds `results`; the effect
      runs when the results change, a failure after nothing or after hits included. */
  function Resolved(b: Box, text: string, res: Option<seq<Feature>>): (r: Box)
    ensures text != b.debounced || !QueryEnabled(b.debounced) || AnswerOf(res) == b.results ==> r == b
    ensures text == b.debounced && QueryEnabled(b.debounced) ==> r.results == AnswerOf(res)
    ensures text == b.debounced && QueryEnabled(b.debounced) && AnswerOf(res) != b.results ==>
      r == ResultsEffect(b.(results := AnswerOf(res)))
  {
    if text == b.debounced && QueryEnabled(b.debounced) && AnswerOf(res) != b.results then
      ResultsEffect(b.(results := AnswerOf(res)))
    else b
  }

  /** `chooseFeature`: the box shows the hit's caption, reports it twice, closes and
      suppresses reopening until the text is edited. The owner stores its coordinates. */
  function Choose(b: Box, f: Feature): (r: Box)
    ensures r.inputValue == FeatureLabel(f) && r.value == Some(f.coordinates)
    ensures r.emitted == b.emitted + [Some(f), Some(f)]
    ensures !r.open && r.suppress && r.highlight == -1
    ensures r.debounced == b.debounced && r.results == b.results
  {
    b.(inputValue := FeatureLabel(f),
       emitted := b.emitted + [Some(f), Some(f)],
       value := Some(f.coordinates),
       open := false,
       suppress := true,
       highlight := -1)
  }

  /** `clear`: empties the box and withdraws the selection (reported as null, twice). */
  function Clear(b: Box): (r: Box)
    ensures r.inputValue == "" && r.value.None? && r.emitted == b.emitted + [None, None]
    ensures !r.open && !r.suppress && r.highlight == b.highlight
  {
    b.(inputValue := "", emitted := b.emitted + [None, None], value := None, open := false, suppress := false)
  }

  datatype KeyResult = KeyResult(box: Box, preventDefault: bool)

  /** `onKeyDown`. A closed dropdown only opens on ArrowDown when there are hits, with
      the first one highlighted. An open one moves the highlight with the arrows (clamped
      to the list, preventing the default), commits the highlighted hit on Enter, and
      closes on Escape. */
  function KeyDown(b: Box, key: string): (k: KeyResult)
    ensures !b.open ==> !k.preventDefault
    ensures !b.open && key == "ArrowDown" && Count(b) > 0 ==> k.box == b.(open := true, highlight := 0)
    ensures !b.open && (key != "ArrowDown" || Count(b) == 0) ==> k.box == b
    ensures b.open ==> (k.preventDefault <==> key in {"ArrowDown", "ArrowUp", "Enter"})
    ensures b.open && key == "ArrowDown" ==> k.box == b.(highlight := Min(b.highlight + 1, Count(b) - 1))
    ensures b.open && key == "ArrowUp" ==> k.box == b.(highlight := Max(b.highlight - 1, 0))
    ensures b.open && key == "Enter" && 0 <= b.highlight < Count(b) ==> k.box == Choose(b, b.results.features[b.highlight])
    ensures b.open && key == "Enter" && !(0 <= b.highlight < Count(b)) ==> k.box == b
    ensures b.open && key == "Escape" ==> k.box == b.(open := false)
    ensures b.open && key !in {"ArrowDown", "ArrowUp", "Enter", "Escape"} ==> k.box == b
  {
    if !b.open then
      if key == "ArrowDown" && Count(b) > 0 then KeyResult(b.(open := true, highlight := 0), false)
      else KeyResult(b, false)
    else
      var count := Count(b);
      if key == "ArrowDown" then KeyResult(b.(highlight := Min(b.highlight + 1, count - 1)), true)
      else if key == "ArrowUp" then KeyResult(b.(highlight := Max(b.highlight - 1, 0)), true)
      else if key == "Enter" then
        if b.highlight >= 0 && b.results.Hits? && b.highlight < |b.results.features| then
          KeyResult(Choose(b, b.results.features[b.highlight]), true)
        else KeyResult(b, true)
      else if key == "Escape" then KeyResult(b.(open := false), false)
      else KeyResult(b, false)
  }

  /** Everything that can happen to the box. `Close` is a mouse-down outside it or the
      dropdown's Close button; `Hover` and `Unhover` are the mouse over a listed hit;
      `OwnerReset` is the trip form's Reset button, which empties the text it passes in
      and clears the coordinates it holds without the box reporting anything. */
  datatype Event =
    | Type(text: string)
    | Tick
    | Answer(text: string, res: Option<seq<Feature>>)
    | Key(key: string)
    | Pick(f: Feature)
    | ClearButton
    | Close
    | Hover(index: int)
    | Unhover
    | OwnerReset

  /** Events that need a rendered element: a listed hit exists only while the dropdown
      is open, and the clear button only while the box holds text. A hit is picked
      by clicking a listed one. */
  predicate Possible(b: Box, e: Event) {
    match e
    case Hover(i) => b.open && 0 <= i < Count(b)
    case Unhover => b.open
    case Pick(f) => b.open && b.results.Hits? && f in b.results.features
    case ClearButton => b.inputValue != ""
    case _ => true
  }

  /** One event. Reports are only ever appended, two at a time, and the debounced text
      moves only when the timer fires. */
  function Apply(b: Box, e: Event): (r: Box)
    ensures b.emitted <= r.emitted
    ensures |r.emitted| == |b.emitted| || |r.emitted| == |b.emitted| + 2
    ensures e.Tick? ==> r.debounced == b.inputValue
    ensures !e.Tick? ==> r.debounced == b.debounced
  {
    match e
    case Type(text) => InputChange(b, text)
    case Tick => DebounceTick(b)
    case Answer(text, res) => Resolved(b, text, res)
    case Key(key) => KeyDown(b, key).box
    case Pick(f) => Choose(b, f)
    case ClearButton => Clear(b)
    case Close => b.(open := false)
    case Hover(i) => b.(highlight := i)
    case Unhover => b.(highlight := -1)
    case OwnerReset => b.(inputValue := "", value := None)
  }

  /** The events of a session, each one possible when it happens. */
  predicate Feasible(b: Box, es: seq<Event>)
    decreases |es|
  {
    es == [] || (Possible(b, es[0]) && Feasible(Apply(b, es[0]), es[1..]))
  }

  /** A session: the events in order. What was reported stays reported. */
  function Run(b: Box, es: seq<Event>): (r: Box)
    ensures b.emitted <= r.emitted
    ensures (|r.emitted| - |b.emitted|) % 2 == 0
    decreases |es|
  {
    if es == [] then b else Run(Apply(b, es[0]), es[1..])
  }

  /** Selections are reported in identical pairs. */
  predicate Paired(s: seq<Option<Feature>>)
    ensures Paired(s) ==> |s| % 2 == 0
    decreases |s|
  {
    s == [] || (|s| >= 2 && s[0] == s[1] && Paired(s[2..]))
  }

  /** The highlight is never below -1 (nothing), and every report is doubled. The
      highlight need not be a list index: it outlives the hits it pointed into
      (`HighlightCanOutliveHits`). */
  predicate Valid(b: Box)
    ensures Valid(b) ==> b.highlight >= -1 && |b.emitted| % 2 == 0
  {
    b.highlight >= -1 && Paired(b.emitted)
  }

  lemma {:induction false} PairedAppend(s: seq<Option<Feature>>, x: Option<Feature>)
    requires Paired(s)
    ensures Paired(s + [x, x])
    decreases |s|
  {
    if s == [] {
      assert [x, x][2..] == [];
    } else {
      PairedAppend(s[2..], x);
      assert (s + [x, x])[2..] == s[2..] + [x, x];
    }
  }

  /** Every possible event keeps the box valid. */
  lemma ApplyKeepsValid(b: Box, e: Event)
    requires Valid(b) && Possible(b, e)
    ensures Valid(Apply(b, e))
  {
    match e
    case Type(text) =>
      if b.value.Some? { PairedAppend(b.emitted, None); }
    case Key(key) =>
      if b.open && key == "Enter" && 0 <= b.highlight < Count(b) {
        PairedAppend(b.emitted, Some(b.results.features[b.highlight]));
      }
    case Pick(f) => PairedAppend(b.emitted, Some(f));
    case ClearButton => PairedAppend(b.emitted, None);
    case _ =>
  }

  lemma {:induction false} RunKeepsValid(b: Box, es: seq<Event>)
    requires Valid(b) && Feasible(b, es)
    ensures Valid(Run(b, es))
    decreases |es|
  {
    if es != [] {
      ApplyKeepsValid(b, es[0]);
      RunKeepsValid(Apply(b, es[0]), es[1..]);
    }
  }

  /** A session starting from the first render stays valid. */
  lemma SessionValid(inputValue: string, value: Option<Position>, es: seq<Event>)
    requires Feasible(Mount(inputValue, value), es)
    ensures Valid(Run(Mount(inputValue, value), es))
  {
    RunKeepsValid(Mount(inputValue, value), es);
  }

  /** While a selection is being shown, the timer and the answers to queries never move
      the dropdown or its highlight. */
  lemma SuppressedSearchLeavesDropdown(b: Box, e: Event)
    requires b.suppress && (e.Tick? || e.Answer?)
    ensures Apply(b, e).open == b.open && Apply(b, e).highlight == b.highlight
    ensures Apply(b, e).suppress
  {
  }

  /** Picking a hit and letting the search for its caption run its course leaves the
      dropdown closed with the hit selected. */
  lemma ChoiceDoesNotReopen(b: Box, f: Feature, res: Option<seq<Feature>>)
    ensures var c := Run(b, [Pick(f), Tick, Answer(FeatureLabel(f), res)]);
      !c.open && c.value == Some(f.coordinates) && c.inputValue == FeatureLabel(f)
  {
    var c1 := Apply(b, Pick(f));
    assert Run(b, [Pick(f), Tick, Answer(FeatureLabel(f), res)])
        == Run(c1, [Tick, Answer(FeatureLabel(f), res)]);
    var c2 := Apply(c1, Tick);
    assert Run(c1, [Tick, Answer(FeatureLabel(f), res)]) == Run(c2, [Answer(FeatureLabel(f), res)]);
    var c3 := Apply(c2, Answer(FeatureLabel(f), res));
    assert Run(c2, [Answer(FeatureLabel(f), res)]) == Run(c3, []);
  }

  /** Editing the text after a pick lets the next answer with hits open the dropdown again. */
  lemma TypingReenablesDropdown(b: Box, text: string, fs: seq<Feature>)
    requires b.suppress && text != b.debounced && |text| >= 2 && |fs| > 0
    ensures var c := Run(b, [Type(text), Tick, Answer(text, Some(fs))]);
      c.open && c.highlight == -1 && c.results == Hits(fs)
  {
    var c1 := Apply(b, Type(text));
    assert Run(b, [Type(text), Tick, Answer(text, Some(fs))]) == Run(c1, [Tick, Answer(text, Some(fs))]);
    var c2 := Apply(c1, Tick);
    assert Run(c1, [Tick, Answer(text, Some(fs))]) == Run(c2, [Answer(text, Some(fs))]);
    var c3 := Apply(c2, Answer(text, Some(fs)));
    assert Run(c2, [Answer(text, Some(fs))]) == Run(c3, []);
  }

  /** A failed request is an answer too: after Escape has closed the dropdown, a query
      that fails reopens it, as an enabled query with no hits does. */
  lemma FailedAnswerReopens(b: Box)
    requires !b.suppress && QueryEnabled(b.debounced) && b.results == Pending
    ensures var c := Run(b, [Key("Escape"), Answer(b.debounced, None)]);
      c.open && c.highlight == -1 && c.results == Failed
  {
    var c1 := Apply(b, Key("Escape"));
    assert Run(b, [Key("Escape"), Answer(b.debounced, None)]) == Run(c1, [Answer(b.debounced, None)]);
    var c2 := Apply(c1, Answer(b.debounced, None));
    assert Run(c1, [Answer(b.debounced, None)]) == Run(c2, []);
  }

  /** The highlight is not cleared when the hits go: after a pick, ArrowDown on the
      closed dropdown highlights the first hit, and the timer then drops the hits while
      the suppression keeps the dropdown open with that highlight. */
  lemma HighlightCanOutliveHits(b: Box, f: Feature)
    requires b.open && b.results.Hits? && f in b.results.features && FeatureLabel(f) != b.debounced
    ensures var c := Run(b, [Pick(f), Key("ArrowDown"), Tick]);
      c.open && c.highlight == 0 && Count(c) == 0
  {
    var c1 := Apply(b, Pick(f));
    assert Run(b, [Pick(f), Key("ArrowDown"), Tick]) == Run(c1, [Key("ArrowDown"), Tick]);
    var c2 := Apply(c1, Key("ArrowDown"));
    assert Run(c1, [Key("ArrowDown"), Tick]) == Run(c2, [Tick]);
    var c3 := Apply(c2, Tick);
    assert Run(c2, [Tick]) == Run(c3, []);
  }

  /** With hits listed, the arrows keep the highlight on a listed hit. */
  lemma ArrowsStayInList(b: Box, key: string)
    requires b.open && Count(b) > 0 && -1 <= b.highlight < Count(b)
    requires key == "ArrowDown" || key == "ArrowUp"
    ensures 0 <= KeyDown(b, key).box.highlight < Count(b)
  {
  }

  /** Enter on an open dropdown commits exactly when a listed hit is highlighted, and it
      commits that hit. */
  lemma EnterCommitsHighlighted(b: Box)
    requires b.open
    ensures var k := KeyDown(b, "Enter");
      k.preventDefault && (|k.box.emitted| > |b.emitted| <==> 0 <= b.highlight < Count(b))
    ensures 0 <= b.highlight < Count(b) ==>
      KeyDown(b, "Enter").box.emitted == b.emitted + [Some(b.results.features[b.highlight]), Some(b.results.features[b.highlight])]
  {
  }

  /** The component as the browser runs it: each handler updates the fields in place. */
  class SearchInput {
    var inputValue: string
    var debounced: string
    var isDropdownOpen: bool
    var highlightIndex: int
    var suppressAfterSelect: bool
    var results: Results
    var selectedLocation: Option<Position>
    var emitted: seq<Option<Feature>>

    function State(): Box
      reads this
    {
      Box(inputValue, debounced, isDropdownOpen, highlightIndex, suppressAfterSelect, results, selectedLocation, emitted)
    }

    constructor(inputValue: string, value: Option<Position>)
      ensures State() == Mount(inputValue, value)
    {
      this.inputValue := inputValue;
      debounced := inputValue;
      isDropdownOpen := false;
      highlightIndex := -1;
      suppressAfterSelect := false;
      results := Pending;
      selectedLocation := value;
      emitted := [];
      new;
      RunResultsEffect();
    }

    method RunResultsEffect()
      modifies this`isDropdownOpen, this`highlightIndex
      ensures State() == ResultsEffect(old(State()))
    {
      if results.Hits? && |results.features| > 0 {
        if suppressAfterSelect { return; }
        isDropdownOpen := true;
        highlightIndex := -1;
      } else {
        if suppressAfterSelect { return; }
        isDropdownOpen := |debounced| >= 2;
        highlightIndex := -1;
      }
    }

    /** The owner receives a selection and stores its coordinates as the `value` prop. */
    method Report(f: Option<Feature>)
      modifies this`emitted, this`selectedLocation
      ensures emitted == old(emitted) + [f]
      ensures selectedLocation == (if f.Some? then Some(f.value.coordinates) else None)
    {
      emitted := emitted + [f];
      selectedLocation := if f.Some? then Some(f.value.coordinates) else None;
    }

    method HandleInputChange(text: string)
      modifies this
      ensures State() == InputChange(old(State()), text)
    {
      inputValue := text;
      if selectedLocation.Some? {
        Report(None);
        Report(None);
      }
      suppressAfterSelect := false;
    }

    method DebounceFired()
      modifies this
      ensures State() == DebounceTick(old(State()))
    {
      if debounced != inputValue {
        debounced := inputValue;
        results := Pending;
        RunResultsEffect();
      }
    }

    method QueryAnswered(text: string, res: Option<seq<Feature>>)
      modifies this
      ensures State() == Resolved(old(State()), text, res)
    {
      var answer := if res.Some? then Hits(res.value) else Failed;
      if text == debounced && |debounced| >= 2 && answer != results {
        results := answer;
        RunResultsEffect();
      }
    }

    method ChooseFeature(f: Feature)
      modifies this
      ensures State() == Choose(old(State()), f)
    {
      inputValue := FeatureLabel(f);
      Report(Some(f));
      isDropdownOpen := false;
      suppressAfterSelect := true;
      highlightIndex := -1;
      Report(Some(f));
    }

    method ClearInput()
      requires inputValue != ""
      modifies this
      ensures State() == Clear(old(State()))
    {
      inputValue := "";
      Report(None);
      Report(None);
      isDropdownOpen := false;
      suppressAfterSelect := false;
    }

    method OnKeyDown(key: string) returns (preventDefault: bool)
      modifies this
      ensures State() == KeyDown(old(State()), key).box
      ensures preventDefault == KeyDown(old(State()), key).preventDefault
    {
      preventDefault := false;
      if !isDropdownOpen {
        var n := if results.Hits? then |results.features| else 0;
        if key == "ArrowDown" && n > 0 {
          isDropdownOpen := true;
          highlightIndex := 0;
        }
        return;
      }
      var count := if results.Hits? then |results.features| else 0;
      if key == "ArrowDown" {
        preventDefault := true;
        highlightIndex := Min(highlightIndex + 1, count - 1);
      } else if key == "ArrowUp" {
        preventDefault := true;
        highlightIndex := Max(highlightIndex - 1, 0);
      } else if key == "Enter" {
        preventDefault := true;
        if highlightIndex >= 0 && results.Hits? && highlightIndex < |results.features| {
          ChooseFeature(results.features[highlightIndex]);
        }
      } else if key == "Escape" {
        isDropdownOpen := false;
      }
    }

    method CloseDropdown()
      modifies this`isDropdownOpen
      ensures State() == Apply(old(State()), Close)
    {
      isDropdownOpen := false;
    }

    method MouseEnter(index: int)
      requires isDropdownOpen && results.Hits? && 0 <= index < |results.features|
      modifies this`highlightIndex
      ensures State() == Apply(old(State()), Hover(index))
    {
      highlightIndex := index;
    }

    /** The owner's Reset: the text and the coordinates it passes in are cleared. */
    method ResetByOwner()
      modifies this`inputValue, this`selectedLocation
      ensures State() == Apply(old(State()), Event.OwnerReset)
    {
      inputValue := "";
      selectedLocation := None;
    }

    method MouseLeave()
      requires isDropdownOpen
      modifies this`highlightIndex
      ensures State() == Apply(old(State()), Unhover)
    {
      highlightIndex := -1;
    }
  }
}
