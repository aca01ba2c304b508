/** The suggestion text box (src/components/ui/suggest-input.tsx): a
    case-insensitive substring filter over the suggestions, and a drop-down
    whose open flag and highlighted index follow focus, typing and the keys. */
module SuggestInput {
  import opened Wrappers
  import opened Seqs
  import opened Text

  /** The filter test: the lower-cased suggestion contains the lower-cased value. */
  function Matches(value: string): string -> bool
  {
    (s: string) => Contains(Lower(s), Lower(value))
  }

  /** `filteredSuggestions`: the suggestions containing the value, ignoring
      ASCII case, in their original order. */
  function Filtered(suggestions: seq<string>, value: string): seq<string>
  {
    Filter(suggestions, Matches(value))
  }

  /** A suggestion is offered exactly when it contains the value, ignoring case. */
  lemma FilteredMembers(suggestions: seq<string>, value: string, s: string)
    ensures s in Filtered(suggestions, value) <==> s in suggestions && Contains(Lower(s), Lower(value))
  {
  }

  /** An empty value keeps every suggestion. */
  lemma EmptyValueKeepsAll(suggestions: seq<string>)
    ensures Filtered(suggestions, "") == suggestions
  {
    forall s | s in suggestions ensures Matches("")(s) {
      ContainsEmpty(Lower(s));
    }
    FilterAll(suggestions, Matches(""));
  }

  lemma {:induction false} LowerIdempotent(s: string)
    ensures Lower(Lower(s)) == Lower(s)
  {
    assert forall i :: 0 <= i < |s| ==> LowerChar(LowerChar(s[i])) == LowerChar(s[i]);
  }

  /** The filter ignores the case of the typed value. */
  lemma CaseInsensitive(suggestions: seq<string>, value: string)
    ensures Filtered(suggestions, Lower(value)) == Filtered(suggestions, value)
  {
    LowerIdempotent(value);
    assert Matches(Lower(value)) == Matches(value);
  }

  /** The keys the handler reacts to; every other key is `OtherKey`. */
  datatype Key = ArrowDown | ArrowUp | Enter | Escape | OtherKey

  /** The drop-down's `open` flag and `selectedIndex`. */
  datatype ListState = ListState(open: bool, index: int)

  /** A handler's effect: the new state and the value reported through
      `onValueChange`, if any. */
  datatype Reaction = Reaction(state: ListState, reported: Option<string>)

  /** The highlighted index stays between -1 and the last entry (0 when the
      list is empty). */
  predicate IndexInBounds(index: int, filtered: seq<string>)
  {
    -1 <= index && (index <= |filtered| - 1 || index == 0)
  }

  /** `handleKeyDown` over the current filtered list. */
  function OnKey(s: ListState, key: Key, filtered: seq<string>): (r: Reaction)
    ensures !s.open ==> r == Reaction(s, None)
    ensures r.reported.Some? <==> s.open && key == Enter && 0 <= s.index < |filtered|
    ensures r.reported.Some? ==> r.reported.value == filtered[s.index] && r.state == ListState(false, 0)
    ensures s.open && key == ArrowDown ==>
              r.state.open && (if s.index < |filtered| - 1 then r.state.index == s.index + 1 else r.state.index == s.index)
    ensures s.open && key == ArrowUp ==>
              r.state.open && r.state.index == (if s.index > 0 then s.index - 1 else -1)
    ensures s.open && key == Escape ==> r.state == ListState(false, -1)
    ensures s.open && (key == OtherKey || (key == Enter && r.reported.None?)) ==> r.state == s
    ensures IndexInBounds(s.index, filtered) ==> IndexInBounds(r.state.index, filtered)
  {
    if !s.open then Reaction(s, None)
    else match key
      case ArrowDown => Reaction(s.(index := if s.index < |filtered| - 1 then s.index + 1 else s.index), None)
      case ArrowUp => Reaction(s.(index := if s.index > 0 then s.index - 1 else -1), None)
      case Enter =>
        if 0 <= s.index < |filtered| then Reaction(ListState(false, 0), Some(filtered[s.index]))
        else Reaction(s, None)
      case Escape => Reaction(ListState(false, -1), None)
      case OtherKey => Reaction(s, None)
  }

  /** `n` presses of the same key. */
  function Presses(s: ListState, key: Key, filtered: seq<string>, n: nat): ListState
    decreases n
  {
    if n == 0 then s else Presses(OnKey(s, key, filtered).state, key, filtered, n - 1)
  }

  /** Holding ArrowDown in an open list walks down one entry per press and
      stops at the last entry. */
  lemma {:induction false} ArrowDownStopsAtLast(s: ListState, filtered: seq<string>, n: nat)
    requires s.open && s.index <= |filtered| - 1
    ensures var t := Presses(s, ArrowDown, filtered, n);
            t.open && t.index == (if s.index + n < |filtered| - 1 then s.index + n else |filtered| - 1)
    decreases n
  {
    if n > 0 {
      ArrowDownStopsAtLast(OnKey(s, ArrowDown, filtered).state, filtered, n - 1);
    }
  }

  /** Holding ArrowUp in an open list walks up and stays at -1 (no highlight). */
  lemma {:induction false} ArrowUpStopsAtNone(s: ListState, filtered: seq<string>, n: nat)
    requires s.open && s.index >= -1
    ensures var t := Presses(s, ArrowUp, filtered, n);
            t.open && t.index == (if s.index - n > -1 then s.index - n else -1)
    decreases n
  {
    if n > 0 {
      ArrowUpStopsAtNone(OnKey(s, ArrowUp, filtered).state, filtered, n - 1);
    }
  }

  /** The widget. `suggestions` and `value` are the props of the last render;
      `lastLength` is the filtered length the index-reset effect last saw. */
  class Widget {
    var suggestions: seq<string>
    var value: string
    var open: bool
    var selectedIndex: int
    var lastLength: nat

    ghost predicate Valid()
      reads this
    {
      lastLength == |Filtered(suggestions, value)| &&
      IndexInBounds(selectedIndex, Filtered(suggestions, value))
    }

    function State(): ListState
      reads this
    {
      ListState(open, selectedIndex)
    }

    /** First render: closed, and the mount effect sets the index to 0. */
    constructor(suggestions: seq<string>, value: string)
      ensures Valid()
      ensures this.suggestions == suggestions && this.value == value
      ensures !open && selectedIndex == 0
    {
      this.suggestions := suggestions;
      this.value := value;
      open := false;
      selectedIndex := 0;
      lastLength := |Filtered(suggestions, value)|;
    }

    /** A re-render with new props: the index goes back to 0 when the length
        of the filtered list changed. */
    method Rerender(newSuggestions: seq<string>, newValue: string)
      requires Valid()
      modifies this
      ensures Valid()
      ensures suggestions == newSuggestions && value == newValue && open == old(open)
      ensures selectedIndex ==
                (if |Filtered(newSuggestions, newValue)| != old(lastLength) then 0 else old(selectedIndex))
    {
      suggestions, value := newSuggestions, newValue;
      var n := |Filtered(suggestions, value)|;
      if n != lastLength {
        selectedIndex := 0;
        lastLength := n;
      }
    }

    /** `handleInputChange`: reports the typed text, and opens the list exactly
        when some suggestion matches it. */
    method InputChange(newValue: string) returns (reported: string)
      requires Valid()
      modifies this`open
      ensures Valid()
      ensures reported == newValue
      ensures open <==> Filtered(suggestions, newValue) != []
    {
      reported := newValue;
      var filtered := Filtered(suggestions, newValue);
      if |filtered| == 0 {
        open := false;
      } else if !open {
        open := true;
      }
    }

    /** `handleInputFocus`: opens the list only when something matches. */
    method Focus()
      requires Valid()
      modifies this`open
      ensures Valid()
      ensures open == (old(open) || Filtered(suggestions, value) != [])
    {
      if |Filtered(suggestions, value)| > 0 {
        open := true;
      }
    }

    /** `handleInputBlur`. */
    method Blur()
      requires Valid()
      modifies this`selectedIndex
      ensures Valid()
      ensures selectedIndex == 0
    {
      selectedIndex := 0;
    }

    /** `handleKeyDown`, with `handleSelect` for Enter. */
    method KeyDown(key: Key) returns (reported: Option<string>)
      requires Valid()
      modifies this`open, this`selectedIndex
      ensures Valid()
      ensures Reaction(State(), reported) == OnKey(old(State()), key, Filtered(suggestions, value))
    {
      reported := None;
      if !open {
        return;
      }
      var filtered := Filtered(suggestions, value);
      match key
      case ArrowDown =>
        if selectedIndex < |filtered| - 1 {
          selectedIndex := selectedIndex + 1;
        }
      case ArrowUp =>
        selectedIndex := if selectedIndex > 0 then selectedIndex - 1 else -1;
      case Enter =>
        if selectedIndex >= 0 && selectedIndex < |filtered| {
          reported := Some(filtered[selectedIndex]);
          open, selectedIndex := false, 0;
        }
      case Escape =>
        open, selectedIndex := false, -1;
      case OtherKey =>
    }

    /** `onClick` on a suggestion: reports it and closes the list. */
    method Click(suggestion: string) returns (reported: string)
      requires Valid()
      modifies this`open, this`selectedIndex
      ensures Valid()
      ensures reported == suggestion && !open && selectedIndex == 0
    {
      reported := suggestion;
      open, selectedIndex := false, 0;
    }

    /** A mouse press outside the widget; the listener exists only while open. */
    method ClickOutside()
      requires Valid()
      modifies this`open, this`selectedIndex
      ensures Valid()
      ensures old(open) ==> !open && selectedIndex == -1
      ensures !old(open) ==> unchanged(this)
    {
      if open {
        open, selectedIndex := false, -1;
      }
    }

    /** The drop-down is drawn only when open with something to show. */
    function DropdownVisible(): (b: bool)
      reads this
      ensures b ==> open && Filtered(suggestions, value) != []
      ensures open && Filtered(suggestions, value) != [] ==> b
    {
      open && |Filtered(suggestions, value)| > 0
    }
  }
}
