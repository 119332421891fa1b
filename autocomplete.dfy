/**
 * The autocomplete text field used by the item forms. The component keeps
 * four pieces of state (whether the list is open, the filtered
 * suggestions, the highlighted row, whether the user has interacted) and
 * the form that hosts it keeps the value: whatever the component reports
 * through `onChange` becomes the new value.
 *
 * React re-runs the filter effect after any render in which the value, the
 * suggestions or the interaction flag changed; each handler below ends by
 * running it when it changed one of them, so every public method leaves
 * the state settled.
 */
module Autocomplete {
  import opened Wrappers
  import opened Seqs
  import opened Text

  /** `suggestion.toLowerCase().includes(value.toLowerCase())` */
  predicate MatchesValue(value: string, suggestion: string)
  {
    Contains(Lower(suggestion), Lower(value))
  }

  /** `suggestions.filter(...)`: the suggestions containing the value, ignoring case, in their order. */
  function Matches(suggestions: seq<string>, value: string): seq<string>
  {
    if |suggestions| == 0 then []
    else
      var last := suggestions[|suggestions| - 1];
      Matches(suggestions[..|suggestions| - 1], value) + (if MatchesValue(value, last) then [last] else [])
  }

  /** The matches are the suggestions that contain the value, at most as many as there are suggestions. */
  lemma {:induction false} MatchesFacts(suggestions: seq<string>, value: string)
    ensures |Matches(suggestions, value)| <= |suggestions|
    ensures forall s :: s in Matches(suggestions, value) <==> s in suggestions && MatchesValue(value, s)
  {
    if |suggestions| > 0 {
      var init := suggestions[..|suggestions| - 1];
      MatchesFacts(init, value);
      assert suggestions == init + [suggestions[|suggestions| - 1]];
    }
  }

  /**
   * Matching keeps order: the matches of two lists one after the other are
   * the matches of the first followed by those of the second.
   */
  lemma {:induction false} MatchesAppend(xs: seq<string>, ys: seq<string>, value: string)
    ensures Matches(xs + ys, value) == Matches(xs, value) + Matches(ys, value)
    decreases |ys|
  {
    if |ys| > 0 {
      var init := ys[..|ys| - 1];
      assert (xs + ys)[..|xs + ys| - 1] == xs + init;
      MatchesAppend(xs, init, value);
    } else {
      assert xs + ys == xs;
    }
  }

  /** What the filter effect shows: the matches once the user has interacted with a non-blank value. */
  function Wanted(suggestions: seq<string>, value: string, hasInteracted: bool): seq<string>
  {
    if Trim(value) != [] && hasInteracted then Matches(suggestions, value) else []
  }

  datatype Key = ArrowDown | ArrowUp | Enter | Escape | Other

  class Field {
    var value: string
    var suggestions: seq<string>
    var isOpen: bool
    var filtered: seq<string>
    var highlighted: int
    var hasInteracted: bool

    /**
     * The settled state: the list shows what the effect computes, it is
     * open exactly when that is non-empty, and the highlight is -1 or a
     * row of the list.
     */
    predicate Valid()
      reads this
    {
      && filtered == Wanted(suggestions, value, hasInteracted)
      && isOpen == (|filtered| > 0)
      && -1 <= highlighted < |filtered|
    }

    /** The text shown in the input. */
    function Shown(): string
      reads this
    {
      CapitalizeWords(value)
    }

    constructor(value: string, suggestions: seq<string>)
      ensures Valid()
      ensures this.value == value && this.suggestions == suggestions
      ensures !isOpen && filtered == [] && highlighted == -1 && !hasInteracted
    {
      this.value := value;
      this.suggestions := suggestions;
      isOpen := false;
      filtered := [];
      highlighted := -1;
      hasInteracted := false;
    }

    /** The filter effect: recompute the list, open it when it is not empty, and drop the highlight. */
    method Recompute()
      modifies this
      ensures Valid()
      ensures highlighted == -1
      ensures value == old(value) && suggestions == old(suggestions) && hasInteracted == old(hasInteracted)
    {
      filtered := Wanted(suggestions, value, hasInteracted);
      isOpen := |filtered| > 0;
      highlighted := -1;
    }

    /** New suggestions from the form; the effect runs again. */
    method SetSuggestions(suggestions: seq<string>)
      modifies this
      ensures Valid()
      ensures this.suggestions == suggestions && value == old(value) && hasInteracted == old(hasInteracted)
      ensures highlighted == -1
    {
      this.suggestions := suggestions;
      Recompute();
    }

    /**
     * A key press. Nothing happens while the list is closed. The arrows
     * move the highlight within [-1, |filtered| - 1]; Enter on a highlighted
     * row reports that suggestion and closes the list; Escape closes it.
     */
    method KeyDown(key: Key) returns (emitted: Option<string>)
      requires Valid()
      modifies this
      ensures Valid()
      ensures suggestions == old(suggestions)
      ensures !old(isOpen) ==>
        && emitted.None? && value == old(value) && hasInteracted == old(hasInteracted)
        && filtered == old(filtered) && highlighted == old(highlighted) && isOpen == old(isOpen)
      ensures old(isOpen) && key == ArrowDown ==>
        && emitted.None? && filtered == old(filtered) && isOpen
        && value == old(value) && hasInteracted == old(hasInteracted)
        && highlighted == (if old(highlighted) < |filtered| - 1 then old(highlighted) + 1 else old(highlighted))
      ensures old(isOpen) && key == ArrowUp ==>
        && emitted.None? && filtered == old(filtered) && isOpen
        && value == old(value) && hasInteracted == old(hasInteracted)
        && highlighted == (if old(highlighted) > 0 then old(highlighted) - 1 else -1)
      ensures old(isOpen) && key == Enter && old(highlighted) >= 0 ==>
        && emitted == Some(old(filtered)[old(highlighted)])
        && value == emitted.value && !hasInteracted && !isOpen && filtered == []
      ensures old(isOpen) && key == Enter && old(highlighted) < 0 ==>
        && emitted.None? && value == old(value) && hasInteracted == old(hasInteracted)
        && filtered == old(filtered) && isOpen && highlighted == -1
      ensures old(isOpen) && key == Escape ==>
        emitted.None? && value == old(value) && !hasInteracted && !isOpen && filtered == []
      ensures key == Other ==>
        && emitted.None? && value == old(value) && filtered == old(filtered)
        && isOpen == old(isOpen) && highlighted == old(highlighted) && hasInteracted == old(hasInteracted)
    {
      emitted := None;
      if !isOpen {
        return;
      }
      match key
      case ArrowDown =>
        if highlighted < |filtered| - 1 {
          highlighted := highlighted + 1;
        }
      case ArrowUp =>
        highlighted := if highlighted > 0 then highlighted - 1 else -1;
      case Enter =>
        if highlighted >= 0 {
          emitted := Some(filtered[highlighted]);
          value := emitted.value;
          isOpen := false;
          hasInteracted := false;
          Recompute();
        }
      case Escape =>
        isOpen := false;
        hasInteracted := false;
        Recompute();
      case Other =>
    }

    /** A click on a suggestion reports it and closes the list. */
    method Select(suggestion: string) returns (emitted: Option<string>)
      requires Valid()
      modifies this
      ensures Valid()
      ensures emitted == Some(suggestion) && value == suggestion
      ensures !isOpen && !hasInteracted && filtered == [] && suggestions == old(suggestions)
    {
      emitted := Some(suggestion);
      value := suggestion;
      isOpen := false;
      hasInteracted := false;
      Recompute();
    }

    /**
     * Focus marks the field as used and opens the list when the value is
     * not blank and some suggestion matches it.
     */
    method Focus()
      requires Valid()
      modifies this
      ensures Valid()
      ensures hasInteracted && value == old(value) && suggestions == old(suggestions)
      ensures isOpen <==> Trim(value) != [] && |Matches(suggestions, value)| > 0
      ensures old(hasInteracted) ==> highlighted == old(highlighted) && filtered == old(filtered)
      ensures !old(hasInteracted) ==> highlighted == -1
    {
      var wasInteracted := hasInteracted;
      hasInteracted := true;
      if Trim(value) != [] {
        var matches := Matches(suggestions, value);
        if |matches| > 0 {
          filtered := matches;
          isOpen := true;
        }
      }
      if !wasInteracted {
        Recompute();
      }
    }

    /**
     * A mouse press outside the field closes the list and forgets the
     * interaction, whether or not it was open.
     */
    method ClickOutside()
      requires Valid()
      modifies this
      ensures Valid()
      ensures value == old(value) && suggestions == old(suggestions)
      ensures !isOpen && !hasInteracted && filtered == [] && highlighted == -1
    {
      isOpen := false;
      hasInteracted := false;
      Recompute();
    }

    /**
     * Typing reports the text lower-cased, which the form stores as the
     * value. The filter runs again unless neither the value nor the
     * interaction flag changed, in which case list and highlight stay.
     */
    method Change(text: string) returns (emitted: Option<string>)
      requires Valid()
      modifies this
      ensures Valid()
      ensures emitted == Some(Lower(text)) && value == Lower(text)
      ensures hasInteracted && suggestions == old(suggestions)
      ensures filtered == (if Trim(value) != [] then Matches(suggestions, value) else [])
      ensures old(value) == Lower(text) && old(hasInteracted) ==>
        highlighted == old(highlighted) && filtered == old(filtered) && isOpen == old(isOpen)
      ensures old(value) != Lower(text) || !old(hasInteracted) ==> highlighted == -1
    {
      var wasValue, wasInteracted := value, hasInteracted;
      emitted := Some(Lower(text));
      hasInteracted := true;
      value := emitted.value;
      if value != wasValue || !wasInteracted {
        Recompute();
      }
    }
  }

  /** A settled field is open exactly when it lists something, and then only matches of the value. */
  lemma SettledListFacts(suggestions: seq<string>, value: string, hasInteracted: bool)
    ensures var r := Wanted(suggestions, value, hasInteracted);
      && (|r| > 0 ==> hasInteracted && Trim(value) != [])
      && |r| <= |suggestions|
      && (forall s :: s in r <==> hasInteracted && Trim(value) != [] && s in suggestions && MatchesValue(value, s))
  {
    MatchesFacts(suggestions, value);
  }
}
