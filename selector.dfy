/**
 * The page's view-state: the fetched list, the displayed list, the selected
 * skip, the two filter flags and the sort key, with the handlers that
 * change them. Whenever the list, a flag or the key changes, the displayed
 * list is recomputed from scratch by the filter/sort effect.
 */
module Selector {
  import opened Options
  import opened Records
  import opened FilterSort

  /** The message raised when the pricing API answers with a non-success status. */
  const FetchFailedMessage: string := "Failed to fetch skip data"

  /** How the one fetch of the page ended. */
  datatype Response =
    | HttpError                      // `response.ok` was false
    | Thrown(message: string)        // the request or the JSON parse threw
    | Body(data: seq<RawSkip>)       // the parsed JSON array

  class SkipHireSelector {
    var selectedSkip: Option<int>
    var skipSizes: seq<Skip>
    var filteredSkips: seq<Skip>
    var loading: bool
    var error: Option<string>
    var showRoadLegalOnly: bool
    var showHeavyWasteOnly: bool
    var sortBy: string

    /** The displayed list is the full list filtered and sorted by the current settings. */
    ghost predicate Valid()
      reads this
    {
      filteredSkips == Displayed(skipSizes, showRoadLegalOnly, showHeavyWasteOnly, sortBy)
    }

    /** The state on mount: nothing loaded yet, nothing selected, no filter, sorted by size. */
    constructor ()
      ensures Valid()
      ensures selectedSkip == None && skipSizes == [] && filteredSkips == []
      ensures loading && error == None
      ensures !showRoadLegalOnly && !showHeavyWasteOnly && sortBy == "size"
    {
      selectedSkip := None;
      skipSizes := [];
      filteredSkips := [];
      loading := true;
      error := None;
      showRoadLegalOnly := false;
      showHeavyWasteOnly := false;
      sortBy := "size";
    }

    /** The filter/sort effect: recompute the displayed list from the current state. */
    method Refresh()
      modifies this`filteredSkips
      ensures Valid()
    {
      filteredSkips := FilterAndSort(skipSizes, showRoadLegalOnly, showHeavyWasteOnly, sortBy);
    }

    /**
     * The end of the fetch: on a body, the records are transformed and become
     * the full list; otherwise the error is recorded. Either way loading ends.
     */
    method FetchCompleted(response: Response)
      modifies this
      ensures Valid()
      ensures !loading
      ensures response.Body? ==> skipSizes == TransformAll(response.data) && error == old(error)
      ensures response.HttpError? ==> error == Some(FetchFailedMessage) && skipSizes == old(skipSizes)
      ensures response.Thrown? ==> error == Some(response.message) && skipSizes == old(skipSizes)
      ensures selectedSkip == old(selectedSkip) && sortBy == old(sortBy)
      ensures showRoadLegalOnly == old(showRoadLegalOnly) && showHeavyWasteOnly == old(showHeavyWasteOnly)
    {
      match response {
        case Body(data) =>
          var transformed := TransformAll(data);
          skipSizes := transformed;
          filteredSkips := transformed;
        case HttpError =>
          error := Some(FetchFailedMessage);
        case Thrown(message) =>
          error := Some(message);
      }
      loading := false;
      Refresh();
    }

    /** Clicking a card: its id becomes the one selection, replacing any other. */
    method SelectSkip(skipId: int)
      requires Valid()
      modifies this`selectedSkip
      ensures Valid()
      ensures selectedSkip == Some(skipId)
      ensures forall b :: IsSelected(b) <==> b == skipId
    {
      selectedSkip := Some(skipId);
    }

    /** The "Road legal only" checkbox. The selection is left alone. */
    method SetRoadLegalOnly(checked: bool)
      modifies this`showRoadLegalOnly, this`filteredSkips
      ensures Valid()
      ensures showRoadLegalOnly == checked
      ensures filteredSkips == Displayed(skipSizes, checked, showHeavyWasteOnly, sortBy)
    {
      showRoadLegalOnly := checked;
      Refresh();
    }

    /** The "Heavy waste suitable" checkbox. The selection is left alone. */
    method SetHeavyWasteOnly(checked: bool)
      modifies this`showHeavyWasteOnly, this`filteredSkips
      ensures Valid()
      ensures showHeavyWasteOnly == checked
      ensures filteredSkips == Displayed(skipSizes, showRoadLegalOnly, checked, sortBy)
    {
      showHeavyWasteOnly := checked;
      Refresh();
    }

    /** The "Sort by" select; any value other than "price" sorts by size. */
    method SetSortBy(value: string)
      modifies this`sortBy, this`filteredSkips
      ensures Valid()
      ensures sortBy == value
      ensures filteredSkips == Displayed(skipSizes, showRoadLegalOnly, showHeavyWasteOnly, value)
    {
      sortBy := value;
      Refresh();
    }

    /**
     * "Clear all filters": both flags off, the sort key kept, and so the
     * whole full list displayed, re-sorted by the current key.
     */
    method ClearAllFilters()
      modifies this`showRoadLegalOnly, this`showHeavyWasteOnly, this`filteredSkips
      ensures Valid()
      ensures !showRoadLegalOnly && !showHeavyWasteOnly
      ensures filteredSkips == StableSorted(skipSizes, ByPrice(sortBy))
      ensures multiset(filteredSkips) == multiset(skipSizes)
    {
      showRoadLegalOnly := false;
      showHeavyWasteOnly := false;
      Refresh();
      DisplayedContents(skipSizes, false, false, sortBy);
    }

    /** Whether a card is highlighted as selected. */
    predicate IsSelected(skipId: int)
      reads this
    {
      selectedSkip == Some(skipId)
    }

    /** At most one card is ever highlighted. */
    lemma AtMostOneSelected(a: int, b: int)
      requires IsSelected(a) && IsSelected(b)
      ensures a == b
    {
    }

    /**
     * The "Showing N of M skips" line: present only while a filter is on,
     * and then N, the displayed count, never exceeds M, the full count.
     */
    method FilterSummary() returns (summary: Option<(nat, nat)>)
      requires Valid()
      ensures summary.Some? <==> showRoadLegalOnly || showHeavyWasteOnly
      ensures summary.Some? ==> summary.value == (|filteredSkips|, |skipSizes|)
      ensures summary.Some? ==> summary.value.0 <= summary.value.1
    {
      DisplayedContents(skipSizes, showRoadLegalOnly, showHeavyWasteOnly, sortBy);
      if showRoadLegalOnly || showHeavyWasteOnly {
        summary := Some((|filteredSkips|, |skipSizes|));
      } else {
        summary := None;
      }
    }

    /**
     * The "No skips match your filters" panel: shown exactly when no record
     * of the full list passes the active flags.
     */
    method ShowsNoResults() returns (empty: bool)
      requires Valid()
      ensures empty <==> forall x :: x in skipSizes ==> !Matches(x, showRoadLegalOnly, showHeavyWasteOnly)
    {
      empty := |filteredSkips| == 0;
      DisplayedContents(skipSizes, showRoadLegalOnly, showHeavyWasteOnly, sortBy);
      if !empty {
        assert filteredSkips[0] in filteredSkips;
      }
    }
  }

  /** Selecting one skip and then another leaves exactly the second selected. */
  method SelectTwice(first: int, second: int) returns (selected: Option<int>)
    ensures selected == Some(second)
  {
    var page := new SkipHireSelector();
    page.SelectSkip(first);
    page.SelectSkip(second);
    selected := page.selectedSkip;
  }

  /**
   * Filtering and sorting never touch the selection, even when the selected
   * record is filtered out of view.
   */
  method SelectionSurvivesFilters(data: seq<RawSkip>, skipId: int, key: string)
    returns (selected: Option<int>)
    ensures selected == Some(skipId)
  {
    var page := new SkipHireSelector();
    page.FetchCompleted(Body(data));
    page.SelectSkip(skipId);
    page.SetRoadLegalOnly(true);
    assert page.selectedSkip == Some(skipId);
    page.SetHeavyWasteOnly(true);
    assert page.selectedSkip == Some(skipId);
    page.SetSortBy(key);
    assert page.selectedSkip == Some(skipId);
    page.ClearAllFilters();
    selected := page.selectedSkip;
  }
}
