/**
 * The searchable selection list that every page reuses: a text input, the
 * rows that match it, a single selection that locks the input, and an
 * optional delete button on the selected row.
 *
 * State lives in three React components; the class below holds all of it:
 * `searchResults` and `isLocked` (SearchableList), `query` (SearchInput) and
 * `selectedItem` (SearchResults). The owner's `onSelect` and `onDelete`
 * callbacks are recorded, in call order, in `selections` and `deletions`.
 * Each method is one user event; an event aimed at a control that is
 * disabled, or that is not rendered, changes nothing.
 */
module Searchable {
  import opened Seqs
  import opened Strings

  /** `id: number | string`. */
  datatype Key = Num(n: int) | Str(s: string)

  /** An item offered for search: its id, the text matched and displayed, and the page's own record. */
  datatype SearchItem<T> = SearchItem(id: Key, content: string, data: T)

  /** `item.content.toLowerCase().includes(query.toLowerCase())` — the query is not trimmed. */
  predicate Matches<T>(item: SearchItem<T>, query: string) {
    ContainsIgnoringCase(item.content, query)
  }

  /** The filter in `handleSearch`. */
  function SearchMatches<T>(items: seq<SearchItem<T>>, query: string): seq<SearchItem<T>> {
    Filter(items, (it: SearchItem<T>) => Matches(it, query))
  }

  /**
   * `handleSearch` keeps, in their original order, exactly the items that
   * match: every copy of a matching item and no copy of any other.
   */
  lemma SearchMatchesExact<T>(items: seq<SearchItem<T>>, query: string)
    ensures IsSubsequence(SearchMatches(items, query), items)
    ensures forall it :: multiset(SearchMatches(items, query))[it] ==
                         if Matches(it, query) then multiset(items)[it] else 0
  {
    var p := (it: SearchItem<T>) => Matches(it, query);
    FilterIsSubsequence(items, p);
    forall it ensures multiset(SearchMatches(items, query))[it] ==
                      if Matches(it, query) then multiset(items)[it] else 0 {
      FilterCounts(items, p, it);
    }
  }

  /** Every matching item is among the results. */
  lemma SearchKeepsMatching<T>(items: seq<SearchItem<T>>, query: string)
    ensures forall k | 0 <= k < |items| && Matches(items[k], query) :: items[k] in SearchMatches(items, query)
  {
    FilterKeepsMatching(items, (it: SearchItem<T>) => Matches(it, query));
  }

  /** The empty query matches every item, so the list is shown whole and in order. */
  lemma SearchEmptyQuery<T>(items: seq<SearchItem<T>>)
    ensures SearchMatches(items, "") == items
  {
    assert Lower("") == "";
    forall k | 0 <= k < |items| ensures Matches(items[k], "") {
      ContainsEmpty(Lower(items[k].content));
    }
    FilterKeepsAll(items, (it: SearchItem<T>) => Matches(it, ""));
  }

  /** Searching the results again with the same query changes nothing. */
  lemma SearchIdempotent<T>(items: seq<SearchItem<T>>, query: string)
    ensures SearchMatches(SearchMatches(items, query), query) == SearchMatches(items, query)
  {
    FilterIdempotent(items, (it: SearchItem<T>) => Matches(it, query));
  }

  /**
   * The widget does not trim: an item with content "a" is found by "a" but
   * not by " a", although both trim to the same query.
   */
  lemma SearchDoesNotTrim<T>(d: T)
    ensures var items := [SearchItem(Num(1), "a", d)];
            Trim(" a") == "a" && SearchMatches(items, " a") == [] && SearchMatches(items, "a") == items
  {
    var items := [SearchItem(Num(1), "a", d)];
    assert !Matches(items[0], " a") by {
      assert |Lower("a")| == 1 && |Lower(" a")| == 2;
      ContainsLonger(Lower("a"), Lower(" a"));
    }
    assert Matches(items[0], "a") by {
      ContainsSelf(Lower("a"));
    }
    FilterKeepsNone(items, (it: SearchItem<T>) => Matches(it, " a"));
    FilterKeepsAll(items, (it: SearchItem<T>) => Matches(it, "a"));
    assert Trim(" a") == "a" by {
      assert " a"[1..] == "a";
      TrimStartNoSpace("a");
    }
  }

  /** `item.id === selectedItem?.id`: the row is the selected one. */
  predicate IsSelected<T>(selected: Option<SearchItem<T>>, item: SearchItem<T>) {
    selected.Some? && selected.value.id == item.id
  }

  /** `isSelected && isDeletable`: the row shows a delete button. */
  predicate DeleteButtonShown<T>(deletable: bool, selected: Option<SearchItem<T>>, item: SearchItem<T>) {
    IsSelected(selected, item) && deletable
  }

  predicate DistinctIds<T>(rows: seq<SearchItem<T>>) {
    forall i, j | 0 <= i < j < |rows| :: rows[i].id != rows[j].id
  }

  /**
   * The delete button appears only when `onDelete` is given, only on the
   * selected row, and so (ids being distinct) on one row at most.
   */
  lemma DeleteButtonOnSelectedRowOnly<T>(deletable: bool, selected: Option<SearchItem<T>>, rows: seq<SearchItem<T>>)
    requires DistinctIds(rows)
    ensures forall i, j | 0 <= i < |rows| && 0 <= j < |rows| ::
              DeleteButtonShown(deletable, selected, rows[i]) && DeleteButtonShown(deletable, selected, rows[j]) ==> i == j
    ensures forall i | 0 <= i < |rows| :: DeleteButtonShown(deletable, selected, rows[i]) ==>
              deletable && selected.Some? && rows[i].id == selected.value.id
  {
  }

  class SearchableList<T(==)> {
    /** The `items` prop. */
    var items: seq<SearchItem<T>>
    /** Whether the owner passed `onDelete`. */
    const deletable: bool
    var searchResults: seq<SearchItem<T>>
    var isLocked: bool
    /** The text held by SearchInput. */
    var query: string
    var selectedItem: Option<SearchItem<T>>
    /** Arguments of the owner's `onSelect` calls, oldest first. */
    var selections: seq<SearchItem<T>>
    /** Arguments of the owner's `onDelete` calls, oldest first. */
    var deletions: seq<SearchItem<T>>
    /** The query of the latest `handleSearch` call. */
    ghost var searched: string

    /** A lock implies a selection; the results are the items matching the latest search. */
    ghost predicate Valid()
      reads this
    {
      && (isLocked ==> selectedItem.Some?)
      && searchResults == SearchMatches(items, searched)
    }

    /** Mounting: empty state, then the `items` effect shows the whole list. */
    constructor (items0: seq<SearchItem<T>>, deletable0: bool)
      ensures Valid()
      ensures items == items0 && deletable == deletable0
      ensures searchResults == items0
      ensures !isLocked && query == "" && selectedItem == None
      ensures selections == [] && deletions == []
    {
      items := items0;
      deletable := deletable0;
      searchResults := [];
      isLocked := false;
      query := "";
      selectedItem := None;
      selections := [];
      deletions := [];
      searched := "";
      new;
      HandleSearch("");
      SearchEmptyQuery(items0);
    }

    /** `handleSearch`: the results become the items matching `q`. */
    method HandleSearch(q: string)
      requires isLocked ==> selectedItem.Some?
      modifies this`searchResults, this`searched
      ensures Valid()
      ensures searchResults == SearchMatches(items, q)
    {
      searchResults := SearchMatches(items, q);
      searched := q;
    }

    /**
     * The `items` effect: a new list from the owner is shown in full. The
     * query, the lock and the selection are left as they were.
     */
    method ItemsChanged(newItems: seq<SearchItem<T>>)
      requires Valid()
      modifies this`items, this`searchResults, this`searched
      ensures Valid()
      ensures items == newItems && searchResults == newItems
      ensures query == old(query) && isLocked == old(isLocked) && selectedItem == old(selectedItem)
    {
      items := newItems;
      HandleSearch("");
      SearchEmptyQuery(newItems);
    }

    /** `handleFormChange`: typing `value` into the input, which is disabled while locked. */
    method Type(value: string)
      requires Valid()
      modifies this`query, this`searchResults, this`searched
      ensures Valid()
      ensures old(isLocked) ==> query == old(query) && searchResults == old(searchResults)
      ensures !old(isLocked) ==> query == value && searchResults == SearchMatches(items, value)
    {
      if !isLocked {
        query := value;
        HandleSearch(value);
      }
    }

    /** `handleSubmit`: pressing the search button, which is disabled while locked. */
    method Submit()
      requires Valid()
      modifies this`searchResults, this`searched
      ensures Valid()
      ensures old(isLocked) ==> searchResults == old(searchResults)
      ensures !old(isLocked) ==> searchResults == SearchMatches(items, query)
    {
      if !isLocked {
        HandleSearch(query);
      }
    }

    /** `handleSelect`: a selection locks and is reported to `onSelect`; clearing only unlocks. */
    method HandleSelect(selection: Option<SearchItem<T>>)
      modifies this`isLocked, this`selections
      ensures isLocked == selection.Some?
      ensures selections == old(selections) + if selection.Some? then [selection.value] else []
    {
      if selection.Some? {
        isLocked := true;
        selections := selections + [selection.value];
      } else {
        isLocked := false;
      }
    }

    /**
     * `handleClick` on a rendered row: the selected row is deselected; any
     * other row becomes the selection and is reported, locked or not.
     */
    method Click(item: SearchItem<T>)
      requires Valid() && item in searchResults
      modifies this`selectedItem, this`isLocked, this`selections
      ensures Valid()
      ensures IsSelected(old(selectedItem), item) ==>
                selectedItem == None && !isLocked && selections == old(selections)
      ensures !IsSelected(old(selectedItem), item) ==>
                selectedItem == Some(item) && isLocked && selections == old(selections) + [item]
    {
      if IsSelected(selectedItem, item) {
        selectedItem := None;
        HandleSelect(None);
      } else {
        selectedItem := Some(item);
        HandleSelect(Some(item));
      }
    }

    /**
     * The delete button of a rendered row: where it is shown, it unlocks and
     * reports the item to `onDelete`; the selection stays as it was, so the
     * widget can be unlocked with an item still selected.
     */
    method PressDelete(item: SearchItem<T>)
      requires Valid() && item in searchResults
      modifies this`isLocked, this`deletions
      ensures Valid()
      ensures DeleteButtonShown(deletable, selectedItem, item) ==>
                !isLocked && selectedItem.Some? && deletions == old(deletions) + [item]
      ensures !DeleteButtonShown(deletable, selectedItem, item) ==>
                isLocked == old(isLocked) && deletions == old(deletions)
    {
      if DeleteButtonShown(deletable, selectedItem, item) {
        isLocked := false;
        deletions := deletions + [item];
      }
    }
  }
}
