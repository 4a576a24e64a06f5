/**
 * The shopping-list page: the list search (built on the shared searchable
 * list), the create-list popup with its category autocomplete, and the
 * popup that adds items to a list and removes them.
 */
module ShoppingLists {
  import opened Seqs
  import opened Strings
  import opened Searchable

  /** A shopping list as the server returns it (`ID`, `name`, `type`). */
  datatype ShoppingList = ShoppingList(listId: int, name: string, listType: string)

  /** An item of a list; `isDeleted` is absent or a number, 1 meaning deleted. */
  datatype ShoppingListItem = ShoppingListItem(
    shoppingListId: int,
    name: string,
    category: string,
    quantity: int,
    itemId: int,
    isDeleted: Option<int>)

  // ---------------------------------------------------------------------------
  // The list search
  // ---------------------------------------------------------------------------

  /** A fetched list as a search item: its id is `ID`, its content `name - type`, the record kept whole. */
  function ListToSearchItem(l: ShoppingList): SearchItem<ShoppingList> {
    SearchItem(Num(l.listId), l.name + " - " + l.listType, l)
  }

  function ListsToSearchItems(lists: seq<ShoppingList>): seq<SearchItem<ShoppingList>> {
    seq(|lists|, k requires 0 <= k < |lists| => ListToSearchItem(lists[k]))
  }

  /**
   * Every list is offered, with its own id and record; a query found (case
   * ignored) in a list's name or in its type finds the list.
   */
  lemma ListSearchFindsNameAndType(lists: seq<ShoppingList>, query: string)
    ensures |ListsToSearchItems(lists)| == |lists|
    ensures forall k | 0 <= k < |lists| ::
              ListsToSearchItems(lists)[k].data == lists[k] && ListsToSearchItems(lists)[k].id == Num(lists[k].listId)
    ensures forall k | 0 <= k < |lists| && (ContainsIgnoringCase(lists[k].name, query) || ContainsIgnoringCase(lists[k].listType, query)) ::
              ListToSearchItem(lists[k]) in SearchMatches(ListsToSearchItems(lists), query)
  {
    var items := ListsToSearchItems(lists);
    SearchKeepsMatching(items, query);
    forall k | 0 <= k < |lists| && (ContainsIgnoringCase(lists[k].name, query) || ContainsIgnoringCase(lists[k].listType, query))
      ensures ListToSearchItem(lists[k]) in SearchMatches(items, query)
    {
      var l := lists[k];
      if ContainsIgnoringCase(l.name, query) {
        ContainsIgnoringCaseInConcat(l.name, " - ", query);
      }
      ContainsIgnoringCaseInConcat(l.name + " - ", l.listType, query);
      assert items[k] == ListToSearchItem(l);
    }
  }

  // ---------------------------------------------------------------------------
  // Categories
  // ---------------------------------------------------------------------------

  function DefaultCategories(): seq<string> {
    [
      "Groceries", "Household", "Personal Care", "Electronics", "Clothing",
      "Pet Supplies", "Office Supplies", "Party Supplies", "Hardware", "Gifts"
    ]
  }

  function TypesOf(lists: seq<ShoppingList>): seq<string> {
    seq(|lists|, k requires 0 <= k < |lists| => lists[k].listType)
  }

  /** `[...new Set([...DEFAULT_CATEGORIES, ...new Set(types)])].sort()`. */
  function MergeCategories(types: seq<string>): seq<string> {
    Sort(Dedup(DefaultCategories() + Dedup(types)))
  }

  /**
   * The merged category list is sorted, has no duplicates, and holds
   * exactly the default categories and the fetched types.
   */
  lemma MergeCategoriesSpec(types: seq<string>)
    ensures StrictlySorted(MergeCategories(types))
    ensures NoDuplicates(MergeCategories(types))
    ensures forall c :: c in MergeCategories(types) <==> c in DefaultCategories() || c in types
  {
    var u := Dedup(DefaultCategories() + Dedup(types));
    SortDistinct(u);
    StrictlySortedDistinct(Sort(u));
  }

  /**
   * The fallback after a failed fetch is the default list in its declared
   * order, which is not sorted; a successful fetch of no lists gives the
   * same categories sorted, so the two differ.
   */
  lemma FallbackUnsorted()
    ensures !StrictlySorted(DefaultCategories())
    ensures forall c :: c in MergeCategories([]) <==> c in DefaultCategories()
    ensures MergeCategories([]) != DefaultCategories()
  {
    assert !Below(DefaultCategories()[1], DefaultCategories()[3]);
    MergeCategoriesSpec([]);
  }

  function CategoryQuery(query: string): string -> bool {
    (cat: string) => ContainsTrimmedQuery(cat, query)
  }

  /** The category query effect: a non-blank trimmed query filters, a blank one shows every category. */
  function CategoryResults(all: seq<string>, query: string): seq<string> {
    if Trim(query) != "" then Filter(all, CategoryQuery(query)) else all
  }

  /**
   * The blank-query branch is the filter itself: every category holds the
   * empty trimmed query, so the results are always the categories holding
   * the trimmed query (case ignored), in their order.
   */
  lemma CategoryResultsSpec(all: seq<string>, query: string)
    ensures CategoryResults(all, query) == Filter(all, CategoryQuery(query))
    ensures IsSubsequence(CategoryResults(all, query), all)
    ensures forall k | 0 <= k < |all| :: all[k] in CategoryResults(all, query) <==> ContainsTrimmedQuery(all[k], query)
    ensures IsBlank(query) ==> CategoryResults(all, query) == all
  {
    if IsBlank(query) {
      forall k | 0 <= k < |all| ensures CategoryQuery(query)(all[k]) {
        BlankQueryMatchesAll(all[k], query);
      }
      FilterKeepsAll(all, CategoryQuery(query));
    }
    FilterIsSubsequence(all, CategoryQuery(query));
    FilterKeepsMatching(all, CategoryQuery(query));
  }

  /** The category autocomplete; `category` is the value last passed to `setCategory`. */
  class CategoryInput {
    var allCategories: seq<string>
    var query: string
    var results: seq<string>
    var focused: bool
    var category: string

    ghost predicate Valid()
      reads this
    {
      IsSubsequence(results, allCategories)
    }

    /** Mounting: nothing loaded; the query effect on the blank query lists the (empty) categories. */
    constructor ()
      ensures Valid()
      ensures allCategories == [] && query == "" && results == [] && !focused && category == ""
    {
      allCategories := [];
      query := "";
      results := [];
      focused := false;
      category := "";
    }

    /** The shopping lists arrived: their types are merged with the defaults. */
    method FetchSucceeded(lists: seq<ShoppingList>)
      modifies this`allCategories, this`results
      ensures Valid()
      ensures allCategories == MergeCategories(TypesOf(lists)) && results == allCategories
    {
      allCategories := MergeCategories(TypesOf(lists));
      results := allCategories;
      SubsequenceReflexive(allCategories);
    }

    /** The fetch failed: the default categories, in their declared order. */
    method FetchFailed()
      modifies this`allCategories, this`results
      ensures Valid()
      ensures allCategories == DefaultCategories() && results == DefaultCategories()
    {
      allCategories := DefaultCategories();
      results := DefaultCategories();
      SubsequenceReflexive(DefaultCategories());
    }

    method QueryChanged()
      modifies this`results
      ensures Valid()
      ensures results == CategoryResults(allCategories, query)
    {
      var all, q := allCategories, query;
      CategoryResultsSpec(all, q);
      if Trim(q) != "" {
        results := Filter(all, CategoryQuery(q));
      } else {
        results := all;
      }
    }

    method Focus()
      modifies this`focused
      ensures focused
    {
      focused := true;
    }

    /** `handleChange`: the query and the reported category both become the typed value. */
    method Change(value: string)
      requires Valid()
      modifies this`query, this`category, this`results
      ensures Valid()
      ensures query == value && category == value
      ensures value != old(query) ==> results == CategoryResults(allCategories, value)
      ensures value == old(query) ==> results == old(results)
    {
      var changed := value != query;
      query := value;
      category := value;
      if changed {
        QueryChanged();
      }
    }

    /**
     * `handleSelect` on a listed category (the dropdown is rendered only
     * while focused): the query and the reported category become it and the
     * dropdown closes.
     */
    method Select(cat: string)
      requires Valid() && cat in results
      modifies this`query, this`category, this`results, this`focused
      ensures Valid()
      ensures old(focused) ==> query == cat && category == cat && !focused && cat in allCategories
      ensures old(focused) && cat != old(query) ==> results == CategoryResults(allCategories, cat)
      ensures old(focused) && cat == old(query) ==> results == old(results)
      ensures !old(focused) ==> query == old(query) && category == old(category) && results == old(results) && !focused
    {
      if focused {
        SubsequenceMembers(results, allCategories);
        var changed := cat != query;
        query := cat;
        category := cat;
        focused := false;
        if changed {
          QueryChanged();
        }
      }
    }
  }

  // ---------------------------------------------------------------------------
  // The create-list popup
  // ---------------------------------------------------------------------------

  /** The body of a `POST /shopping_lists`. */
  datatype ListRequest = ListRequest(name: string, listType: string)

  /** `!name || !category`: only the empty string is refused; white space passes. */
  predicate CreateListRejected(name: string, category: string) {
    name == "" || category == ""
  }

  /**
   * The create-list form. It takes no `displayed` prop, so it is rendered
   * from the moment the page mounts and is never hidden; its buttons only
   * write the owner's flag through `setDisplayed`.
   */
  class CreateShoppingListForm {
    /** Whether the owner passed the optional `onCreateShoppingList` callback. */
    const reports: bool
    /** The owner's flag, as last written through `setDisplayed`; the form never reads it. */
    var displayed: bool
    var name: string
    var category: string
    var requests: seq<ListRequest>
    /** Arguments of the owner's `onCreateShoppingList` calls, oldest first. */
    var created: seq<ShoppingList>

    constructor (reports0: bool, displayed0: bool)
      ensures reports == reports0 && displayed == displayed0
      ensures name == "" && category == "" && requests == [] && created == []
    {
      reports := reports0;
      displayed := displayed0;
      name := "";
      category := "";
      requests := [];
      created := [];
    }

    method SetName(value: string)
      modifies this`name
      ensures name == value
    {
      name := value;
    }

    /** `setCategory`, called by the category input. */
    method SetCategory(value: string)
      modifies this`category
      ensures category == value
    {
      category := value;
    }

    /** The "X" button: `setDisplayed(false)`. */
    method Close()
      modifies this`displayed
      ensures !displayed
    {
      displayed := false;
    }

    /**
     * `submitShoppingList`, with `response` the list the server created
     * (`None` when the POST fails). A refused form posts nothing; otherwise
     * one request is posted and, on success, the new list is reported when
     * the owner passed a callback, `setDisplayed(false)` is called and both
     * fields are cleared. Whatever the flag, the form stays on screen.
     */
    method Submit(response: Option<ShoppingList>)
      modifies this`requests, this`created, this`displayed, this`name, this`category
      ensures CreateListRejected(old(name), old(category)) ==>
                requests == old(requests) && created == old(created) && displayed == old(displayed)
                && name == old(name) && category == old(category)
      ensures !CreateListRejected(old(name), old(category)) ==>
                requests == old(requests) + [ListRequest(old(name), old(category))]
      ensures !CreateListRejected(old(name), old(category)) && response.Some? ==>
                !displayed && name == "" && category == ""
      ensures !CreateListRejected(old(name), old(category)) && response.Some? && reports ==>
                created == old(created) + [response.value]
      ensures !reports ==> created == old(created)
      ensures !CreateListRejected(old(name), old(category)) && response.None? ==>
                created == old(created) && displayed == old(displayed) && name == old(name) && category == old(category)
    {
      if !CreateListRejected(name, category) {
        requests := requests + [ListRequest(name, category)];
        if response.Some? {
          if reports {
            created := created + [response.value];
          }
          displayed := false;
          name := "";
          category := "";
        }
      }
    }
  }

  // ---------------------------------------------------------------------------
  // Editing the items of a list
  // ---------------------------------------------------------------------------

  predicate NotDeleted(item: ShoppingListItem) {
    item.isDeleted != Some(1)
  }

  /** The items fetched for a list, with the deleted ones filtered out as the code intends. */
  function VisibleItems(fetched: seq<ShoppingListItem>): seq<ShoppingListItem> {
    Filter(fetched, NotDeleted)
  }

  /** The intended list keeps, in order, every item not marked deleted and no other. */
  lemma VisibleItemsSpec(fetched: seq<ShoppingListItem>)
    ensures IsSubsequence(VisibleItems(fetched), fetched)
    ensures forall k | 0 <= k < |VisibleItems(fetched)| :: NotDeleted(VisibleItems(fetched)[k])
    ensures forall item | NotDeleted(item) :: multiset(VisibleItems(fetched))[item] == multiset(fetched)[item]
  {
    FilterIsSubsequence(fetched, NotDeleted);
    forall item | NotDeleted(item) ensures multiset(VisibleItems(fetched))[item] == multiset(fetched)[item] {
      FilterCounts(fetched, NotDeleted, item);
    }
  }

  /**
   * The add-item guard as written: `!itemName || !itemCategory ||
   * itemQuantity <= 0`, where the quantity is `parseInt` of the number
   * field and `None` is `NaN`, for which `<= 0` is false.
   */
  predicate AddItemAcceptedAsWritten(name: string, category: string, quantity: Option<int>) {
    !(name == "" || category == "" || (quantity.Some? && quantity.value <= 0))
  }

  /** The guard as intended: a name, a category and a positive quantity. */
  predicate AddItemAccepted(name: string, category: string, quantity: Option<int>) {
    name != "" && category != "" && quantity.Some? && quantity.value > 0
  }

  /**
   * Clearing the quantity field makes `parseInt("")` `NaN`, which the
   * guard as written lets through.
   */
  lemma NaNQuantityAcceptedAsWritten()
    ensures ParseInt("") == None
    ensures AddItemAcceptedAsWritten("Milk", "Groceries", ParseInt(""))
    ensures !AddItemAccepted("Milk", "Groceries", ParseInt(""))
  {
    assert TrimStart("") == "";
    assert !HasHexPrefix("");
    assert DigitRun("", 10) == 0;
  }

  /** The two guards differ only on `NaN`: for a number they accept the same fields. */
  lemma AddItemGuardsCompared(name: string, category: string, quantity: Option<int>)
    ensures quantity.Some? ==> (AddItemAccepted(name, category, quantity) <==> AddItemAcceptedAsWritten(name, category, quantity))
    ensures AddItemAccepted(name, category, quantity) ==> AddItemAcceptedAsWritten(name, category, quantity)
    ensures quantity.None? ==> !AddItemAccepted(name, category, quantity)
  {
  }

  function ItemIdIsNot(itemId: int): ShoppingListItem -> bool {
    (item: ShoppingListItem) => item.itemId != itemId
  }

  /** The update after a successful delete: `items.filter(item => item.itemID !== itemId)`. */
  function RemoveItem(items: seq<ShoppingListItem>, itemId: int): seq<ShoppingListItem> {
    Filter(items, ItemIdIsNot(itemId))
  }

  /**
   * Deleting removes every entry with the id and keeps every other entry,
   * each as often as before, in order.
   */
  lemma RemoveItemSpec(items: seq<ShoppingListItem>, itemId: int)
    ensures IsSubsequence(RemoveItem(items, itemId), items)
    ensures forall k | 0 <= k < |RemoveItem(items, itemId)| :: RemoveItem(items, itemId)[k].itemId != itemId
    ensures forall item: ShoppingListItem | item.itemId != itemId :: multiset(RemoveItem(items, itemId))[item] == multiset(items)[item]
    ensures (forall k | 0 <= k < |items| :: items[k].itemId != itemId) ==> RemoveItem(items, itemId) == items
  {
    FilterIsSubsequence(items, ItemIdIsNot(itemId));
    forall item: ShoppingListItem | item.itemId != itemId ensures multiset(RemoveItem(items, itemId))[item] == multiset(items)[item] {
      FilterCounts(items, ItemIdIsNot(itemId), item);
    }
    if forall k | 0 <= k < |items| :: items[k].itemId != itemId {
      FilterKeepsAll(items, ItemIdIsNot(itemId));
    }
  }

  /** The body of a `POST /shopping_lists/{id}/items` that adds an item. */
  datatype ItemRequest = ItemRequest(name: string, category: string, quantity: Option<int>)

  /** The edit popup of one list. Until the items arrive only a loading line is rendered. */
  class EditShoppingList {
    const listId: int
    var loading: bool
    var items: seq<ShoppingListItem>
    var itemName: string
    var itemCategory: string
    /** `parseInt` of the quantity field; `None` is `NaN`. */
    var itemQuantity: Option<int>
    var addRequests: seq<ItemRequest>
    /** The item ids whose deletion was requested, oldest first. */
    var deleteRequests: seq<int>

    constructor (listId0: int)
      ensures listId == listId0 && loading && items == []
      ensures itemName == "" && itemCategory == "" && itemQuantity == Some(0)
      ensures addRequests == [] && deleteRequests == []
    {
      listId := listId0;
      loading := true;
      items := [];
      itemName := "";
      itemCategory := "";
      itemQuantity := Some(0);
      addRequests := [];
      deleteRequests := [];
    }

    /**
     * The items request settled (`None` when it failed). The filtered copy
     * the code computes is never used: every fetched item is shown, those
     * marked deleted included.
     */
    method ItemsFetched(fetched: Option<seq<ShoppingListItem>>)
      modifies this`loading, this`items
      ensures !loading
      ensures fetched.Some? ==> items == fetched.value
      ensures fetched.None? ==> items == old(items)
    {
      if fetched.Some? {
        items := fetched.value;
      }
      loading := false;
    }

    method SetItemName(value: string)
      modifies this`itemName
      ensures itemName == if old(loading) then old(itemName) else value
    {
      if !loading {
        itemName := value;
      }
    }

    method SetItemCategory(value: string)
      modifies this`itemCategory
      ensures itemCategory == if old(loading) then old(itemCategory) else value
    {
      if !loading {
        itemCategory := value;
      }
    }

    /** Typing into the number field: the quantity is `parseInt` of its text. */
    method SetItemQuantity(text: string)
      modifies this`itemQuantity
      ensures itemQuantity == if old(loading) then old(itemQuantity) else ParseInt(text)
    {
      if !loading {
        itemQuantity := ParseInt(text);
      }
    }

    /**
     * `handleAddItem`, with `response` the item the server created (`None`
     * when the POST fails). The guard is the one written in the code:
     * fields it refuses post nothing; otherwise one request is posted,
     * with a `NaN` quantity too, and, on success, the new item is appended
     * and the three fields are reset.
     */
    method AddItem(response: Option<ShoppingListItem>)
      modifies this`items, this`itemName, this`itemCategory, this`itemQuantity, this`addRequests
      ensures old(loading) || !AddItemAcceptedAsWritten(old(itemName), old(itemCategory), old(itemQuantity)) ==>
                items == old(items) && addRequests == old(addRequests)
                && itemName == old(itemName) && itemCategory == old(itemCategory) && itemQuantity == old(itemQuantity)
      ensures !old(loading) && AddItemAcceptedAsWritten(old(itemName), old(itemCategory), old(itemQuantity)) ==>
                addRequests == old(addRequests) + [ItemRequest(old(itemName), old(itemCategory), old(itemQuantity))]
                && old(itemName) != "" && old(itemCategory) != ""
                && (old(itemQuantity).Some? ==> old(itemQuantity).value > 0)
      ensures !old(loading) && old(itemName) != "" && old(itemCategory) != "" && old(itemQuantity).None? ==>
                addRequests == old(addRequests) + [ItemRequest(old(itemName), old(itemCategory), None)]
      ensures !old(loading) && AddItemAcceptedAsWritten(old(itemName), old(itemCategory), old(itemQuantity)) && response.Some? ==>
                items == old(items) + [response.value]
                && itemName == "" && itemCategory == "" && itemQuantity == Some(0)
      ensures response.None? ==>
                items == old(items) && itemName == old(itemName) && itemCategory == old(itemCategory)
                && itemQuantity == old(itemQuantity)
    {
      if !loading && AddItemAcceptedAsWritten(itemName, itemCategory, itemQuantity) {
        addRequests := addRequests + [ItemRequest(itemName, itemCategory, itemQuantity)];
        if response.Some? {
          items := items + [response.value];
          itemName := "";
          itemCategory := "";
          itemQuantity := Some(0);
        }
      }
    }

    /**
     * `handleDeleteItem`: the deletion is requested and, when the server
     * answers, every entry with that id leaves the list.
     */
    method DeleteItem(itemId: int, answered: bool)
      modifies this`items, this`deleteRequests
      ensures old(loading) ==> items == old(items) && deleteRequests == old(deleteRequests)
      ensures !old(loading) ==> deleteRequests == old(deleteRequests) + [itemId]
      ensures !old(loading) && answered ==> items == RemoveItem(old(items), itemId)
      ensures !answered ==> items == old(items)
    {
      if !loading {
        deleteRequests := deleteRequests + [itemId];
        if answered {
          items := RemoveItem(items, itemId);
        }
      }
    }
  }

  /**
   * As written, an item marked deleted is still shown once the items
   * arrive, while the intended list drops it.
   */
  method DeletedItemShownAsWritten() returns (shown: seq<ShoppingListItem>, intended: seq<ShoppingListItem>)
    ensures |shown| == 1 && shown[0].isDeleted == Some(1)
    ensures intended == []
  {
    var deleted := ShoppingListItem(1, "Milk", "Groceries", 2, 7, Some(1));
    var popup := new EditShoppingList(1);
    popup.ItemsFetched(Some([deleted]));
    shown := popup.items;
    intended := VisibleItems([deleted]);
  }

  /**
   * As written, clearing the quantity field and pressing add posts an item
   * whose quantity is `NaN`.
   */
  method NaNQuantityPostedAsWritten() returns (posted: seq<ItemRequest>)
    ensures posted == [ItemRequest("Milk", "Groceries", None)]
  {
    var popup := new EditShoppingList(1);
    popup.ItemsFetched(Some([]));
    popup.SetItemName("Milk");
    popup.SetItemCategory("Groceries");
    popup.SetItemQuantity("");
    NaNQuantityAcceptedAsWritten();
    popup.AddItem(None);
    posted := popup.addRequests;
  }
}
