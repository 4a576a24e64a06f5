/**
 * The receipts page: the receipt search box, the two autocomplete inputs of
 * the create-receipt popup (store chain, then store location) and the
 * popup's submit guard.
 *
 * Each input keeps the list last fetched (`allStoreChains` / `allStores`),
 * the query and the visible results, and reports an id upward: the id of
 * the one entry whose name is exactly the query, or -1. A result button has
 * the HTML id `"button-" + id`, and pressing it decodes that id back with
 * `parseInt`.
 */
module Receipts {
  import opened Seqs
  import opened Strings
  import opened Addresses

  // ---------------------------------------------------------------------------
  // Receipts
  // ---------------------------------------------------------------------------

  /**
   * A receipt as the search lists it. `totalText` is the text JavaScript
   * renders for the floating-point `totalAmount`; it is carried unchanged.
   */
  datatype Receipt = Receipt(receiptId: int, storeName: string, date: string, totalText: string)

  /** `receiptToString`: store name, date and amount, separated by `" - "`, the amount after a dollar sign. */
  function ReceiptToString(r: Receipt): (s: string)
    ensures |s| == |r.storeName| + |r.date| + |r.totalText| + 7
    ensures s[..|r.storeName|] == r.storeName
  {
    r.storeName + " - " + r.date + " - $" + r.totalText
  }

  function ReceiptQuery(query: string): Receipt -> bool {
    (r: Receipt) => ContainsTrimmedQuery(ReceiptToString(r), query)
  }

  /** The receipt search's filter on query change. */
  function ReceiptFilter(receipts: seq<Receipt>, query: string): seq<Receipt> {
    Filter(receipts, ReceiptQuery(query))
  }

  /** A query found in the store name or the date of a receipt finds the receipt. */
  lemma ReceiptFoundByStoreOrDate(receipts: seq<Receipt>, query: string, k: nat)
    requires k < |receipts|
    requires ContainsTrimmedQuery(receipts[k].storeName, query) || ContainsTrimmedQuery(receipts[k].date, query)
    ensures receipts[k] in ReceiptFilter(receipts, query)
  {
    var r := receipts[k];
    if ContainsTrimmedQuery(r.storeName, query) {
      ContainsTrimmedInConcat(r.storeName, " - ", query);
      ContainsTrimmedInConcat(r.storeName + " - ", r.date, query);
    } else {
      ContainsTrimmedInConcat(r.storeName + " - ", r.date, query);
    }
    ContainsTrimmedInConcat(r.storeName + " - " + r.date, " - $", query);
    ContainsTrimmedInConcat(r.storeName + " - " + r.date + " - $", r.totalText, query);
    FilterKeepsMatching(receipts, ReceiptQuery(query));
  }

  // ---------------------------------------------------------------------------
  // Store chains
  // ---------------------------------------------------------------------------

  datatype StoreChain = StoreChain(id: int, name: string)

  /** The chain filter: the chain's name (`storeChainToString`) holds the trimmed query, case ignored. */
  function ChainQuery(query: string): StoreChain -> bool {
    (c: StoreChain) => ContainsTrimmedQuery(c.name, query)
  }

  function ChainFilter(chains: seq<StoreChain>, query: string): seq<StoreChain> {
    Filter(chains, ChainQuery(query))
  }

  /** The chains whose trimmed name is exactly `str`. */
  function ChainNamed(str: string): StoreChain -> bool {
    (c: StoreChain) => Trim(c.name) == str
  }

  function ChainIdOf(c: StoreChain): int {
    c.id
  }

  /** `stringToChainId`: the id of the only chain named `str`, -1 when none or several are. */
  function StringToChainId(chains: seq<StoreChain>, str: string): int {
    UniqueId(chains, ChainNamed(str), ChainIdOf)
  }

  /** What the query effect passes to `setChainId`: the looked-up id when it is non-negative, -1 otherwise. */
  function ChainIdSent(chains: seq<StoreChain>, query: string): int {
    var id := StringToChainId(chains, query);
    if id >= 0 then id else -1
  }

  /**
   * `stringToChainId` finds the id of the chain whose trimmed name alone is
   * `str`, and gives -1 when no chain or more than one chain has that name.
   */
  lemma StringToChainIdSpec(chains: seq<StoreChain>, str: string)
    ensures forall i | OnlyMatchAt(chains, ChainNamed(str), i) :: StringToChainId(chains, str) == chains[i].id
    ensures (forall i | 0 <= i < |chains| :: !OnlyMatchAt(chains, ChainNamed(str), i)) ==>
              StringToChainId(chains, str) == -1
  {
    UniqueIdSpec(chains, ChainNamed(str), ChainIdOf);
  }

  /**
   * After a query change the chain id reported upward is -1 or the
   * non-negative id of the one chain whose trimmed name is the query.
   */
  lemma ChainIdSentSpec(chains: seq<StoreChain>, query: string)
    ensures ChainIdSent(chains, query) == -1 ||
            (ChainIdSent(chains, query) >= 0 &&
             exists i | 0 <= i < |chains| :: OnlyMatchAt(chains, ChainNamed(query), i) && chains[i].id == ChainIdSent(chains, query))
    ensures forall i | OnlyMatchAt(chains, ChainNamed(query), i) && chains[i].id >= 0 :: ChainIdSent(chains, query) == chains[i].id
  {
    StringToChainIdSpec(chains, query);
    var p := ChainNamed(query);
    if |Filter(chains, p)| == 1 {
      var i := FilterSingletonIndex(chains, p);
      assert OnlyMatchAt(chains, p, i);
    }
  }

  /**
   * A query with white space at either end matches no chain's trimmed name,
   * so it reports -1, even when it is the exact name of a chain.
   */
  lemma ChainIdSentPaddedQuery(chains: seq<StoreChain>, query: string)
    requires Trim(query) != query
    ensures ChainIdSent(chains, query) == -1
  {
    forall k | 0 <= k < |chains| ensures !ChainNamed(query)(chains[k]) {
      NotATrimmedForm(chains[k].name, query);
    }
    FilterKeepsNone(chains, ChainNamed(query));
  }

  // ---------------------------------------------------------------------------
  // Stores
  // ---------------------------------------------------------------------------

  /** `storeToString`: `"houseNumber street, city, state postCode"`; the country is not shown. */
  function StoreToString(s: Store): (text: string)
    ensures |text| == |s.address.houseNumber| + |s.address.street| + |s.address.city|
                      + |s.address.state| + |s.address.postCode| + 6
    ensures text[..|s.address.houseNumber|] == s.address.houseNumber
  {
    var a := s.address;
    a.houseNumber + " " + a.street + ", " + a.city + ", " + a.state + " " + a.postCode
  }

  /** Two stores whose addresses differ only in the country have the same display text. */
  lemma StoreToStringIgnoresCountry(s: Store, country: string)
    ensures StoreToString(Store(s.id, s.address.(country := country))) == StoreToString(s)
  {
  }

  function StoreQuery(query: string): Store -> bool {
    (s: Store) => ContainsTrimmedQuery(StoreToString(s), query)
  }

  function StoreFilter(stores: seq<Store>, query: string): seq<Store> {
    Filter(stores, StoreQuery(query))
  }

  /** The stores whose display text is exactly `str` (no trimming on either side). */
  function StoreNamed(str: string): Store -> bool {
    (s: Store) => StoreToString(s) == str
  }

  function StoreIdOf(s: Store): int {
    s.id
  }

  /** `stringToStoreId`: the id of the only store displayed as `str`, -1 when none or several are. */
  function StringToStoreId(stores: seq<Store>, str: string): int {
    UniqueId(stores, StoreNamed(str), StoreIdOf)
  }

  function StoreIdSent(stores: seq<Store>, query: string): int {
    var id := StringToStoreId(stores, query);
    if id >= 0 then id else -1
  }

  /**
   * `stringToStoreId` finds the id of the store whose display text alone is
   * `str`, and gives -1 when no store or more than one store has it.
   */
  lemma StringToStoreIdSpec(stores: seq<Store>, str: string)
    ensures forall i | OnlyMatchAt(stores, StoreNamed(str), i) :: StringToStoreId(stores, str) == stores[i].id
    ensures (forall i | 0 <= i < |stores| :: !OnlyMatchAt(stores, StoreNamed(str), i)) ==>
              StringToStoreId(stores, str) == -1
  {
    UniqueIdSpec(stores, StoreNamed(str), StoreIdOf);
  }

  /**
   * After a query change the store id reported upward is -1 or the
   * non-negative id of the one store displayed as the query.
   */
  lemma StoreIdSentSpec(stores: seq<Store>, query: string)
    ensures StoreIdSent(stores, query) == -1 ||
            (StoreIdSent(stores, query) >= 0 &&
             exists i | 0 <= i < |stores| :: OnlyMatchAt(stores, StoreNamed(query), i) && stores[i].id == StoreIdSent(stores, query))
    ensures forall i | OnlyMatchAt(stores, StoreNamed(query), i) && stores[i].id >= 0 :: StoreIdSent(stores, query) == stores[i].id
  {
    StringToStoreIdSpec(stores, query);
    var p := StoreNamed(query);
    if |Filter(stores, p)| == 1 {
      var i := FilterSingletonIndex(stores, p);
      assert OnlyMatchAt(stores, p, i);
    }
  }

  /**
   * The receipt filter keeps, in order, exactly the receipts whose text
   * holds the trimmed query (case ignored); a blank query keeps them all.
   */
  lemma ReceiptFilterSpec(receipts: seq<Receipt>, query: string)
    ensures IsSubsequence(ReceiptFilter(receipts, query), receipts)
    ensures forall k | 0 <= k < |receipts| ::
              (receipts[k] in ReceiptFilter(receipts, query) <==> ContainsTrimmedQuery(ReceiptToString(receipts[k]), query))
    ensures forall r: Receipt :: multiset(ReceiptFilter(receipts, query))[r] ==
              if ContainsTrimmedQuery(ReceiptToString(r), query) then multiset(receipts)[r] else 0
    ensures IsBlank(query) ==> ReceiptFilter(receipts, query) == receipts
  {
    FilterIsSubsequence(receipts, ReceiptQuery(query));
    FilterKeepsMatching(receipts, ReceiptQuery(query));
    if IsBlank(query) {
      forall k | 0 <= k < |receipts| ensures ReceiptQuery(query)(receipts[k]) {
        BlankQueryMatchesAll(ReceiptToString(receipts[k]), query);
      }
      FilterKeepsAll(receipts, ReceiptQuery(query));
    }
    ReceiptFilterCounts(receipts, query);
  }

  lemma ReceiptFilterCounts(receipts: seq<Receipt>, query: string)
    ensures forall r: Receipt :: multiset(ReceiptFilter(receipts, query))[r] ==
              if ContainsTrimmedQuery(ReceiptToString(r), query) then multiset(receipts)[r] else 0
  {
    FilterCountsAll(receipts, ReceiptQuery(query));
  }

  /**
   * The chain filter keeps, in order, exactly the chains whose name holds
   * the trimmed query (case ignored); a blank query keeps them all, and a
   * chain's own name finds it.
   */
  lemma ChainFilterSpec(chains: seq<StoreChain>, query: string)
    ensures IsSubsequence(ChainFilter(chains, query), chains)
    ensures forall k | 0 <= k < |chains| ::
              (chains[k] in ChainFilter(chains, query) <==> ContainsTrimmedQuery(chains[k].name, query))
    ensures forall c: StoreChain :: multiset(ChainFilter(chains, query))[c] ==
              if ContainsTrimmedQuery(c.name, query) then multiset(chains)[c] else 0
    ensures IsBlank(query) ==> ChainFilter(chains, query) == chains
    ensures forall k | 0 <= k < |chains| :: chains[k] in ChainFilter(chains, chains[k].name)
  {
    FilterIsSubsequence(chains, ChainQuery(query));
    FilterKeepsMatching(chains, ChainQuery(query));
    if IsBlank(query) {
      forall k | 0 <= k < |chains| ensures ChainQuery(query)(chains[k]) {
        BlankQueryMatchesAll(chains[k].name, query);
      }
      FilterKeepsAll(chains, ChainQuery(query));
    }
    forall k | 0 <= k < |chains| ensures chains[k] in ChainFilter(chains, chains[k].name) {
      ContainsTrimmedSelf(chains[k].name);
      FilterKeepsMatching(chains, ChainQuery(chains[k].name));
    }
    ChainFilterCounts(chains, query);
  }

  lemma ChainFilterSubsequence(chains: seq<StoreChain>, query: string)
    ensures IsSubsequence(ChainFilter(chains, query), chains)
  {
    FilterIsSubsequence(chains, ChainQuery(query));
  }

  lemma ChainFilterCounts(chains: seq<StoreChain>, query: string)
    ensures forall c: StoreChain :: multiset(ChainFilter(chains, query))[c] ==
              if ContainsTrimmedQuery(c.name, query) then multiset(chains)[c] else 0
  {
    FilterCountsAll(chains, ChainQuery(query));
  }

  /**
   * The store filter keeps, in order, exactly the stores whose display text
   * holds the trimmed query (case ignored); a blank query keeps them all,
   * and a store's own display text finds it.
   */
  lemma StoreFilterSpec(stores: seq<Store>, query: string)
    ensures IsSubsequence(StoreFilter(stores, query), stores)
    ensures forall k | 0 <= k < |stores| ::
              (stores[k] in StoreFilter(stores, query) <==> ContainsTrimmedQuery(StoreToString(stores[k]), query))
    ensures forall s: Store :: multiset(StoreFilter(stores, query))[s] ==
              if ContainsTrimmedQuery(StoreToString(s), query) then multiset(stores)[s] else 0
    ensures IsBlank(query) ==> StoreFilter(stores, query) == stores
    ensures forall k | 0 <= k < |stores| :: stores[k] in StoreFilter(stores, StoreToString(stores[k]))
  {
    FilterIsSubsequence(stores, StoreQuery(query));
    FilterKeepsMatching(stores, StoreQuery(query));
    if IsBlank(query) {
      forall k | 0 <= k < |stores| ensures StoreQuery(query)(stores[k]) {
        BlankQueryMatchesAll(StoreToString(stores[k]), query);
      }
      FilterKeepsAll(stores, StoreQuery(query));
    }
    forall k | 0 <= k < |stores| ensures stores[k] in StoreFilter(stores, StoreToString(stores[k])) {
      ContainsTrimmedSelf(StoreToString(stores[k]));
      FilterKeepsMatching(stores, StoreQuery(StoreToString(stores[k])));
    }
    StoreFilterCounts(stores, query);
  }

  lemma StoreFilterSubsequence(stores: seq<Store>, query: string)
    ensures IsSubsequence(StoreFilter(stores, query), stores)
  {
    FilterIsSubsequence(stores, StoreQuery(query));
  }

  lemma StoreFilterCounts(stores: seq<Store>, query: string)
    ensures forall s: Store :: multiset(StoreFilter(stores, query))[s] ==
              if ContainsTrimmedQuery(StoreToString(s), query) then multiset(stores)[s] else 0
  {
    FilterCountsAll(stores, StoreQuery(query));
  }

  // ---------------------------------------------------------------------------
  // Result buttons
  // ---------------------------------------------------------------------------

  const ButtonPrefix := "button-"

  /** The HTML id of the result button of the entry with id `id`. */
  function ButtonId(id: int): string {
    ButtonPrefix + IntToString(id)
  }

  /** `parseInt(elementId.slice("button-".length))`; `None` is `NaN`. */
  function DecodeButtonId(elementId: string): Option<int> {
    ParseInt(Slice(elementId, |ButtonPrefix|))
  }

  /** Decoding the id of a pressed button gives back the entry's id. */
  lemma DecodeButtonIdRoundTrip(id: int)
    ensures DecodeButtonId(ButtonId(id)) == Some(id)
  {
    var b := ButtonId(id);
    assert b[..|ButtonPrefix|] == ButtonPrefix;
    assert Slice(b, |ButtonPrefix|) == IntToString(id);
    ParseIntOfIntToString(id);
  }

  // ---------------------------------------------------------------------------
  // The inputs
  // ---------------------------------------------------------------------------

  /** The store-chain autocomplete of the create-receipt popup. */
  class StoreChainInput {
    /** The chains of the latest `/chains` response. */
    var allStoreChains: seq<StoreChain>
    var query: string
    var results: seq<StoreChain>
    /** The argument of the latest `setChainId` call. */
    var chainIdSent: int

    ghost predicate Valid()
      reads this
    {
      IsSubsequence(results, allStoreChains)
    }

    /** Mounting: the query effect runs once on the empty query and reports -1. */
    constructor ()
      ensures Valid()
      ensures allStoreChains == [] && query == "" && results == [] && chainIdSent == -1
    {
      allStoreChains := [];
      query := "";
      results := [];
      chainIdSent := -1;
    }

    /** The `/chains` response: every chain is listed; the query and the id are untouched. */
    method Loaded(chains: seq<StoreChain>)
      modifies this`allStoreChains, this`results
      ensures Valid()
      ensures allStoreChains == chains && results == chains
    {
      allStoreChains := chains;
      results := chains;
      SubsequenceReflexive(chains);
    }

    /** The `[query]` effect: filter the list and report the looked-up id. */
    method QueryChanged()
      modifies this`results, this`chainIdSent
      ensures Valid()
      ensures results == ChainFilter(allStoreChains, query) && chainIdSent == ChainIdSent(allStoreChains, query)
    {
      ChainFilterSubsequence(allStoreChains, query);
      results := ChainFilter(allStoreChains, query);
      chainIdSent := ChainIdSent(allStoreChains, query);
    }

    /** Typing: a new value re-runs the query effect; the same value changes nothing. */
    method Type(value: string)
      requires Valid()
      modifies this`query, this`results, this`chainIdSent
      ensures Valid() && query == value
      ensures value != old(query) ==>
                results == ChainFilter(allStoreChains, value) && chainIdSent == ChainIdSent(allStoreChains, value)
      ensures value == old(query) ==> results == old(results) && chainIdSent == old(chainIdSent)
    {
      if value != query {
        query := value;
        QueryChanged();
      }
    }

    /**
     * `handlePress` on a listed chain: the decoded button id is reported and
     * the query becomes the chain's name. When that changes the query, the
     * query effect then replaces both the results and the reported id.
     */
    method Press(chain: StoreChain)
      requires Valid() && chain in results
      modifies this`query, this`results, this`chainIdSent
      ensures Valid() && query == chain.name
      ensures chain.name == old(query) ==> results == [] && chainIdSent == chain.id
      ensures chain.name != old(query) ==>
                results == ChainFilter(allStoreChains, chain.name)
                && chainIdSent == ChainIdSent(allStoreChains, chain.name)
    {
      DecodeButtonIdRoundTrip(chain.id);
      var decoded := DecodeButtonId(ButtonId(chain.id));
      chainIdSent := decoded.value;
      var changed := chain.name != query;
      query := chain.name;
      results := [];
      if changed {
        QueryChanged();
      }
    }
  }

  /** `chainId && chainId >= 0`: a defined, non-zero, non-negative chain id starts a store fetch. */
  predicate StartsStoreFetch(chainId: Option<int>) {
    chainId.Some? && chainId.value != 0 && chainId.value >= 0
  }

  /** The store-location autocomplete; `chainId` is the popup's chain id, passed down as a prop. */
  class LocationInput {
    var chainId: Option<int>
    /** The stores of the latest `/chains/{id}/stores` response. */
    var allStores: seq<Store>
    var query: string
    var results: seq<Store>
    /** The argument of the latest `setStoreId` call. */
    var storeIdSent: int
    /** The chain ids whose stores were requested, oldest first. */
    var fetches: seq<int>

    ghost predicate Valid()
      reads this
    {
      IsSubsequence(results, allStores)
    }

    /** Mounting: the chainId effect (a fetch or an empty list), then the query effect, which reports -1. */
    constructor (chainId0: Option<int>)
      ensures Valid()
      ensures chainId == chainId0 && allStores == [] && query == "" && results == [] && storeIdSent == -1
      ensures fetches == if StartsStoreFetch(chainId0) then [chainId0.value] else []
    {
      chainId := chainId0;
      allStores := [];
      query := "";
      results := [];
      storeIdSent := -1;
      fetches := if StartsStoreFetch(chainId0) then [chainId0.value] else [];
    }

    /**
     * The `[chainId]` effect: a usable id starts a fetch; undefined, 0 or a
     * negative id clears the results and fetches nothing. The stores already
     * loaded are kept.
     */
    method ChainIdChanged(newChainId: Option<int>)
      requires Valid()
      modifies this`chainId, this`results, this`fetches
      ensures Valid() && chainId == newChainId
      ensures newChainId == old(chainId) ==> results == old(results) && fetches == old(fetches)
      ensures newChainId != old(chainId) && StartsStoreFetch(newChainId) ==>
                results == old(results) && fetches == old(fetches) + [newChainId.value]
      ensures newChainId != old(chainId) && !StartsStoreFetch(newChainId) ==>
                results == [] && fetches == old(fetches)
    {
      if newChainId != chainId {
        chainId := newChainId;
        if StartsStoreFetch(chainId) {
          fetches := fetches + [chainId.value];
        } else {
          results := [];
        }
      }
    }

    /** A stores response: every store is listed; the query and the id are untouched. */
    method Loaded(stores: seq<Store>)
      modifies this`allStores, this`results
      ensures Valid()
      ensures allStores == stores && results == stores
    {
      allStores := stores;
      results := stores;
      SubsequenceReflexive(stores);
    }

    /** The `[query]` effect: filter the list and report the looked-up id. */
    method QueryChanged()
      modifies this`results, this`storeIdSent
      ensures Valid()
      ensures results == StoreFilter(allStores, query) && storeIdSent == StoreIdSent(allStores, query)
    {
      StoreFilterSubsequence(allStores, query);
      results := StoreFilter(allStores, query);
      storeIdSent := StoreIdSent(allStores, query);
    }

    method Type(value: string)
      requires Valid()
      modifies this`query, this`results, this`storeIdSent
      ensures Valid() && query == value
      ensures value != old(query) ==>
                results == StoreFilter(allStores, value) && storeIdSent == StoreIdSent(allStores, value)
      ensures value == old(query) ==> results == old(results) && storeIdSent == old(storeIdSent)
    {
      if value != query {
        query := value;
        QueryChanged();
      }
    }

    /** `handlePress` on a listed store: as for chains, with the store's display text as the new query. */
    method Press(store: Store)
      requires Valid() && store in results
      modifies this`query, this`results, this`storeIdSent
      ensures Valid() && query == StoreToString(store)
      ensures StoreToString(store) == old(query) ==> results == [] && storeIdSent == store.id
      ensures StoreToString(store) != old(query) ==>
                results == StoreFilter(allStores, StoreToString(store))
                && storeIdSent == StoreIdSent(allStores, StoreToString(store))
    {
      DecodeButtonIdRoundTrip(store.id);
      var decoded := DecodeButtonId(ButtonId(store.id));
      storeIdSent := decoded.value;
      var text := StoreToString(store);
      var changed := text != query;
      query := text;
      results := [];
      if changed {
        QueryChanged();
      }
    }
  }

  /**
   * A listed store pressed while its display text is not yet the query is
   * reported by its own id exactly when no other store shares that text
   * (and its id is not negative).
   */
  lemma PressedStoreReported(stores: seq<Store>, k: nat)
    requires k < |stores| && stores[k].id >= 0
    requires forall j | 0 <= j < |stores| && j != k :: StoreToString(stores[j]) != StoreToString(stores[k])
    ensures StoreIdSent(stores, StoreToString(stores[k])) == stores[k].id
  {
    assert OnlyMatchAt(stores, StoreNamed(StoreToString(stores[k])), k);
    StoreIdSentSpec(stores, StoreToString(stores[k]));
  }

  // ---------------------------------------------------------------------------
  // The popup
  // ---------------------------------------------------------------------------

  /** The body of a `POST /receipts`; an id the inputs never reported is `undefined`. */
  datatype ReceiptRequest = ReceiptRequest(chainId: Option<int>, storeId: Option<int>, date: string)

  /** The guard of `submitCreateReceipt`: an id of -1 or an empty date. An undefined id passes. */
  predicate SubmitRejected(chainId: Option<int>, storeId: Option<int>, date: string) {
    chainId == Some(-1) || storeId == Some(-1) || |date| == 0
  }

  /**
   * A chain query that no chain's trimmed name alone matches makes the
   * popup refuse to submit, whatever the store and the date.
   */
  lemma UnmatchedChainRejected(chains: seq<StoreChain>, query: string, storeId: Option<int>, date: string)
    requires forall i | 0 <= i < |chains| :: !OnlyMatchAt(chains, ChainNamed(query), i)
    ensures SubmitRejected(Some(ChainIdSent(chains, query)), storeId, date)
  {
    StringToChainIdSpec(chains, query);
  }

  /** The same for the store query. */
  lemma UnmatchedStoreRejected(stores: seq<Store>, query: string, chainId: Option<int>, date: string)
    requires forall i | 0 <= i < |stores| :: !OnlyMatchAt(stores, StoreNamed(query), i)
    ensures SubmitRejected(chainId, Some(StoreIdSent(stores, query)), date)
  {
    StringToStoreIdSpec(stores, query);
  }

  class CreateReceiptForm {
    var displayed: bool
    var chainId: Option<int>
    var storeId: Option<int>
    /** The requests posted to `/receipts`, oldest first. */
    var requests: seq<ReceiptRequest>

    constructor (displayed0: bool)
      ensures displayed == displayed0 && chainId == None && storeId == None && requests == []
    {
      displayed := displayed0;
      chainId := None;
      storeId := None;
      requests := [];
    }

    /** `setChainId`, called by the chain input. */
    method SetChainId(id: int)
      modifies this`chainId
      ensures chainId == Some(id)
    {
      chainId := Some(id);
    }

    /** `setStoreId`, called by the location input. */
    method SetStoreId(id: int)
      modifies this`storeId
      ensures storeId == Some(id)
    {
      storeId := Some(id);
    }

    /** The close button. */
    method Close()
      modifies this`displayed
      ensures !displayed
    {
      displayed := false;
    }

    /**
     * The Create Receipt button (rendered only while the popup is shown),
     * with `date` the text of the date field and `succeeded` whether the
     * POST resolves. A rejected form posts nothing and stays open; an
     * accepted one posts exactly one request and closes when it succeeds.
     */
    method Submit(date: string, succeeded: bool)
      modifies this`requests, this`displayed
      ensures !old(displayed) || SubmitRejected(chainId, storeId, date) ==>
                requests == old(requests) && displayed == old(displayed)
      ensures old(displayed) && !SubmitRejected(chainId, storeId, date) ==>
                requests == old(requests) + [ReceiptRequest(chainId, storeId, date)] && displayed == !succeeded
    {
      if displayed {
        if !SubmitRejected(chainId, storeId, date) {
          requests := requests + [ReceiptRequest(chainId, storeId, date)];
          if succeeded {
            displayed := false;
          }
        }
      }
    }
  }
}
