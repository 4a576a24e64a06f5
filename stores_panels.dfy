/**
 * The two panels of the stores page: the chain list with its search box and
 * add-chain popup, and the store list of the expanded chain.
 */
module StoresPanels {
  import opened Seqs
  import opened Strings
  import opened Addresses
  import opened StoresPage
  import Receipts

  // ---------------------------------------------------------------------------
  // The chain panel
  // ---------------------------------------------------------------------------

  function ChainNameQuery(query: string): Chain -> bool {
    (c: Chain) => ContainsTrimmedQuery(c.name, query)
  }

  /** `filteredChains`. */
  function FilteredChains(chains: seq<Chain>, chainQuery: string): seq<Chain> {
    Filter(chains, ChainNameQuery(chainQuery))
  }

  /**
   * The chains listed are, in order, exactly those whose name holds the
   * trimmed query (case ignored); a blank query lists every chain.
   */
  lemma FilteredChainsSpec(chains: seq<Chain>, chainQuery: string)
    ensures IsSubsequence(FilteredChains(chains, chainQuery), chains)
    ensures forall k | 0 <= k < |chains| ::
              chains[k] in FilteredChains(chains, chainQuery) <==> ContainsTrimmedQuery(chains[k].name, chainQuery)
    ensures forall c: Chain :: multiset(FilteredChains(chains, chainQuery))[c] ==
              if ContainsTrimmedQuery(c.name, chainQuery) then multiset(chains)[c] else 0
    ensures IsBlank(chainQuery) ==> FilteredChains(chains, chainQuery) == chains
  {
    FilterIsSubsequence(chains, ChainNameQuery(chainQuery));
    FilterKeepsMatching(chains, ChainNameQuery(chainQuery));
    if IsBlank(chainQuery) {
      forall k | 0 <= k < |chains| ensures ChainNameQuery(chainQuery)(chains[k]) {
        BlankQueryMatchesAll(chains[k].name, chainQuery);
      }
      FilterKeepsAll(chains, ChainNameQuery(chainQuery));
    }
    FilteredChainsCounts(chains, chainQuery);
  }

  lemma FilteredChainsCounts(chains: seq<Chain>, chainQuery: string)
    ensures forall c: Chain :: multiset(FilteredChains(chains, chainQuery))[c] ==
              if ContainsTrimmedQuery(c.name, chainQuery) then multiset(chains)[c] else 0
  {
    FilterCountsAll(chains, ChainNameQuery(chainQuery));
  }

  /** A click on a chain's row: the expanded chain is collapsed, any other chain becomes the expanded one. */
  function ToggleExpanded(expanded: Option<int>, chainId: int): (r: Option<int>)
    ensures r == Some(chainId) <==> expanded != Some(chainId)
    ensures r != Some(chainId) ==> r == None
  {
    if expanded == Some(chainId) then None else Some(chainId)
  }

  /** Clicking the same row twice from a collapsed list (or from that row) comes back to the start. */
  lemma ToggleTwice(expanded: Option<int>, chainId: int)
    requires expanded == None || expanded == Some(chainId)
    ensures ToggleExpanded(ToggleExpanded(expanded, chainId), chainId) == expanded
  {
  }

  /** The chain list's search box and add-chain popup; `added` records the `onAddChain` calls. */
  class ChainsPanel {
    var chainQuery: string
    var showAddChain: bool
    var newChainName: string
    var added: seq<string>

    /** Every name handed to `onAddChain` is non-empty and already trimmed. */
    ghost predicate Valid()
      reads this
    {
      forall k | 0 <= k < |added| :: added[k] != "" && Trim(added[k]) == added[k]
    }

    constructor ()
      ensures Valid()
      ensures chainQuery == "" && !showAddChain && newChainName == "" && added == []
    {
      chainQuery := "";
      showAddChain := false;
      newChainName := "";
      added := [];
    }

    method TypeQuery(value: string)
      modifies this`chainQuery
      ensures chainQuery == value
    {
      chainQuery := value;
    }

    method OpenAddChain()
      modifies this`showAddChain
      ensures showAddChain
    {
      showAddChain := true;
    }

    /** Typing a new chain name; the field exists only while the popup is open. */
    method TypeNewName(value: string)
      modifies this`newChainName
      ensures newChainName == if old(showAddChain) then value else old(newChainName)
    {
      if showAddChain {
        newChainName := value;
      }
    }

    /** The Add button is disabled while the trimmed name is empty. */
    predicate AddDisabled()
      reads this
    {
      Trim(newChainName) == ""
    }

    /**
     * The Add button: where it is shown and enabled, the trimmed name is
     * handed to `onAddChain`, the popup closes and the name is cleared.
     */
    method PressAdd()
      requires Valid()
      modifies this`added, this`showAddChain, this`newChainName
      ensures Valid()
      ensures old(showAddChain) && !old(AddDisabled()) ==>
                added == old(added) + [Trim(old(newChainName))] && !showAddChain && newChainName == ""
      ensures !old(showAddChain) || old(AddDisabled()) ==>
                added == old(added) && showAddChain == old(showAddChain) && newChainName == old(newChainName)
    {
      if showAddChain && !AddDisabled() {
        if newChainName != "" && Trim(newChainName) != "" {
          TrimIdempotent(newChainName);
          added := added + [Trim(newChainName)];
        }
        showAddChain := false;
        newChainName := "";
      }
    }

    method PressClose()
      modifies this`showAddChain, this`newChainName
      ensures old(showAddChain) ==> !showAddChain && newChainName == ""
      ensures !old(showAddChain) ==> showAddChain == old(showAddChain) && newChainName == old(newChainName)
    {
      if showAddChain {
        showAddChain := false;
        newChainName := "";
      }
    }
  }

  /**
   * A name the panel hands over is added as it is: the page appends a chain
   * with exactly that name.
   */
  lemma PanelNameAddedVerbatim(chains: seq<Chain>, name: string)
    requires name != "" && Trim(name) == name
    ensures AddChain(chains, name) == chains + [Chain(NextId(chains), name, [])]
  {
  }

  // ---------------------------------------------------------------------------
  // The store panel
  // ---------------------------------------------------------------------------

  /** `getStoreAddress`: `"houseNumber street, city, state postCode, country"`. */
  function GetStoreAddress(s: Store): string {
    var a := s.address;
    a.houseNumber + " " + a.street + ", " + a.city + ", " + a.state + " " + a.postCode + ", " + a.country
  }

  /** The store panel's address is the receipt popup's store text followed by the country. */
  lemma GetStoreAddressExtendsStoreText(s: Store)
    ensures GetStoreAddress(s) == Receipts.StoreToString(s) + ", " + s.address.country
  {
  }

  function StoreAddressQuery(query: string): Store -> bool {
    (s: Store) => ContainsTrimmedQuery(GetStoreAddress(s), query)
  }

  /** `filteredStores`. */
  function FilteredStores(stores: seq<Store>, storeQuery: string): seq<Store> {
    Filter(stores, StoreAddressQuery(storeQuery))
  }

  /**
   * The stores listed are, in order, exactly those whose full address holds
   * the trimmed query (case ignored); a store the receipt popup would find
   * by the same query is listed, and so is a store whose country holds it.
   */
  lemma FilteredStoresSpec(stores: seq<Store>, storeQuery: string)
    ensures IsSubsequence(FilteredStores(stores, storeQuery), stores)
    ensures forall k | 0 <= k < |stores| ::
              stores[k] in FilteredStores(stores, storeQuery) <==> ContainsTrimmedQuery(GetStoreAddress(stores[k]), storeQuery)
    ensures forall s: Store :: multiset(FilteredStores(stores, storeQuery))[s] ==
              if ContainsTrimmedQuery(GetStoreAddress(s), storeQuery) then multiset(stores)[s] else 0
    ensures forall k | 0 <= k < |stores| ::
              ContainsTrimmedQuery(Receipts.StoreToString(stores[k]), storeQuery)
              || ContainsTrimmedQuery(stores[k].address.country, storeQuery)
              ==> stores[k] in FilteredStores(stores, storeQuery)
  {
    FilterIsSubsequence(stores, StoreAddressQuery(storeQuery));
    FilterKeepsMatching(stores, StoreAddressQuery(storeQuery));
    forall k | 0 <= k < |stores| &&
               (ContainsTrimmedQuery(Receipts.StoreToString(stores[k]), storeQuery)
                || ContainsTrimmedQuery(stores[k].address.country, storeQuery))
      ensures stores[k] in FilteredStores(stores, storeQuery)
    {
      var s := stores[k];
      GetStoreAddressExtendsStoreText(s);
      if ContainsTrimmedQuery(Receipts.StoreToString(s), storeQuery) {
        ContainsTrimmedInConcat(Receipts.StoreToString(s), ", ", storeQuery);
      }
      ContainsTrimmedInConcat(Receipts.StoreToString(s) + ", ", s.address.country, storeQuery);
    }
    FilteredStoresCounts(stores, storeQuery);
  }

  lemma FilteredStoresCounts(stores: seq<Store>, storeQuery: string)
    ensures forall s: Store :: multiset(FilteredStores(stores, storeQuery))[s] ==
              if ContainsTrimmedQuery(GetStoreAddress(s), storeQuery) then multiset(stores)[s] else 0
  {
    FilterCountsAll(stores, StoreAddressQuery(storeQuery));
  }

  /** `chains.find(c => c.id === id)`: the first chain with the id, if any. */
  function FindChain(chains: seq<Chain>, id: int): (r: Option<Chain>)
    ensures r.None? <==> forall k | 0 <= k < |chains| :: chains[k].id != id
    ensures r.Some? ==> exists k | 0 <= k < |chains| :: chains[k] == r.value && r.value.id == id
                          && forall j | 0 <= j < k :: chains[j].id != id
  {
    if chains == [] then None
    else if chains[0].id == id then Some(chains[0])
    else
      var r := FindChain(chains[1..], id);
      assert forall k | 1 <= k < |chains| :: chains[k] == chains[1..][k - 1];
      r
  }

  /** What the store panel shows: the expanded chain's name and the addresses of the listed stores. */
  datatype PanelView = PanelView(title: string, addresses: seq<string>)

  function AddressLines(stores: seq<Store>): seq<string> {
    seq(|stores|, k requires 0 <= k < |stores| => GetStoreAddress(stores[k]))
  }

  /** The store panel's render: nothing without an expanded chain or when no chain has the expanded id. */
  function StoresPanelView(chains: seq<Chain>, expanded: Option<int>, stores: seq<Store>, storeQuery: string): Option<PanelView> {
    if expanded.None? then None
    else
      match FindChain(chains, expanded.value)
      case None => None
      case Some(chain) => Some(PanelView(chain.name, AddressLines(FilteredStores(stores, storeQuery))))
  }

  /**
   * The panel renders exactly when a chain is expanded and some chain has
   * that id; it is then titled with the first such chain's name and lists
   * the full address of each filtered store, in order.
   */
  lemma StoresPanelViewSpec(chains: seq<Chain>, expanded: Option<int>, stores: seq<Store>, storeQuery: string)
    ensures StoresPanelView(chains, expanded, stores, storeQuery).Some? <==>
              expanded.Some? && exists k | 0 <= k < |chains| :: chains[k].id == expanded.value
    ensures StoresPanelView(chains, expanded, stores, storeQuery).Some? ==>
              var v := StoresPanelView(chains, expanded, stores, storeQuery).value;
              (exists k | 0 <= k < |chains| :: chains[k].id == expanded.value && v.title == chains[k].name
                 && forall j | 0 <= j < k :: chains[j].id != expanded.value)
              && |v.addresses| == |FilteredStores(stores, storeQuery)|
              && forall i | 0 <= i < |v.addresses| :: v.addresses[i] == GetStoreAddress(FilteredStores(stores, storeQuery)[i])
  {
    if expanded.Some? {
      var r := FindChain(chains, expanded.value);
      if r.Some? {
        var k :| 0 <= k < |chains| && chains[k] == r.value && r.value.id == expanded.value
                 && forall j | 0 <= j < k :: chains[j].id != expanded.value;
        assert chains[k].name == r.value.name;
      }
    }
  }
}
