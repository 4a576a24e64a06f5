/**
 * The stores page's own chain list and its two updates: adding a chain with
 * a fresh id, and adding a store name to one chain.
 */
module StoresPage {
  import opened Strings

  /** A chain as the page keeps it: an id, a name and the names of its stores. */
  datatype Chain = Chain(id: int, name: string, stores: seq<string>)

  function InitialChains(): seq<Chain> {
    [
      Chain(1, "FreshMart", ["Downtown", "Uptown", "Riverside"]),
      Chain(2, "QuickShop", ["Northside", "Airport"]),
      Chain(3, "CornerFoods", ["Main St", "Elm St", "Oak Ave"])
    ]
  }

  predicate DistinctIds(chains: seq<Chain>) {
    forall i, j | 0 <= i < j < |chains| :: chains[i].id != chains[j].id
  }

  /** `Math.max(...chains.map(c => c.id))`: an id of the list that no other id exceeds. */
  function MaxId(chains: seq<Chain>): (m: int)
    requires chains != []
    ensures forall k | 0 <= k < |chains| :: chains[k].id <= m
    ensures exists k | 0 <= k < |chains| :: chains[k].id == m
  {
    if |chains| == 1 then chains[0].id
    else
      var rest := MaxId(chains[1..]);
      assert forall k | 1 <= k < |chains| :: chains[k] == chains[1..][k - 1];
      if chains[0].id >= rest then chains[0].id else rest
  }

  /** The id `addChain` gives a new chain: one more than the largest id, or 1 for an empty list. */
  function NextId(chains: seq<Chain>): (id: int)
    ensures forall k | 0 <= k < |chains| :: chains[k].id < id
  {
    if |chains| > 0 then MaxId(chains) + 1 else 1
  }

  /** `addChain`: a blank name changes nothing; otherwise a new, empty chain with the trimmed name is appended. */
  function AddChain(chains: seq<Chain>, name: string): seq<Chain> {
    if name == "" || Trim(name) == "" then chains
    else chains + [Chain(NextId(chains), Trim(name), [])]
  }

  /**
   * A blank name leaves the list as it is; any other name appends exactly
   * one chain, with a fresh id, the trimmed name and no stores, and leaves
   * the earlier chains as they were, so distinct ids stay distinct.
   */
  lemma AddChainSpec(chains: seq<Chain>, name: string)
    ensures IsBlank(name) ==> AddChain(chains, name) == chains
    ensures !IsBlank(name) ==>
              |AddChain(chains, name)| == |chains| + 1
              && AddChain(chains, name)[..|chains|] == chains
              && AddChain(chains, name)[|chains|].name == Trim(name)
              && AddChain(chains, name)[|chains|].stores == []
              && (forall k | 0 <= k < |chains| :: chains[k].id != AddChain(chains, name)[|chains|].id)
              && Trim(AddChain(chains, name)[|chains|].name) == AddChain(chains, name)[|chains|].name
    ensures DistinctIds(chains) ==> DistinctIds(AddChain(chains, name))
  {
    var r := AddChain(chains, name);
    if !IsBlank(name) {
      TrimIdempotent(name);
      var c := Chain(NextId(chains), Trim(name), []);
      assert r == chains + [c];
      assert r[..|chains|] == chains && r[|chains|] == c;
      if DistinctIds(chains) {
        forall i, j | 0 <= i < j < |r| ensures r[i].id != r[j].id {
          assert r[i] == chains[i];
          if j < |chains| {
            assert r[j] == chains[j];
          }
        }
      }
    }
  }

  /** The page's first added chain gets id 4. */
  lemma FirstAddedChainId(name: string)
    requires !IsBlank(name)
    ensures AddChain(InitialChains(), name)[3] == Chain(4, Trim(name), [])
  {
    var m := MaxId(InitialChains());
    assert |InitialChains()| == 3;
    assert InitialChains()[0].id == 1 && InitialChains()[1].id == 2 && InitialChains()[2].id == 3;
    assert m == 3;
  }

  /**
   * `addStore`: a blank name changes nothing; otherwise each chain with the
   * id gets the trimmed name appended. The second emptiness check, on the
   * trimmed name trimmed again, is the first one again (`TrimIdempotent`).
   */
  function AddStore(chains: seq<Chain>, chainId: int, storeName: string): seq<Chain> {
    var name := Trim(storeName);
    if name == "" then chains
    else seq(|chains|, k requires 0 <= k < |chains| =>
               if chains[k].id == chainId then chains[k].(stores := chains[k].stores + [name]) else chains[k])
  }

  /**
   * Adding a store keeps the length, the order, every id and name; the
   * chains with the id gain exactly the trimmed store name at the end of
   * their stores, every other chain is unchanged; an unknown id or a blank
   * name leaves the whole list unchanged.
   */
  lemma AddStoreSpec(chains: seq<Chain>, chainId: int, storeName: string)
    ensures |AddStore(chains, chainId, storeName)| == |chains|
    ensures forall k | 0 <= k < |chains| ::
              AddStore(chains, chainId, storeName)[k].id == chains[k].id
              && AddStore(chains, chainId, storeName)[k].name == chains[k].name
    ensures forall k | 0 <= k < |chains| && chains[k].id != chainId :: AddStore(chains, chainId, storeName)[k] == chains[k]
    ensures !IsBlank(storeName) ==>
              forall k | 0 <= k < |chains| && chains[k].id == chainId ::
                AddStore(chains, chainId, storeName)[k].stores == chains[k].stores + [Trim(storeName)]
    ensures IsBlank(storeName) || (forall k | 0 <= k < |chains| :: chains[k].id != chainId) ==>
              AddStore(chains, chainId, storeName) == chains
    ensures DistinctIds(chains) ==> DistinctIds(AddStore(chains, chainId, storeName))
  {
    var r := AddStore(chains, chainId, storeName);
    if IsBlank(storeName) {
      assert r == chains;
    } else {
      assert |r| == |chains|;
      forall k | 0 <= k < |chains|
        ensures r[k].id == chains[k].id && r[k].name == chains[k].name
        ensures chains[k].id != chainId ==> r[k] == chains[k]
        ensures chains[k].id == chainId ==> r[k].stores == chains[k].stores + [Trim(storeName)]
      {
      }
      if forall k | 0 <= k < |chains| :: chains[k].id != chainId {
        assert r == chains;
      }
    }
  }

  /**
   * A store added under the id a new chain just got lands in that chain
   * alone: the new id is fresh, so no earlier chain shares it.
   */
  lemma AddStoreToNewChain(chains: seq<Chain>, name: string, storeName: string)
    requires !IsBlank(name) && !IsBlank(storeName)
    ensures AddStore(AddChain(chains, name), NextId(chains), storeName)
            == chains + [Chain(NextId(chains), Trim(name), [Trim(storeName)])]
  {
    var id := NextId(chains);
    var added := chains + [Chain(id, Trim(name), [])];
    assert AddChain(chains, name) == added;
    AddStoreSpec(added, id, storeName);
    var r := AddStore(added, id, storeName);
    var expected := chains + [Chain(id, Trim(name), [Trim(storeName)])];
    assert |r| == |expected|;
    forall k | 0 <= k < |r| ensures r[k] == expected[k] {
      if k < |chains| {
        assert added[k] == chains[k] && chains[k].id != id;
      } else {
        assert added[k].id == id && added[k].stores == [];
      }
    }
  }
}
