/**
 * The administrator's sales report table: one group of rows per chain, one
 * row per store, with the chain's name and total in cells that span the
 * whole group. Only the layout is modelled; amounts are kept as the text
 * the table shows.
 */
module AdminReport {
  import opened Seqs
  import opened Strings
  import opened Addresses
  import StoresPanels

  /** `addressToString`: `"houseNumber street, city, state postCode, country"`. */
  function AddressToString(a: Address): string {
    a.houseNumber + " " + a.street + ", " + a.city + ", " + a.state + " " + a.postCode + ", " + a.country
  }

  /** The report writes a store's address exactly as the store panel does. */
  lemma AddressToStringAgreesWithStorePanel(s: Store)
    ensures AddressToString(s.address) == StoresPanels.GetStoreAddress(s)
  {
  }

  /** One store's line of the report; `salesTotal` is the amount as displayed. */
  datatype StoreStats = StoreStats(storeId: int, address: Address, salesTotal: string)

  datatype ChainStats = ChainStats(chainId: int, chainName: string, salesByStore: seq<StoreStats>)

  /** A table cell spanning `rowSpan` rows. */
  datatype SpanCell = SpanCell(text: string, rowSpan: nat)

  /**
   * One `<tr>`: its key, the chain-name cell (first row only), the address,
   * the store total, and the span of the chain-total cell (first row only;
   * the total itself is not modelled).
   */
  datatype SalesRow = SalesRow(key: string, chainName: Option<SpanCell>, address: string, storeTotal: string,
                               chainTotalSpan: Option<nat>)

  /** The row key `${chainId}-${storeId}`. */
  function RowKey(chainId: int, storeId: int): string {
    IntToString(chainId) + "-" + IntToString(storeId)
  }

  /** The row for the `i`-th store of a chain. */
  function StoreRow(chain: ChainStats, i: nat): SalesRow
    requires i < |chain.salesByStore|
  {
    var n := |chain.salesByStore|;
    var store := chain.salesByStore[i];
    SalesRow(RowKey(chain.chainId, store.storeId),
             if i == 0 then Some(SpanCell(chain.chainName, n)) else None,
             AddressToString(store.address),
             store.salesTotal,
             if i == 0 then Some(n) else None)
  }

  /** What the `map` callback returns for a chain: nothing for a chain without stores, else its rows. */
  function ChainGroup(chain: ChainStats): Option<seq<SalesRow>> {
    var n := |chain.salesByStore|;
    if n == 0 then None
    else Some(seq(n, i requires 0 <= i < n => StoreRow(chain, i)))
  }

  /** The loop of the `map` callback, pushing one row per store. */
  method BuildChainRows(chain: ChainStats) returns (rows: Option<seq<SalesRow>>)
    ensures rows == ChainGroup(chain)
  {
    var stores := chain.salesByStore;
    var numStores := |stores|;
    if numStores == 0 {
      return None;
    }
    var storeRows: seq<SalesRow> := [];
    for i := 0 to numStores
      invariant |storeRows| == i
      invariant forall k | 0 <= k < i :: storeRows[k] == StoreRow(chain, k)
    {
      var store := stores[i];
      var chainNameRow := SpanCell(chain.chainName, numStores);
      var isFirstStore := i == 0;
      storeRows := storeRows + [SalesRow(RowKey(chain.chainId, store.storeId),
                                         if isFirstStore then Some(chainNameRow) else None,
                                         AddressToString(store.address),
                                         store.salesTotal,
                                         if isFirstStore then Some(numStores) else None)];
    }
    assert storeRows == ChainGroup(chain).value;
    rows := Some(storeRows);
  }

  /**
   * A chain with no stores contributes nothing; a chain with `n` stores
   * contributes `n` rows, one per store in store order, keyed by chain and
   * store id; the first row alone holds the chain-name and chain-total
   * cells, both spanning the `n` rows, so the spans cover the group exactly.
   */
  lemma ChainGroupSpec(chain: ChainStats)
    ensures ChainGroup(chain).None? <==> chain.salesByStore == []
    ensures ChainGroup(chain).Some? ==>
              var rows := ChainGroup(chain).value;
              var stores := chain.salesByStore;
              |rows| == |stores|
              && (forall i | 0 <= i < |rows| ::
                    rows[i].key == RowKey(chain.chainId, stores[i].storeId)
                    && rows[i].address == AddressToString(stores[i].address)
                    && rows[i].storeTotal == stores[i].salesTotal
                    && (rows[i].chainName.Some? <==> i == 0)
                    && (rows[i].chainTotalSpan.Some? <==> i == 0))
              && rows[0].chainName == Some(SpanCell(chain.chainName, |rows|))
              && rows[0].chainTotalSpan == Some(|rows|)
  {
  }

  /** Within one chain, stores with distinct ids get distinct row keys. */
  lemma RowKeysDistinct(chainId: int, storeId1: int, storeId2: int)
    requires storeId1 != storeId2
    ensures RowKey(chainId, storeId1) != RowKey(chainId, storeId2)
  {
    var prefix := IntToString(chainId) + "-";
    assert RowKey(chainId, storeId1) == prefix + IntToString(storeId1);
    assert RowKey(chainId, storeId2) == prefix + IntToString(storeId2);
    assert (prefix + IntToString(storeId1))[|prefix|..] == IntToString(storeId1);
    assert (prefix + IntToString(storeId2))[|prefix|..] == IntToString(storeId2);
    ParseIntOfIntToString(storeId1);
    ParseIntOfIntToString(storeId2);
  }

  /** The `map` over the report: one entry per chain, in report order. */
  function Groups(report: seq<ChainStats>): seq<Option<seq<SalesRow>>> {
    seq(|report|, k requires 0 <= k < |report| => ChainGroup(report[k]))
  }

  /** The table body: the groups' rows one after the other; an absent group renders nothing. */
  function Rendered(groups: seq<Option<seq<SalesRow>>>): seq<SalesRow> {
    if groups == [] then []
    else (if groups[0].Some? then groups[0].value else []) + Rendered(groups[1..])
  }

  function IsGroup(g: Option<seq<SalesRow>>): bool {
    g.Some?
  }

  /**
   * Dropping the absent groups, which is what the discarded `filter` would
   * have done, renders the same table body.
   */
  lemma {:induction false} RenderedIgnoresFilter(groups: seq<Option<seq<SalesRow>>>)
    ensures Rendered(Filter(groups, IsGroup)) == Rendered(groups)
  {
    if groups != [] {
      var rest := groups[1..];
      RenderedIgnoresFilter(rest);
      var kept := Filter(rest, IsGroup);
      if IsGroup(groups[0]) {
        var f := [groups[0]] + kept;
        assert Filter(groups, IsGroup) == f;
        assert f[0] == groups[0] && f[1..] == kept;
        assert Rendered(f) == groups[0].value + Rendered(kept);
      } else {
        assert Filter(groups, IsGroup) == kept;
        assert Rendered(groups) == Rendered(rest);
      }
    }
  }

  function TotalStores(report: seq<ChainStats>): nat {
    if report == [] then 0 else |report[0].salesByStore| + TotalStores(report[1..])
  }

  /** The table has exactly one row per store of the report, whatever chains have no stores. */
  lemma {:induction false} ReportRowCount(report: seq<ChainStats>)
    ensures |Rendered(Groups(report))| == TotalStores(report)
  {
    if report != [] {
      assert Groups(report)[1..] == Groups(report[1..]);
      ReportRowCount(report[1..]);
    }
  }
}
