/**
 * The demonstration page of the searchable list: five chains whose search
 * text is `name: ID id`, and the removal by id it would run on delete.
 */
module SearchListDemo {
  import opened Seqs
  import opened Strings
  import opened Searchable

  /** A demo chain before its search text is added. */
  datatype DemoChain = DemoChain(id: int, name: string)

  function DemoRecords(): seq<DemoChain> {
    [
      DemoChain(1, "Market Basket"),
      DemoChain(2, "BJs"),
      DemoChain(3, "Stop & Shop"),
      DemoChain(4, "Price Chopper"),
      DemoChain(5, "Dunkin Donuts")
    ]
  }

  /** The search text of a demo chain: its name, `": ID "` and its id in decimal. */
  function DemoContent(c: DemoChain): string {
    c.name + ": ID " + IntToString(c.id)
  }

  function DemoItems(records: seq<DemoChain>): seq<SearchItem<DemoChain>> {
    seq(|records|, k requires 0 <= k < |records| => SearchItem(Num(records[k].id), DemoContent(records[k]), records[k]))
  }

  /**
   * The mapping keeps the order, the ids and the records; each item's text
   * starts with the chain's name, and the id read back from after `": ID "`
   * is the chain's id.
   */
  lemma DemoItemsSpec(records: seq<DemoChain>)
    ensures |DemoItems(records)| == |records|
    ensures forall k | 0 <= k < |records| ::
              DemoItems(records)[k].id == Num(records[k].id) && DemoItems(records)[k].data == records[k]
    ensures forall k | 0 <= k < |records| ::
              var content := DemoItems(records)[k].content;
              |content| > |records[k].name| + 5
              && content[..|records[k].name|] == records[k].name
              && ParseInt(content[|records[k].name| + 5..]) == Some(records[k].id)
  {
    var items := DemoItems(records);
    forall k | 0 <= k < |records|
      ensures |items[k].content| > |records[k].name| + 5
      ensures items[k].content[..|records[k].name|] == records[k].name
      ensures ParseInt(items[k].content[|records[k].name| + 5..]) == Some(records[k].id)
    {
      DemoContentReadsBack(records[k]);
    }
  }

  /** A demo chain's text holds its name and then its id, which reads back as the id. */
  lemma DemoContentReadsBack(c: DemoChain)
    ensures |DemoContent(c)| > |c.name| + 5
    ensures DemoContent(c)[..|c.name|] == c.name
    ensures ParseInt(DemoContent(c)[|c.name| + 5..]) == Some(c.id)
  {
    var digits := IntToString(c.id);
    assert DemoContent(c) == c.name + ": ID " + digits;
    assert DemoContent(c)[|c.name| + 5..] == digits;
    ParseIntOfIntToString(c.id);
  }

  /** A demo chain's text is found both by the chain's name and by its id written in decimal. */
  lemma DemoContentFound(c: DemoChain)
    ensures ContainsIgnoringCase(DemoContent(c), c.name)
    ensures ContainsIgnoringCase(DemoContent(c), IntToString(c.id))
  {
    ContainsSelf(Lower(c.name));
    ContainsIgnoringCaseInConcat(c.name, ": ID ", c.name);
    ContainsIgnoringCaseInConcat(c.name + ": ID ", IntToString(c.id), c.name);
    ContainsSelf(Lower(IntToString(c.id)));
    ContainsIgnoringCaseInConcat(c.name + ": ID ", IntToString(c.id), IntToString(c.id));
  }

  /** Searching the demo list by a chain's name, or by its id, keeps that chain's item. */
  lemma DemoItemsFound(records: seq<DemoChain>)
    ensures forall k | 0 <= k < |records| ::
              DemoItems(records)[k] in SearchMatches(DemoItems(records), records[k].name)
              && DemoItems(records)[k] in SearchMatches(DemoItems(records), IntToString(records[k].id))
  {
    var items := DemoItems(records);
    forall k | 0 <= k < |records|
      ensures items[k] in SearchMatches(items, records[k].name)
      ensures items[k] in SearchMatches(items, IntToString(records[k].id))
    {
      DemoContentFound(records[k]);
      SearchKeepsMatching(items, records[k].name);
      SearchKeepsMatching(items, IntToString(records[k].id));
      assert Matches(items[k], records[k].name) && Matches(items[k], IntToString(records[k].id));
    }
  }

  function IdIsNot<T>(id: Key): SearchItem<T> -> bool {
    (item: SearchItem<T>) => item.id != id
  }

  /** `handleDelete`'s update: `items.filter(item => item.id !== selection.id)`. */
  function DeleteById<T>(items: seq<SearchItem<T>>, selection: SearchItem<T>): seq<SearchItem<T>> {
    Filter(items, IdIsNot(selection.id))
  }

  /**
   * Deleting removes every item with the selection's id and keeps every
   * other item, as often as before and in order.
   */
  lemma DeleteByIdSpec<T>(items: seq<SearchItem<T>>, selection: SearchItem<T>)
    ensures IsSubsequence(DeleteById(items, selection), items)
    ensures forall k | 0 <= k < |DeleteById(items, selection)| :: DeleteById(items, selection)[k].id != selection.id
    ensures forall it: SearchItem<T> | it.id != selection.id ::
              multiset(DeleteById(items, selection))[it] == multiset(items)[it]
  {
    FilterIsSubsequence(items, IdIsNot(selection.id));
    forall it: SearchItem<T> | it.id != selection.id
      ensures multiset(DeleteById(items, selection))[it] == multiset(items)[it]
    {
      FilterCounts(items, IdIsNot(selection.id), it);
    }
  }

  /** With distinct ids, deleting the item at `k` cuts out exactly that item. */
  lemma DeleteDistinct<T>(items: seq<SearchItem<T>>, k: nat)
    requires DistinctIds(items) && k < |items|
    ensures DeleteById(items, items[k]) == items[..k] + items[k + 1..]
    ensures |DeleteById(items, items[k])| == |items| - 1
  {
    FilterRemovesOne(items, IdIsNot(items[k].id), k);
  }

  /** The demo ids are distinct, so a delete on the demo list shortens it by exactly one. */
  lemma DemoDeleteShortensByOne(k: nat)
    requires k < |DemoRecords()|
    ensures |DeleteById(DemoItems(DemoRecords()), DemoItems(DemoRecords())[k])| == |DemoRecords()| - 1
  {
    var items := DemoItems(DemoRecords());
    assert DistinctIds(items) by {
      forall i, j | 0 <= i < j < |items| ensures items[i].id != items[j].id {
        assert items[i].id == Num(i + 1) && items[j].id == Num(j + 1);
      }
    }
    DeleteDistinct(items, k);
  }
}
