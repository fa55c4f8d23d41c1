/** The item selector `pick_top_items` (market_digest.py:58-60): the slice
    `items[:max_n]`, so the first `max_n` items in their existing order, not a ranking. */
module Selection {
  import opened PyText
  import opened FeedItems
  import opened Deduplication

  /** `items[:max_n]`. With a non-negative cap it is the first `min(|items|, max_n)`
      items; a negative cap, as in Python, drops that many items from the end. */
  function PickTopItems(items: seq<FeedItem>, maxN: int): (top: seq<FeedItem>)
    ensures |top| <= |items|
    ensures forall k :: 0 <= k < |top| ==> top[k] == items[k]
    ensures 0 <= maxN ==> |top| == if maxN < |items| then maxN else |items|
    ensures maxN < 0 ==> |top| == if |items| + maxN < 0 then 0 else |items| + maxN
  {
    Prefix(items, maxN)
  }

  /** Selecting from a list without repeated links leaves none repeated, and the links
      selected are links of the list. */
  lemma PickTopItemsKeepsUnique(items: seq<FeedItem>, maxN: int)
    requires UniqueLinks(items)
    ensures UniqueLinks(PickTopItems(items, maxN))
    ensures Links(PickTopItems(items, maxN)) <= Links(items)
  {
    var top := PickTopItems(items, maxN);
    forall l | l in Links(top) ensures l in Links(items) {
      var k :| 0 <= k < |top| && top[k].link == l;
    }
  }

  /** Selecting twice with non-negative caps selects once with the smaller cap. */
  lemma PickTopItemsTwice(items: seq<FeedItem>, m: nat, n: nat)
    ensures PickTopItems(PickTopItems(items, m), n) == PickTopItems(items, if m < n then m else n)
  {
    var once := PickTopItems(items, if m < n then m else n);
    var twice := PickTopItems(PickTopItems(items, m), n);
    assert |twice| == |once|;
    forall k | 0 <= k < |twice| ensures twice[k] == once[k] {
    }
  }
}
