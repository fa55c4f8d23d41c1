/** De-duplication by link, the second half of `fetch_rss_items` (market_digest.py:48-56):
    of all items sharing a link only the first is kept, and the kept items stay in
    their order. `Dedup` is that loop written as a function; `FirstIndices` is an
    independent description of the same result, by positions in the input. */
module Deduplication {
  import opened FeedItems

  /** The links of `items`. */
  function Links(items: seq<FeedItem>): set<string> {
    set k | 0 <= k < |items| :: items[k].link
  }

  /** No two items share a link. */
  predicate UniqueLinks(items: seq<FeedItem>) {
    forall a, b :: 0 <= a < b < |items| ==> items[a].link != items[b].link
  }

  /** Item `i` is the first with its link. */
  predicate IsFirstOccurrence(items: seq<FeedItem>, i: nat)
    requires i < |items|
  {
    forall j :: 0 <= j < i ==> items[j].link != items[i].link
  }

  lemma LinksAppend(items: seq<FeedItem>, it: FeedItem)
    ensures Links(items + [it]) == Links(items) + {it.link}
  {
    var all := items + [it];
    assert all[|items|].link == it.link;
    forall l | l in Links(items) ensures l in Links(all) {
      var k :| 0 <= k < |items| && items[k].link == l;
      assert all[k] == items[k];
    }
  }

  /** The items of `items` that the loop over `seen` and `deduped` keeps: an item is
      appended when its link is not yet among the links already kept. */
  function Dedup(items: seq<FeedItem>): (deduped: seq<FeedItem>)
    ensures |deduped| <= |items|
    ensures Links(deduped) == Links(items)
    ensures UniqueLinks(deduped)
  {
    if items == [] then []
    else
      var n := |items| - 1;
      var prior := Dedup(items[..n]);
      var it := items[n];
      assert items == items[..n] + [it];
      LinksAppend(items[..n], it);
      if it.link in Links(prior) then prior
      else
        LinksAppend(prior, it);
        prior + [it]
  }

  /** The positions, in increasing order, of the items that are the first with their
      link. */
  ghost function FirstIndices(items: seq<FeedItem>): (idx: seq<nat>)
    ensures forall k :: 0 <= k < |idx| ==> idx[k] < |items|
    ensures forall a, b :: 0 <= a < b < |idx| ==> idx[a] < idx[b]
  {
    if items == [] then []
    else
      var n := |items| - 1;
      FirstIndices(items[..n]) + (if IsFirstOccurrence(items, n) then [n] else [])
  }

  /** A position is listed exactly when its item is the first with its link. */
  lemma {:induction false} FirstIndicesComplete(items: seq<FeedItem>, i: nat)
    requires i < |items|
    ensures i in FirstIndices(items) <==> IsFirstOccurrence(items, i)
  {
    var n := |items| - 1;
    if i < n {
      FirstIndicesComplete(items[..n], i);
      assert IsFirstOccurrence(items[..n], i) <==> IsFirstOccurrence(items, i) by {
        assert forall j :: 0 <= j <= i ==> items[..n][j] == items[j];
      }
    }
  }

  /** The link of the item at a listed position is not the link of any earlier item. */
  lemma FirstLinkIsNew(items: seq<FeedItem>)
    requires items != []
    ensures items[|items| - 1].link in Links(items[..|items| - 1])
      <==> !IsFirstOccurrence(items, |items| - 1)
  {
    var n := |items| - 1;
    if items[n].link in Links(items[..n]) {
      var j :| 0 <= j < n && items[..n][j].link == items[n].link;
      assert items[j] == items[..n][j];
    } else {
      forall j | 0 <= j < n ensures items[j].link != items[n].link {
        assert items[..n][j] == items[j];
      }
    }
  }

  /** The de-duplicated list is exactly the items at the first-occurrence positions,
      in input order. */
  lemma {:induction false} DedupIsFirstOccurrences(items: seq<FeedItem>)
    ensures |Dedup(items)| == |FirstIndices(items)|
    ensures forall k :: 0 <= k < |Dedup(items)| ==> Dedup(items)[k] == items[FirstIndices(items)[k]]
  {
    if items != [] {
      var n := |items| - 1;
      DedupIsFirstOccurrences(items[..n]);
      FirstLinkIsNew(items);
      var prior, idx := Dedup(items[..n]), FirstIndices(items[..n]);
      forall k | 0 <= k < |idx| ensures items[..n][idx[k]] == items[idx[k]] {
      }
    }
  }

  /** The item kept for each link is its first occurrence. */
  lemma DedupKeepsFirst(items: seq<FeedItem>, i: nat) returns (k: nat)
    requires i < |items| && IsFirstOccurrence(items, i)
    ensures k < |Dedup(items)| && Dedup(items)[k] == items[i]
  {
    FirstIndicesComplete(items, i);
    DedupIsFirstOccurrences(items);
    var idx := FirstIndices(items);
    k :| 0 <= k < |idx| && idx[k] == i;
  }

  /** Every kept item is the first occurrence of its link. */
  lemma DedupOnlyFirst(items: seq<FeedItem>, k: nat) returns (i: nat)
    requires k < |Dedup(items)|
    ensures i < |items| && items[i] == Dedup(items)[k] && IsFirstOccurrence(items, i)
  {
    DedupIsFirstOccurrences(items);
    i := FirstIndices(items)[k];
    FirstIndicesComplete(items, i);
  }

  /** A list without repeated links comes back unchanged. */
  lemma {:induction false} DedupOfUnique(items: seq<FeedItem>)
    requires UniqueLinks(items)
    ensures Dedup(items) == items
  {
    if items != [] {
      var n := |items| - 1;
      DedupOfUnique(items[..n]);
      FirstLinkIsNew(items);
      assert items == items[..n] + [items[n]];
    }
  }

  /** De-duplicating twice is de-duplicating once. */
  lemma DedupIdempotent(items: seq<FeedItem>)
    ensures Dedup(Dedup(items)) == Dedup(items)
  {
    DedupOfUnique(Dedup(items));
  }
}
