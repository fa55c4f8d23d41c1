/** `fetch_rss_items` (market_digest.py:29-56) as the loops it is written as: for each
    feed in order, the first `EntriesPerFeed` entries are normalised and the kept ones
    appended to `items`; then one pass over `items` with a `seen` set of links appends
    to `deduped` each item whose link has not been seen. Fetching and parsing a feed is
    not modelled: the method receives, for each URL, the entries the parser returned. */
module Fetch {
  import opened PyText
  import opened Sequences
  import opened FeedItems
  import opened Deduplication

  /** One more entry extends the items by what that entry yields. */
  lemma AppendStep(items: seq<FeedItem>, entries: seq<Entry>, i: nat, url: string)
    requires i < |entries|
    ensures items + FilterMap(entries[..i + 1], NormalizeFrom(url))
         == items + FilterMap(entries[..i], NormalizeFrom(url))
            + (match Normalize(url, entries[i]) case Some(it) => [it] case None => [])
  {
    var f := NormalizeFrom(url);
    TakeOneMore(entries, i);
    FilterMapSnoc(entries[..i], entries[i], f);
    assert f(entries[i]) == Normalize(url, entries[i]);
    if f(entries[i]).Some? {
      AppendOne(items, FilterMap(entries[..i], f), f(entries[i]).value);
    }
  }

  /** Lines 34-45 for one entry of the feed at `url`: read its attributes, skip it
      when the link or the stripped title is empty, and otherwise build the item.
      This is the body of the entry loop in statement form; it computes what the
      specification function `Normalize` describes, with no difference between them. */
  method NormalizeEntry(url: string, e: Entry) returns (item: Option<FeedItem>)
    ensures item == Normalize(url, e)
  {
    var link := e.link;
    var title := Strip(AttrOr(e.title, ""));
    var summary := Strip(AttrOr(e.summary, ""));
    var published := AttrOr(e.published, "");
    if published == [] {
      published := AttrOr(e.updated, "");
    }
    if link.None? || link.value == [] || title == [] {
      return None;
    }
    item := Some(FeedItem(url, title, link.value, Prefix(summary, SummaryLength), Prefix(published, PublishedLength)));
  }

  /** Lines 33-46 for the feed at `url`: the loop over its first `EntriesPerFeed`
      entries, appending to `items` the item each kept entry yields. */
  method AppendFeedItems(items: seq<FeedItem>, url: string, parsedEntries: seq<Entry>)
    returns (extended: seq<FeedItem>)
    ensures extended == items + FilterMap(Prefix(parsedEntries, EntriesPerFeed), NormalizeFrom(url))
  {
    extended := items;
    var entries := Prefix(parsedEntries, EntriesPerFeed);
    for i := 0 to |entries|
      invariant extended == items + FilterMap(entries[..i], NormalizeFrom(url))
    {
      var item := NormalizeEntry(url, entries[i]);
      AppendStep(items, entries, i, url);
      if item.None? {
        continue;
      }
      extended := extended + [item.value];
    }
    assert entries[..|entries|] == entries;
  }

  /** Lines 30-46: the items of all feeds, appended feed by feed. */
  method CollectItems(feeds: seq<ParsedFeed>) returns (items: seq<FeedItem>)
    ensures items == Collect(feeds)
  {
    items := [];
    for f := 0 to |feeds|
      invariant items == Collect(feeds[..f])
    {
      items := AppendFeedItems(items, feeds[f].url, feeds[f].entries);
      TakeOneMore(feeds, f);
      ConcatAppend(feeds[..f], [feeds[f]], FeedItemsOf);
    }
    assert feeds[..|feeds|] == feeds;
  }

  /** Lines 48-56: one pass with a `seen` set of links, appending each item whose link
      has not been seen yet. */
  method DedupByLink(items: seq<FeedItem>) returns (deduped: seq<FeedItem>)
    ensures deduped == Dedup(items)
  {
    var seen: set<string> := {};
    deduped := [];
    for k := 0 to |items|
      invariant deduped == Dedup(items[..k])
      invariant seen == Links(deduped)
    {
      var it := items[k];
      TakeOneMore(items, k);
      if it.link in seen {
        continue;
      }
      LinksAppend(deduped, it);
      seen := seen + {it.link};
      deduped := deduped + [it];
    }
    assert items[..|items|] == items;
  }

  /** `fetch_rss_items`: the de-duplicated items of all feeds. No two share a link,
      every collected link is kept, and every item is well formed. */
  method FetchRssItems(feeds: seq<ParsedFeed>) returns (deduped: seq<FeedItem>)
    ensures deduped == Dedup(Collect(feeds))
    ensures UniqueLinks(deduped) && Links(deduped) == Links(Collect(feeds))
    ensures forall k :: 0 <= k < |deduped| ==> WellFormed(deduped[k])
  {
    var items := CollectItems(feeds);
    deduped := DedupByLink(items);
    forall k | 0 <= k < |deduped| ensures WellFormed(deduped[k]) {
      var i := DedupOnlyFirst(items, k);
      var _, _ := CollectFrom(feeds, i);
    }
  }
}
