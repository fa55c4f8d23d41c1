/** Turning parsed feed entries into feed items, the first half of `fetch_rss_items`
    (market_digest.py:29-46). The feed parser itself is not modelled: a feed is the URL
    it was fetched from together with the entries the parser returned for it. */
module FeedItems {
  import opened PyText
  import opened Sequences

  /** A parsed feed entry. Each field is `None` when the entry lacks that attribute.
      For `link`, `summary` and `published` it also stands for the attribute holding
      Python's `None`, which the source treats the same way (`not link` skips the entry,
      `or` falls back to the empty summary or to `updated`). */
  datatype Entry = Entry(
    link: Option<string>,
    title: Option<string>,
    summary: Option<string>,
    published: Option<string>,
    updated: Option<string>)

  /** One feed as fetched: its URL and its entries in feed order. */
  datatype ParsedFeed = ParsedFeed(url: string, entries: seq<Entry>)

  /** The dictionary `fetch_rss_items` builds for a kept entry. */
  datatype FeedItem = FeedItem(
    sourceFeed: string,
    title: string,
    link: string,
    summary: string,
    published: string)

  /** How many entries of each feed are looked at. */
  const EntriesPerFeed := 25
  /** The longest summary an item carries. */
  const SummaryLength := 700
  /** The longest publication text an item carries. */
  const PublishedLength := 120

  /** `getattr(e, name, default)` for an attribute held in `a`. */
  function AttrOr(a: Option<string>, default: string): string {
    match a
    case Some(v) => v
    case None => default
  }

  /** The title as compared and stored: the stripped title, empty when absent. */
  function TitleOf(e: Entry): string {
    Strip(AttrOr(e.title, ""))
  }

  /** The stripped summary, empty when absent or `None`; items carry a prefix of it. */
  function SummaryOf(e: Entry): string {
    Strip(AttrOr(e.summary, ""))
  }

  /** `getattr(e, "published", "") or getattr(e, "updated", "")`: the publication text,
      falling back to the update text when it is absent or empty; not stripped. */
  function PublishedOf(e: Entry): (r: string)
    ensures e.published.Some? && e.published.value != [] ==> r == e.published.value
    ensures e.published.None? || e.published.value == [] ==>
      r == (if e.updated.Some? then e.updated.value else [])
  {
    var published := AttrOr(e.published, "");
    if published != [] then published else AttrOr(e.updated, "")
  }

  /** An entry that yields an item: it has a non-empty link and a title that is not
      blank once stripped. */
  predicate Kept(e: Entry) {
    e.link.Some? && e.link.value != [] && TitleOf(e) != []
  }

  /** `t` is `s[:n]`: the first `n` characters of `s`, or all of `s` when it is shorter. */
  predicate CutTo(t: string, s: string, n: nat) {
    t == s[..if |s| <= n then |s| else n]
  }

  /** What every item `fetch_rss_items` produces satisfies. */
  predicate WellFormed(it: FeedItem) {
    && it.link != []
    && it.title != [] && Trimmed(it.title)
    && |it.summary| <= SummaryLength
    && |it.published| <= PublishedLength
  }

  /** The item an entry of the feed at `url` yields, or `None` when the entry is
      skipped; NormalizeSpec says what it holds. */
  function Normalize(url: string, e: Entry): Option<FeedItem> {
    var link := e.link;
    var title := TitleOf(e);
    var summary := SummaryOf(e);
    var published := PublishedOf(e);
    if link.None? || link.value == [] || title == [] then None
    else Some(FeedItem(url, title, link.value, Prefix(summary, SummaryLength), Prefix(published, PublishedLength)))
  }

  /** An entry yields an item exactly when it is kept; the item is well formed, records
      the feed, keeps the raw link and the stripped title, and cuts the stripped summary
      and the publication text to their limits. */
  lemma NormalizeSpec(url: string, e: Entry)
    ensures Normalize(url, e).Some? <==> Kept(e)
    ensures Normalize(url, e).Some? ==>
      var it := Normalize(url, e).value;
      && WellFormed(it)
      && it.sourceFeed == url
      && it.link == e.link.value
      && it.title == TitleOf(e)
      && CutTo(it.summary, SummaryOf(e), SummaryLength)
      && CutTo(it.published, PublishedOf(e), PublishedLength)
  {
  }

  /** `Normalize` for the entries of the feed at `url`. */
  function NormalizeFrom(url: string): Entry -> Option<FeedItem> {
    e => Normalize(url, e)
  }

  /** The items of one feed, in entry order: those its first `EntriesPerFeed` entries
      yield. */
  function FeedItemsOf(f: ParsedFeed): (items: seq<FeedItem>)
    ensures |items| <= EntriesPerFeed
  {
    FilterMap(Prefix(f.entries, EntriesPerFeed), NormalizeFrom(f.url))
  }

  /** The items of all feeds before de-duplication: feed by feed in list order, and
      within a feed in entry order. */
  function Collect(feeds: seq<ParsedFeed>): seq<FeedItem> {
    Concat(feeds, FeedItemsOf)
  }

  /** Every collected item was made from one of the first `EntriesPerFeed` entries of
      one of the feeds, and so is well formed and names that feed as its source. */
  lemma CollectFrom(feeds: seq<ParsedFeed>, k: nat) returns (j: nat, i: nat)
    requires k < |Collect(feeds)|
    ensures j < |feeds| && i < |feeds[j].entries| && i < EntriesPerFeed
    ensures Normalize(feeds[j].url, feeds[j].entries[i]) == Some(Collect(feeds)[k])
    ensures WellFormed(Collect(feeds)[k]) && Collect(feeds)[k].sourceFeed == feeds[j].url
  {
    var m;
    j, m := ConcatFrom(feeds, FeedItemsOf, k);
    var f := feeds[j];
    i := FilterMapFrom(Prefix(f.entries, EntriesPerFeed), NormalizeFrom(f.url), m);
    NormalizeSpec(f.url, f.entries[i]);
  }

  /** Every kept entry among the first `EntriesPerFeed` of a feed yields a collected item. */
  lemma CollectKeeps(feeds: seq<ParsedFeed>, j: nat, i: nat) returns (k: nat)
    requires j < |feeds| && i < |feeds[j].entries| && i < EntriesPerFeed
    requires Kept(feeds[j].entries[i])
    ensures k < |Collect(feeds)| && Collect(feeds)[k] == Normalize(feeds[j].url, feeds[j].entries[i]).value
  {
    var f := feeds[j];
    NormalizeSpec(f.url, f.entries[i]);
    var m := FilterMapKeeps(Prefix(f.entries, EntriesPerFeed), NormalizeFrom(f.url), i);
    k := ConcatKeeps(feeds, FeedItemsOf, j, m);
  }

  /** Entries after the first `EntriesPerFeed` never matter. */
  lemma FeedItemsIgnoreLaterEntries(url: string, es: seq<Entry>, later: seq<Entry>)
    requires |es| >= EntriesPerFeed
    ensures FeedItemsOf(ParsedFeed(url, es + later)) == FeedItemsOf(ParsedFeed(url, es))
  {
    assert (es + later)[..EntriesPerFeed] == es[..EntriesPerFeed];
  }

  /** Collecting two lists of feeds one after the other collects them in order. */
  lemma CollectAppend(a: seq<ParsedFeed>, b: seq<ParsedFeed>)
    ensures Collect(a + b) == Collect(a) + Collect(b)
  {
    ConcatAppend(a, b, FeedItemsOf);
  }
}
