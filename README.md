# market_digest item preparation, in Dafny

`market_digest.py` builds a daily market digest. It reads a list of RSS feed URLs,
fetches and normalises the feed entries into news items, removes items that repeat a
link, keeps the first `MAX_ARTICLES` of them, asks a language model for themes and
posts the result to a Notion database. This project models the deterministic part
before the model call, and proves properties of it:

- `read_sources` (module `Sources`): every line of the source list is stripped. A
  stripped line that is empty or starts with `#` is dropped. The rest are the feed
  URLs, in file order, with repeats kept.
- `fetch_rss_items`, first half (module `FeedItems`; method form in `Fetch`):
  - for each feed in list order, only the first 25 entries are looked at;
  - an entry without a non-empty link, or whose stripped title is empty, is skipped;
  - otherwise it becomes an item: the feed URL, the stripped title, the link as given,
    the stripped summary cut to 700 characters, and the publication text (`published`,
    or `updated` when that is absent or empty) cut to 120 characters.
- `fetch_rss_items`, second half (module `Deduplication`; method form in `Fetch`):
  one pass over the items with a `seen` set of links. Only the first item with each
  link is kept, and order is kept.
- `pick_top_items` (module `Selection`): `items[:max_n]`, which is the first `max_n`
  items and not a ranking. As in Python, a negative `max_n` drops that many items from
  the end.

The Python built-ins these rely on are modelled in `PyText`:

- `str.strip()` with no argument, using the whitespace set of `str.isspace()`;
- the prefix slice `s[:n]`.

`Sequences` holds the two list shapes the code builds:

- a comprehension or loop that keeps some elements and transforms them;
- a concatenation of one list per feed.

Their lemmas are proved once there, for any function.

`fetch_rss_items` changes local lists and a set step by step, so `Fetch` models it as
methods with loops:

- `NormalizeEntry` handles one entry;
- `AppendFeedItems` loops over a feed's entries;
- `CollectItems` loops over the feeds;
- `DedupByLink` is the `seen`/`deduped` loop;
- `FetchRssItems` runs them in order.

Each method's postcondition ties its result to the specification function
(`Normalize`, `Collect`, `Dedup`). The lemmas beside those functions state what the
source promises.

`Scenarios` proves a worked case for any distinct non-empty links `a` and `c` and any
non-empty unpadded titles. Two feeds share the link `a`, and the first feed also has an
entry with an empty title. The result keeps the first
feed's item and the second feed's new link, in feed order.

## Model

| member | source | states |
|---|---|---|
| PyText.Strip | market_digest.py:35-36 | the stripped text is no longer than the input and has no whitespace at either end |
| PyText.StripEmpty | market_digest.py:27 | a line strips to the empty string exactly when every character of it is whitespace (`if line.strip()`) |
| PyText.StripSplits | market_digest.py:35 | the input is whitespace, then its stripped form, then whitespace: strip removes only surrounding whitespace |
| PyText.StripUnique | market_digest.py:36 | whitespace around a text with no whitespace at its ends strips to exactly that text |
| PyText.StripIdempotent | market_digest.py:27 | stripping an already stripped line changes nothing |
| PyText.Prefix | market_digest.py:44-45 | `s[:n]` is a prefix of `s`; its length is `min(n, len(s))` for `n >= 0` and `max(0, len(s) + n)` for negative `n` |
| Sources.ReadSources | market_digest.py:25-27 | `read_sources` over the given lines: the comprehension keeping the stripped form of each line that is neither blank nor a comment. Its own contract only bounds the length; what it returns is stated by ReadSourcesFrom, ReadSourcesKeeps, ReadSourcesAppend, ReadSourcesLine and ReadSourcesOfUrls |
| Sources.ReadSourcesFrom | market_digest.py:25-27 | every returned URL is the stripped form of a source line that is neither blank nor a comment, and is itself non-empty, stripped and not a comment |
| Sources.ReadSourcesKeeps | market_digest.py:27 | every line that is neither blank nor a comment contributes its stripped form to the result |
| Sources.ReadSourcesAppend | market_digest.py:27 | the file is read in order: reading two parts one after the other gives the two results concatenated, so nothing is reordered or de-duplicated |
| Sources.ReadSourcesLine | market_digest.py:27 | a blank or comment line adds nothing; any other line adds exactly its stripped form at the end |
| Sources.ReadSourcesOfUrls | market_digest.py:27 | a file whose lines are already feed URLs reads back unchanged, repeats included |
| FeedItems.PublishedOf | market_digest.py:37 | the publication text is `published` when that is present and non-empty, otherwise `updated`, or empty when both are absent |
| FeedItems.Normalize | market_digest.py:34-46 | the item one entry yields, or none when it is skipped; it has no contract of its own, and NormalizeSpec states what it promises |
| FeedItems.NormalizeSpec | market_digest.py:34-46 | an entry yields an item exactly when it has a non-empty link and a non-blank stripped title. The item records the feed URL, the raw link and the stripped title, carries exactly the first 700 characters of the stripped summary and the first 120 of the publication text (all of each when shorter), and is well formed |
| FeedItems.FeedItemsOf | market_digest.py:33 | a feed contributes at most 25 items |
| FeedItems.Collect | market_digest.py:30-46 | the items of all feeds before de-duplication, from the two nested loops; it has no contract of its own, and CollectFrom, CollectKeeps and CollectAppend state what it promises |
| FeedItems.CollectFrom | market_digest.py:30-46 | every collected item comes from one of the first 25 entries of some feed, names that feed as its source and is well formed |
| FeedItems.CollectKeeps | market_digest.py:31-46 | every kept entry among the first 25 of any feed yields a collected item |
| FeedItems.FeedItemsIgnoreLaterEntries | market_digest.py:33 | entries after the 25th of a feed never affect its items |
| FeedItems.CollectAppend | market_digest.py:31 | feeds are processed in list order: collecting two lists of feeds gives their items concatenated |
| Deduplication.Dedup | market_digest.py:48-56 | the de-duplicated list is no longer than the input, has the same set of links, and no two of its items share a link |
| Deduplication.FirstIndicesComplete | market_digest.py:51-55 | a position is kept exactly when no earlier item has the same link |
| Deduplication.FirstLinkIsNew | market_digest.py:52 | the last item's link is among the earlier links exactly when it is not a first occurrence |
| Deduplication.DedupIsFirstOccurrences | market_digest.py:48-56 | the result is exactly the first-occurrence items, in input order |
| Deduplication.DedupKeepsFirst | market_digest.py:51-55 | the first item with each link is in the result |
| Deduplication.DedupOnlyFirst | market_digest.py:51-55 | every item in the result is the first item of the input with its link |
| Deduplication.DedupOfUnique | market_digest.py:48-56 | a list without repeated links is returned unchanged |
| Deduplication.DedupIdempotent | market_digest.py:48-56 | de-duplicating twice is the same as de-duplicating once |
| Fetch.NormalizeEntry | market_digest.py:34-45 | reading one entry's attributes and skipping or building the item gives what `Normalize` specifies |
| Fetch.AppendFeedItems | market_digest.py:33-46 | the entry loop appends to `items` exactly the items of the feed's first 25 entries, in entry order |
| Fetch.CollectItems | market_digest.py:30-46 | the feed loop builds exactly the items of all feeds, feed by feed |
| Fetch.DedupByLink | market_digest.py:48-56 | the `seen`/`deduped` loop computes `Dedup` of its input; `seen` always holds the links kept so far |
| Fetch.FetchRssItems | market_digest.py:29-56 | `fetch_rss_items` returns the de-duplicated items of all feeds: no repeated links, every collected link present, every item well formed |
| Selection.PickTopItems | market_digest.py:58-60 | the selection is the first `max_n` items in their order (Python slice length for negative `max_n`) |
| Selection.PickTopItemsKeepsUnique | market_digest.py:58-60 | selecting from a list without repeated links keeps it so, and selects only links of the list |
| Selection.PickTopItemsTwice | market_digest.py:58-60 | with non-negative caps `m` and `n`, selecting with cap `m` and then `n` equals selecting once with the smaller cap |
| Scenarios.NormalizeTitled | market_digest.py:34-46 | an entry with only a non-empty link and a non-empty unpadded title (no summary, `published` or `updated`) yields an item with that title and link and an empty summary and publication text |
| Scenarios.NormalizeUntitled | market_digest.py:38-39 | an entry with only a link and an empty title is skipped |
| Scenarios.SecondUntitled | market_digest.py:33-46 | a two-entry feed whose first entry has only a non-empty link and a non-empty unpadded title, and whose second entry's title is empty, yields only the first entry's item |
| Scenarios.BothTitled | market_digest.py:33-46 | a two-entry feed whose entries have only non-empty links and non-empty unpadded titles yields their two items in entry order |
| Scenarios.DedupRepeat | market_digest.py:48-56 | of three items where the second repeats the first's link and the third's link is new, the second is dropped |
| Scenarios.DuplicateAcrossFeeds | market_digest.py:29-56 | for two-entry feeds built from distinct non-empty links `a` and `c` and non-empty unpadded titles, where the first feed is `a` then an untitled entry and the second is `a` then `c`: the second feed's copy of `a` is dropped, the untitled entry is skipped, and feed order is kept |

## Left out

- Fetching and parsing feeds (`feedparser.parse`) is not modelled. `FetchRssItems` receives one parse result (URL and entries) per feed URL, in list order. A URL listed twice may therefore parse differently each time, as it can over the network.
- Entry attributes are modelled as optional strings. `link` and `title` holding a non-string (for example Python's `None` in `title`, which would raise on `.strip()`) are not modelled. Neither is `updated` holding `None` when `published` is empty, which would raise on slicing.
- Opening and decoding the source file, and splitting it into lines, are not modelled: `ReadSources` receives the lines. A missing file raises in the source; that error path is not modelled.
- The language-model call (`call_openai_to_extract_themes`), building and posting the Notion page, `main`, and reading the environment (`MAX_ARTICLES`, `MAX_THEMES`, secrets, `SystemExit`) are outside this model. The cap is a parameter of `PickTopItems`; its default of 12 is not modelled.
- Strings are sequences of code points. There is no Unicode normalisation or case folding, as in the source.
- Sources.ReadSources: its own contract only bounds the length; what it returns is stated by the `ReadSources*` lemmas.
