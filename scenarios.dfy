/** A worked case of `fetch_rss_items`: two feeds that share a link, the first of them
    with an entry whose title is blank. */
module Scenarios {
  import opened PyText
  import opened Sequences
  import opened FeedItems
  import opened Deduplication

  /** An entry with only a link and a title. */
  function E(link: string, title: string): Entry {
    Entry(Some(link), Some(title), None, None, None)
  }

  /** An entry with a link and an unpadded title yields an item with empty summary and
      publication text. */
  lemma NormalizeTitled(url: string, link: string, title: string)
    requires link != [] && title != [] && Trimmed(title)
    ensures NormalizeFrom(url)(E(link, title)) == Some(FeedItem(url, title, link, "", ""))
  {
    var e := E(link, title);
    assert TitleOf(e) == title by {
      StripUnique([], title, []);
      assert [] + title + [] == title;
    }
    assert SummaryOf(e) == [] by { StripEmpty([]); }
    assert PublishedOf(e) == [];
    NormalizeSpec(url, e);
  }

  /** An entry whose title is blank yields nothing. */
  lemma NormalizeUntitled(url: string, link: string)
    ensures NormalizeFrom(url)(E(link, "")) == None
  {
    assert TitleOf(E(link, "")) == [] by { StripEmpty([]); }
    NormalizeSpec(url, E(link, ""));
  }

  /** Of two items, the second is dropped when it repeats the first one's link. */
  lemma DedupRepeat(x: FeedItem, y: FeedItem, z: FeedItem)
    requires x.link == y.link && z.link != x.link
    ensures Dedup([x, y, z]) == [x, z]
  {
    assert Dedup([x]) == [x] by { assert [x][..0] == []; }
    assert Links([x]) == {x.link};
    assert Dedup([x, y]) == [x] by { assert [x, y][..1] == [x]; }
    assert [x, y, z][..2] == [x, y];
  }

  /** A feed whose second entry has a blank title yields one item. */
  lemma SecondUntitled(url: string, a: string, t: string, b: string)
    requires a != [] && t != [] && Trimmed(t)
    ensures FeedItemsOf(ParsedFeed(url, [E(a, t), E(b, "")])) == [FeedItem(url, t, a, "", "")]
  {
    NormalizeTitled(url, a, t);
    NormalizeUntitled(url, b);
    FilterMapPair(E(a, t), E(b, ""), NormalizeFrom(url));
    assert Prefix([E(a, t), E(b, "")], EntriesPerFeed) == [E(a, t), E(b, "")];
  }

  /** A feed whose two entries both have titles yields two items in entry order. */
  lemma BothTitled(url: string, a: string, t: string, c: string, u: string)
    requires a != [] && t != [] && Trimmed(t) && c != [] && u != [] && Trimmed(u)
    ensures FeedItemsOf(ParsedFeed(url, [E(a, t), E(c, u)]))
         == [FeedItem(url, t, a, "", ""), FeedItem(url, u, c, "", "")]
  {
    NormalizeTitled(url, a, t);
    NormalizeTitled(url, c, u);
    FilterMapPair(E(a, t), E(c, u), NormalizeFrom(url));
    assert Prefix([E(a, t), E(c, u)], EntriesPerFeed) == [E(a, t), E(c, u)];
  }

  /** Two feeds: the first has an item with link `a` and an entry whose title is blank,
      the second repeats link `a` and adds link `c`. The repeat is dropped, the untitled
      entry is skipped, and the result keeps feed order. */
  lemma DuplicateAcrossFeeds(u1: string, u2: string, a: string, b: string, c: string, t1: string, t2: string, t3: string)
    requires a != [] && c != [] && a != c
    requires t1 != [] && Trimmed(t1) && t2 != [] && Trimmed(t2) && t3 != [] && Trimmed(t3)
    ensures Dedup(Collect([ParsedFeed(u1, [E(a, t1), E(b, "")]), ParsedFeed(u2, [E(a, t2), E(c, t3)])]))
         == [FeedItem(u1, t1, a, "", ""), FeedItem(u2, t3, c, "", "")]
  {
    var f1, f2 := ParsedFeed(u1, [E(a, t1), E(b, "")]), ParsedFeed(u2, [E(a, t2), E(c, t3)]);
    SecondUntitled(u1, a, t1, b);
    BothTitled(u2, a, t2, c, t3);
    var x, y, z := FeedItem(u1, t1, a, "", ""), FeedItem(u2, t2, a, "", ""), FeedItem(u2, t3, c, "", "");
    ConcatPair(f1, f2, FeedItemsOf);
    assert Collect([f1, f2]) == [x] + [y, z] == [x, y, z];
    DedupRepeat(x, y, z);
  }
}
