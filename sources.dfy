/** The source-list loader `read_sources` (market_digest.py:25-27): every line of the
    config file is stripped, and the stripped lines that are non-empty and do not start
    with `#` are the feed URLs, in file order and with duplicates kept. Opening and
    decoding the file is not modelled: the lines are given. */
module Sources {
  import opened PyText
  import opened Sequences

  /** A line whose stripped form is a feed URL rather than a blank or comment line:
      `line.strip()` is non-empty and does not start with `#`. */
  predicate IsSourceLine(line: string) {
    var u := Strip(line);
    u != [] && u[0] != '#'
  }

  /** A URL as `read_sources` returns it: non-empty, its own stripped form, and not a
      comment. */
  predicate IsSourceUrl(url: string) {
    url != [] && Strip(url) == url && url[0] != '#'
  }

  /** What the comprehension makes of one line. */
  function SourceUrl(line: string): Option<string> {
    if IsSourceLine(line) then Some(Strip(line)) else None
  }

  /** `[line.strip() for line in f if line.strip() and not line.strip().startswith("#")]`
      over the file's lines. */
  function ReadSources(lines: seq<string>): (urls: seq<string>)
    ensures |urls| <= |lines|
  {
    FilterMap(lines, SourceUrl)
  }

  /** Every URL returned is a feed URL, the stripped form of the source line `i`. */
  lemma ReadSourcesFrom(lines: seq<string>, k: nat) returns (i: nat)
    requires k < |ReadSources(lines)|
    ensures i < |lines| && IsSourceLine(lines[i]) && ReadSources(lines)[k] == Strip(lines[i])
    ensures IsSourceUrl(ReadSources(lines)[k])
  {
    i := FilterMapFrom(lines, SourceUrl, k);
    StripIdempotent(lines[i]);
  }

  /** Every source line contributes its stripped form. */
  lemma ReadSourcesKeeps(lines: seq<string>, i: nat) returns (k: nat)
    requires i < |lines| && IsSourceLine(lines[i])
    ensures k < |ReadSources(lines)| && ReadSources(lines)[k] == Strip(lines[i])
  {
    k := FilterMapKeeps(lines, SourceUrl, i);
  }

  /** Reading a file made of two parts reads the parts in order: nothing is reordered and
      nothing is de-duplicated across them. */
  lemma ReadSourcesAppend(a: seq<string>, b: seq<string>)
    ensures ReadSources(a + b) == ReadSources(a) + ReadSources(b)
  {
    FilterMapAppend(a, b, SourceUrl);
  }

  /** A blank or comment line adds nothing; any other line adds its stripped form. */
  lemma ReadSourcesLine(lines: seq<string>, line: string)
    ensures !IsSourceLine(line) ==> ReadSources(lines + [line]) == ReadSources(lines)
    ensures IsSourceLine(line) ==> ReadSources(lines + [line]) == ReadSources(lines) + [Strip(line)]
  {
    FilterMapSnoc(lines, line, SourceUrl);
  }

  /** Lines that are already feed URLs come back exactly as given: same order, same
      length, repeated URLs repeated. */
  lemma ReadSourcesOfUrls(urls: seq<string>)
    requires forall k :: 0 <= k < |urls| ==> IsSourceUrl(urls[k])
    ensures ReadSources(urls) == urls
  {
    forall k | 0 <= k < |urls| ensures SourceUrl(urls[k]) == Some(urls[k]) {
      assert IsSourceUrl(urls[k]);
    }
    FilterMapKeepsAll(urls, SourceUrl);
  }
}
