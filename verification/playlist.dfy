/** `StreamScraper.generate_m3u8` (scraper/scraper.py): the extended M3U playlist,
    and a reader for the lines it writes that recovers every stream's attributes. */
module Playlist {
  import opened Wrappers
  import opened Text
  import opened Scrape

  const Header := "#EXTM3U\n"

  /** `lit`, then `v`, then the character `stop` that ends it, then `rest`. */
  function Piece(lit: string, v: string, stop: char, rest: string): string {
    lit + v + [stop] + rest
  }

  /** The two lines written for one stream, followed by `rest`: the `#EXTINF` line
      (`tvg-id`, `tvg-name`, `tvg-logo`, `group-title` holding the title-cased
      category, then the display name) and the URL line. The f-strings of the source
      concatenate these same pieces. */
  function Lines(s: Stream, rest: string): string {
    Piece("#EXTINF:-1 tvg-id=\"", s.id, '"',
    Piece(" tvg-name=\"", s.name, '"',
    Piece(" tvg-logo=\"", s.logo, '"',
    Piece(" group-title=\"", Title(s.category), '"',
    Piece(",", s.name, '\n',
    Piece("", s.url, '\n', rest))))))
  }

  /** The playlist body: every stream's lines, in order. */
  function Entries(streams: seq<Stream>): string
    decreases |streams|
  {
    if streams == [] then "" else Lines(streams[0], Entries(streams[1..]))
  }

  lemma PieceAppend(lit: string, v: string, stop: char, rest: string, more: string)
    ensures Piece(lit, v, stop, rest) + more == Piece(lit, v, stop, rest + more)
  {
  }

  /** Text after a stream's lines can be appended inside them. */
  lemma LinesAppend(s: Stream, rest: string, more: string)
    ensures Lines(s, rest) + more == Lines(s, rest + more)
  {
    PieceAppend("", s.url, '\n', rest, more);
    PieceAppend(",", s.name, '\n', Piece("", s.url, '\n', rest), more);
    PieceAppend(" group-title=\"", Title(s.category), '"',
      Piece(",", s.name, '\n', Piece("", s.url, '\n', rest)), more);
    PieceAppend(" tvg-logo=\"", s.logo, '"',
      Piece(" group-title=\"", Title(s.category), '"',
      Piece(",", s.name, '\n', Piece("", s.url, '\n', rest))), more);
    PieceAppend(" tvg-name=\"", s.name, '"',
      Piece(" tvg-logo=\"", s.logo, '"',
      Piece(" group-title=\"", Title(s.category), '"',
      Piece(",", s.name, '\n', Piece("", s.url, '\n', rest)))), more);
    PieceAppend("#EXTINF:-1 tvg-id=\"", s.id, '"',
      Piece(" tvg-name=\"", s.name, '"',
      Piece(" tvg-logo=\"", s.logo, '"',
      Piece(" group-title=\"", Title(s.category), '"',
      Piece(",", s.name, '\n', Piece("", s.url, '\n', rest))))), more);
  }

  /** Appending a stream appends its lines. */
  lemma {:induction false} EntriesSnoc(streams: seq<Stream>, s: Stream)
    ensures Entries(streams + [s]) == Entries(streams) + Lines(s, "")
    decreases |streams|
  {
    if streams == [] {
      assert [s][1..] == [];
      assert Lines(s, "") == Lines(s, "") + "";
    } else {
      assert (streams + [s])[1..] == streams[1..] + [s];
      EntriesSnoc(streams[1..], s);
      LinesAppend(streams[0], Entries(streams[1..]), Lines(s, ""));
    }
  }

  lemma ConcatAssoc(a: string, b: string, c: string)
    ensures a + (b + c) == a + b + c
  {
  }

  /** One turn of the loop of `generate_m3u8` appends the next stream's lines. */
  lemma PlaylistStep(streams: seq<Stream>, i: nat)
    requires i < |streams|
    ensures Header + Entries(streams[..i + 1]) == Header + Entries(streams[..i]) + Lines(streams[i], "")
  {
    assert streams[..i + 1] == streams[..i] + [streams[i]];
    EntriesSnoc(streams[..i], streams[i]);
    ConcatAssoc(Header, Entries(streams[..i]), Lines(streams[i], ""));
  }

  /** `generate_m3u8()`: the header, then the lines of each stream, built up as the
      source does with `+=`. */
  method GenerateM3u8(streams: seq<Stream>) returns (r: string)
    ensures r == Header + Entries(streams)
  {
    r := Header;
    for i := 0 to |streams|
      invariant r == Header + Entries(streams[..i])
    {
      PlaylistStep(streams, i);
      r := r + Lines(streams[i], "");
    }
    assert streams[..|streams|] == streams;
  }

  // ---------------------------------------------------------------------------
  // Reading the playlist back

  /** A piece of text cut off before a stop character, and what follows the stop. */
  datatype Cut = Cut(value: string, rest: string)

  /** The text up to the first `stop`, and the text after it; `None` when there is
      no `stop`. */
  function SplitAt(t: string, stop: char): (r: Option<Cut>)
    ensures r.None? <==> stop !in t
    ensures r.Some? ==> t == r.value.value + [stop] + r.value.rest && stop !in r.value.value
    decreases |t|
  {
    if t == [] then None
    else if t[0] == stop then Some(Cut([], t[1..]))
    else
      match SplitAt(t[1..], stop)
      case None => None
      case Some(c) => Some(Cut([t[0]] + c.value, c.rest))
  }

  /** Text that opens with `lit`, then a value ended by `stop`. */
  function Field(t: string, lit: string, stop: char): (r: Option<Cut>)
    ensures r.Some? ==> t == Piece(lit, r.value.value, stop, r.value.rest)
    ensures r.None? <==> !(lit <= t) || stop !in t[|lit|..]
  {
    if lit <= t then
      var r := SplitAt(t[|lit|..], stop);
      assert r.Some? ==> t == lit + t[|lit|..];
      r
    else None
  }

  /** What the reader recovers from one stream's lines. */
  datatype Item = Item(id: string, tvgName: string, logo: string, group: string, title: string, url: string)

  /** One stream's lines from the front of `t`, and the text after them. */
  function ParseEntry(t: string): (r: Option<(Item, string)>)
    ensures r.Some? ==> |r.value.1| < |t|
  {
    var f1 :- Field(t, "#EXTINF:-1 tvg-id=\"", '"');
    var f2 :- Field(f1.rest, " tvg-name=\"", '"');
    var f3 :- Field(f2.rest, " tvg-logo=\"", '"');
    var f4 :- Field(f3.rest, " group-title=\"", '"');
    var f5 :- Field(f4.rest, ",", '\n');
    var f6 :- Field(f5.rest, "", '\n');
    Some((Item(f1.value, f2.value, f3.value, f4.value, f5.value, f6.value), f6.rest))
  }

  /** Every stream's lines, until the text runs out. */
  function ParseEntries(t: string): (r: Option<seq<Item>>)
    decreases |t|
  {
    if t == [] then Some([])
    else
      var first :- ParseEntry(t);
      var more :- ParseEntries(first.1);
      Some([first.0] + more)
  }

  /** The reader of a whole playlist. */
  function ParsePlaylist(t: string): Option<seq<Item>> {
    if Header <= t then ParseEntries(t[|Header|..]) else None
  }

  /** What the lines of `s` carry. */
  function ItemOf(s: Stream): Item {
    Item(s.id, s.name, s.logo, Title(s.category), s.name, s.url)
  }

  function ItemsOf(streams: seq<Stream>): (r: seq<Item>)
    ensures |r| == |streams|
    ensures forall i | 0 <= i < |streams| :: r[i] == ItemOf(streams[i])
  {
    seq(|streams|, i requires 0 <= i < |streams| => ItemOf(streams[i]))
  }

  /** A stream whose lines read back unambiguously: no attribute holds the quote that
      closes it, and neither the display name nor the URL holds a line break. */
  predicate Writable(s: Stream) {
    '"' !in s.id && '"' !in s.name && '"' !in s.logo && '"' !in s.category &&
    '\n' !in s.name && '\n' !in s.url
  }

  /** `title()` adds no quote and no line break: it only changes letters. */
  lemma TitleKeepsPunctuation(s: string, c: char)
    requires !IsAsciiLetter(c) && c !in s
    ensures c !in Title(s)
  {
    var r := Title(s);
    forall k | 0 <= k < |r| ensures r[k] != c {
      assert s[k] in s;
    }
  }

  /** `SplitAt` finds the first `stop`. */
  lemma {:induction false} SplitAtRoundTrip(v: string, stop: char, rest: string)
    requires stop !in v
    ensures SplitAt(v + [stop] + rest, stop) == Some(Cut(v, rest))
    decreases |v|
  {
    var t := v + [stop] + rest;
    if v != [] {
      assert t[1..] == v[1..] + [stop] + rest;
      assert stop !in v[1..] by { assert forall k | 0 <= k < |v[1..]| :: v[1..][k] == v[k + 1]; }
      SplitAtRoundTrip(v[1..], stop, rest);
      assert [v[0]] + v[1..] == v;
    } else {
      assert t[1..] == rest;
    }
  }

  lemma FieldRoundTrip(lit: string, v: string, stop: char, rest: string)
    requires stop !in v
    ensures Field(Piece(lit, v, stop, rest), lit, stop) == Some(Cut(v, rest))
  {
    var t := lit + v + [stop] + rest;
    assert lit <= t;
    assert t[|lit|..] == v + [stop] + rest;
    SplitAtRoundTrip(v, stop, rest);
  }

  /** The lines of one writable stream read back as its attributes. */
  lemma ParseEntryRoundTrip(s: Stream, rest: string)
    requires Writable(s)
    ensures ParseEntry(Lines(s, rest)) == Some((ItemOf(s), rest))
  {
    var title := Title(s.category);
    TitleKeepsPunctuation(s.category, '"');
    var r5 := Piece("", s.url, '\n', rest);
    var r4 := Piece(",", s.name, '\n', r5);
    var r3 := Piece(" group-title=\"", title, '"', r4);
    var r2 := Piece(" tvg-logo=\"", s.logo, '"', r3);
    var r1 := Piece(" tvg-name=\"", s.name, '"', r2);
    FieldRoundTrip("#EXTINF:-1 tvg-id=\"", s.id, '"', r1);
    FieldRoundTrip(" tvg-name=\"", s.name, '"', r2);
    FieldRoundTrip(" tvg-logo=\"", s.logo, '"', r3);
    FieldRoundTrip(" group-title=\"", title, '"', r4);
    FieldRoundTrip(",", s.name, '\n', r5);
    FieldRoundTrip("", s.url, '\n', rest);
  }

  /** The body of writable streams reads back as their attributes, in order. */
  lemma {:induction false} ParseEntriesRoundTrip(streams: seq<Stream>)
    requires forall i | 0 <= i < |streams| :: Writable(streams[i])
    ensures ParseEntries(Entries(streams)) == Some(ItemsOf(streams))
    decreases |streams|
  {
    if streams != [] {
      var more := streams[1..];
      var tail := Entries(more);
      assert Entries(streams) == Lines(streams[0], tail);
      ParseEntryRoundTrip(streams[0], tail);
      ParseEntriesRoundTrip(more);
      ParseEntriesCons(Lines(streams[0], tail), ItemOf(streams[0]), tail, ItemsOf(more));
      ItemsOfCons(streams);
    }
  }

  lemma ItemsOfCons(streams: seq<Stream>)
    requires streams != []
    ensures ItemsOf(streams) == [ItemOf(streams[0])] + ItemsOf(streams[1..])
  {
  }

  /** A body that opens with one stream's lines reads as that item, then the rest. */
  lemma ParseEntriesCons(t: string, item: Item, rest: string, items: seq<Item>)
    requires ParseEntry(t) == Some((item, rest))
    requires ParseEntries(rest) == Some(items)
    ensures ParseEntries(t) == Some([item] + items)
  {
  }

  /** Round trip: the playlist of writable streams reads back as one item per
      stream, in order, carrying its id, name, logo, title-cased category and URL. */
  lemma PlaylistRoundTrip(streams: seq<Stream>)
    requires forall i | 0 <= i < |streams| :: Writable(streams[i])
    ensures ParsePlaylist(Header + Entries(streams)) == Some(ItemsOf(streams))
  {
    var t := Header + Entries(streams);
    assert t[|Header|..] == Entries(streams);
    ParseEntriesRoundTrip(streams);
  }
}
