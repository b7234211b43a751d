/** `StreamScraper.scrape_all` (scraper/scraper.py): each channel's `source_type`
    picks a handler, and a channel whose handler yields a truthy URL becomes one
    stream record.

    A channel is its string fields plus its optional `scrape_config` object. The
    `KeyError`s that `scrape_all` itself can raise are not caught in the source, so
    they end the run; the model returns them as `Raise`. The timestamp of each
    record is a parameter: `clock(i)` is what `utcnow().isoformat()` gives while
    the `i`-th channel (from 0) is handled.
 */
module Scrape {
  import opened Wrappers
  import opened Sources

  /** One entry of `channels_config['channels']`. */
  datatype Channel = Channel(fields: map<string, string>, config: Option<Fields>)

  /** The record appended to `self.streams`. */
  datatype Stream = Stream(
    id: string,
    name: string,
    nameBn: string,
    country: string,
    category: string,
    logo: string,
    url: string,
    sourceType: string,
    updatedAt: string)

  /** Which handler a `source_type` selects. */
  datatype SourceKind = YoutubeLive | YoutubeEmbed | Direct | Iframe | Unsupported

  const IframeTypes: seq<string> := ["mcaster_iframe", "stmify_iframe"]

  /** The `if`/`elif` chain on `source_type`. */
  function KindOf(sourceType: string): (k: SourceKind)
    ensures k == YoutubeLive <==> sourceType == "youtube_live"
    ensures k == YoutubeEmbed <==> sourceType == "youtube_embed"
    ensures k == Direct <==> sourceType == "direct"
    ensures k == Iframe <==> sourceType in IframeTypes
    ensures k == Unsupported <==>
              sourceType !in ["youtube_live", "youtube_embed", "direct"] + IframeTypes
  {
    if sourceType == "youtube_live" then YoutubeLive
    else if sourceType == "youtube_embed" then YoutubeEmbed
    else if sourceType == "direct" then Direct
    else if sourceType in IframeTypes then Iframe
    else Unsupported
  }

  /** `channel.get('source_type', '')`. */
  function SourceType(ch: Channel): string {
    Get(ch.fields, "source_type", "")
  }

  /** `stream_url` after the dispatch, `None` standing for every falsy value. Every
      handler but the unsupported one first reads `channel['scrape_config']`. */
  function ResolveUrl(ch: Channel, fetch: Fetch): (r: Except<Option<string>>)
    ensures KindOf(SourceType(ch)) == Unsupported ==> r == Ok(None)
    ensures r.Raise? <==> KindOf(SourceType(ch)) != Unsupported && ch.config.None?
    ensures r.Raise? ==> r.error == KeyError("scrape_config")
    ensures r.Ok? && r.value.Some? ==> r.value.value != ""
    ensures r.Ok? && r.value.Some? && KindOf(SourceType(ch)) == Iframe ==> "http" <= r.value.value
    ensures KindOf(SourceType(ch)) == Direct && ch.config.Some? ==>
              (r.value.Some? <==> Get(ch.config.value, "url", "") != "") &&
              (r.value.Some? ==> r.value.value == ch.config.value["url"])
    ensures ch.config.Some? && KindOf(SourceType(ch)) == YoutubeLive ==> r == Ok(ScrapeYoutubeLive(ch.config.value, fetch))
    ensures ch.config.Some? && KindOf(SourceType(ch)) == YoutubeEmbed ==> r == Ok(ScrapeYoutubeEmbed(ch.config.value, fetch))
    ensures ch.config.Some? && KindOf(SourceType(ch)) == Iframe ==> r == Ok(ScrapeIframeStream(ch.config.value))
  {
    var kind := KindOf(SourceType(ch));
    if kind == Unsupported then Ok(None)
    else if ch.config.None? then Raise(KeyError("scrape_config"))
    else
      var config := ch.config.value;
      match kind
      case YoutubeLive => Ok(ScrapeYoutubeLive(config, fetch))
      case YoutubeEmbed => Ok(ScrapeYoutubeEmbed(config, fetch))
      case Direct =>
        var u := Get(config, "url", "");
        Ok(if u == "" then None else Some(u))
      case Iframe => Ok(ScrapeIframeStream(config))
  }

  /** The first of `id`, `category`, `logo` that the channel lacks, in the order the
      record literal reads them. */
  function MissingRecordKey(fields: map<string, string>): (r: Option<string>)
    ensures r.None? <==> "id" in fields && "category" in fields && "logo" in fields
    ensures r.Some? ==> r.value in ["id", "category", "logo"] && r.value !in fields
    ensures r == Some("category") ==> "id" in fields
    ensures r == Some("logo") ==> "id" in fields && "category" in fields
  {
    if "id" !in fields then Some("id")
    else if "category" !in fields then Some("category")
    else if "logo" !in fields then Some("logo")
    else None
  }

  /** The dictionary literal of `self.streams.append(...)`. */
  function Record(ch: Channel, url: string, stamp: string): (r: Except<Stream>)
    requires "name" in ch.fields
    ensures r.Raise? <==> MissingRecordKey(ch.fields).Some?
    ensures r.Raise? ==> r.error == KeyError(MissingRecordKey(ch.fields).value)
    ensures r.Ok? ==>
              var f := ch.fields;
              var s := r.value;
              s.id == f["id"] && s.name == f["name"] && s.category == f["category"] &&
              s.logo == f["logo"] && s.url == url && s.sourceType == SourceType(ch) &&
              s.updatedAt == stamp
    ensures r.Ok? ==> r.value.nameBn == (if "name_bn" in ch.fields then ch.fields["name_bn"] else ch.fields["name"])
    ensures r.Ok? ==> r.value.country == (if "country" in ch.fields then ch.fields["country"] else "International")
  {
    var f := ch.fields;
    match MissingRecordKey(f)
    case Some(key) => Raise(KeyError(key))
    case None =>
      Ok(Stream(
        id := f["id"],
        name := f["name"],
        nameBn := Get(f, "name_bn", f["name"]),
        country := Get(f, "country", "International"),
        category := f["category"],
        logo := f["logo"],
        url := url,
        sourceType := SourceType(ch),
        updatedAt := stamp))
  }

  /** One pass of the loop body: `channel['name']` is read first (for the progress
      line), then the URL is resolved, then the record is built when the URL is
      truthy. `Ok(None)` is a failed channel. */
  function ScrapeChannel(ch: Channel, fetch: Fetch, stamp: string): (r: Except<Option<Stream>>)
    ensures "name" !in ch.fields ==> r == Raise(KeyError("name"))
    ensures "name" in ch.fields && KindOf(SourceType(ch)) == Unsupported ==> r == Ok(None)
    ensures r.Ok? && r.value.Some? ==>
              "name" in ch.fields && ResolveUrl(ch, fetch) == Ok(Some(r.value.value.url)) &&
              Record(ch, r.value.value.url, stamp) == Ok(r.value.value)
    ensures "name" in ch.fields && ResolveUrl(ch, fetch).Ok? && ResolveUrl(ch, fetch).value.Some? ==>
              r == (match Record(ch, ResolveUrl(ch, fetch).value.value, stamp)
                    case Ok(s) => Ok(Some(s))
                    case Raise(e) => Raise(e))
    ensures r == Ok(None) <==> "name" in ch.fields && ResolveUrl(ch, fetch) == Ok(None)
  {
    if "name" !in ch.fields then Raise(KeyError("name"))
    else
      match ResolveUrl(ch, fetch)
      case Raise(e) => Raise(e)
      case Ok(None) => Ok(None)
      case Ok(Some(url)) =>
        match Record(ch, url, stamp)
        case Raise(e) => Raise(e)
        case Ok(s) => Ok(Some(s))
  }

  /** What the loop over `channels` reaches: the outcome of each channel, stamped by
      its position. */
  function Outcomes(channels: seq<Channel>, fetch: Fetch, clock: nat -> string): (r: seq<Except<Option<Stream>>>)
    ensures |r| == |channels|
    ensures forall i | 0 <= i < |channels| :: r[i] == ScrapeChannel(channels[i], fetch, clock(i))
  {
    seq(|channels|, i requires 0 <= i < |channels| => ScrapeChannel(channels[i], fetch, clock(i)))
  }

  /** The streams a run of outcomes appends, in order. */
  function Kept(outs: seq<Except<Option<Stream>>>): seq<Stream>
    decreases |outs|
  {
    if outs == [] then []
    else
      var last := outs[|outs| - 1];
      Kept(outs[..|outs| - 1]) + (if last.Ok? && last.value.Some? then [last.value.value] else [])
  }

  /** How many outcomes are failed channels. */
  function Failed(outs: seq<Except<Option<Stream>>>): nat
    decreases |outs|
  {
    if outs == [] then 0
    else Failed(outs[..|outs| - 1]) + (if outs[|outs| - 1] == Ok(None) then 1 else 0)
  }

  /** The result of a completed `scrape_all`. */
  datatype Run = Run(streams: seq<Stream>, succeeded: nat, failed: nat)

  /** One more outcome extends `Kept` and `Failed` by what it contributes. */
  lemma KeptStep(outs: seq<Except<Option<Stream>>>, i: nat)
    requires i < |outs| && outs[i].Ok?
    ensures Kept(outs[..i + 1]) == Kept(outs[..i]) + (if outs[i].value.Some? then [outs[i].value.value] else [])
    ensures Failed(outs[..i + 1]) == Failed(outs[..i]) + (if outs[i].value.None? then 1 else 0)
  {
    assert outs[..i + 1][..i] == outs[..i];
  }

  /** The loop of `scrape_all` over the channels' outcomes, in order: a raised
      `KeyError` ends it, a stream is appended and counted, a failure is counted.
      `after` is `self.streams` once the loop has ended, either way: the records
      appended before an exception stay appended. */
  method Collect(prior: seq<Stream>, outs: seq<Except<Option<Stream>>>) returns (r: Except<Run>, after: seq<Stream>)
    ensures r.Ok? <==> forall i | 0 <= i < |outs| :: outs[i].Ok?
    ensures r.Raise? ==>
              exists j | 0 <= j < |outs| ::
                outs[j] == Raise(r.error) && (forall i | 0 <= i < j :: outs[i].Ok?) &&
                after == prior + Kept(outs[..j])
    ensures r.Ok? ==> after == r.value.streams
    ensures r.Ok? ==> r.value.streams == prior + Kept(outs) &&
                      r.value.succeeded == |Kept(outs)| &&
                      r.value.failed == Failed(outs)
    ensures r.Ok? ==> r.value.succeeded + r.value.failed == |outs|
  {
    var streams := prior;
    var succeeded, failed := 0, 0;
    for i := 0 to |outs|
      invariant forall j | 0 <= j < i :: outs[j].Ok?
      invariant streams == prior + Kept(outs[..i])
      invariant succeeded == |Kept(outs[..i])|
      invariant failed == Failed(outs[..i])
      invariant succeeded + failed == i
    {
      match outs[i]
      case Raise(e) =>
        return Raise(e), streams;
      case Ok(None) =>
        KeptStep(outs, i);
        failed := failed + 1;
      case Ok(Some(s)) =>
        KeptStep(outs, i);
        streams := streams + [s];
        succeeded := succeeded + 1;
    }
    assert outs[..|outs|] == outs;
    return Ok(Run(streams, succeeded, failed)), streams;
  }

  /** `scrape_all()` on a scraper whose `self.streams` already holds `prior`: the
      returned list or the exception raised, and `self.streams` afterwards. */
  method ScrapeAll(prior: seq<Stream>, channels: seq<Channel>, fetch: Fetch, clock: nat -> string)
    returns (r: Except<Run>, after: seq<Stream>)
    ensures r.Ok? <==> forall i | 0 <= i < |channels| :: ScrapeChannel(channels[i], fetch, clock(i)).Ok?
    ensures r.Raise? ==>
              exists j | 0 <= j < |channels| ::
                ScrapeChannel(channels[j], fetch, clock(j)) == Raise(r.error) &&
                (forall i | 0 <= i < j :: ScrapeChannel(channels[i], fetch, clock(i)).Ok?) &&
                after == prior + Kept(Outcomes(channels, fetch, clock)[..j])
    ensures r.Ok? ==> r.value.streams == prior + Kept(Outcomes(channels, fetch, clock))
    ensures r.Ok? ==> after == r.value.streams
    ensures r.Ok? ==> r.value.succeeded + r.value.failed == |channels|
  {
    var outs := Outcomes(channels, fetch, clock);
    r, after := Collect(prior, outs);
  }

  /** Every kept stream is the record of one of the outcomes. */
  lemma {:induction false} KeptFromOutcomes(outs: seq<Except<Option<Stream>>>, s: Stream)
    requires s in Kept(outs)
    ensures exists i | 0 <= i < |outs| :: outs[i] == Ok(Some(s))
    decreases |outs|
  {
    var n := |outs| - 1;
    var front := outs[..n];
    if s in Kept(front) {
      KeptFromOutcomes(front, s);
      var i :| 0 <= i < |front| && front[i] == Ok(Some(s));
      assert outs[i] == front[i];
    } else {
      assert outs[n] == Ok(Some(s));
    }
  }

  /** Every stream `scrape_all` adds has a truthy URL, a `source_type` that has a
      handler, and, for the two iframe types, a URL that starts with `http`. */
  lemma KeptStreamsAreUsable(channels: seq<Channel>, fetch: Fetch, clock: nat -> string, s: Stream)
    requires s in Kept(Outcomes(channels, fetch, clock))
    ensures s.url != ""
    ensures KindOf(s.sourceType) != Unsupported
    ensures KindOf(s.sourceType) == Iframe ==> "http" <= s.url
  {
    var outs := Outcomes(channels, fetch, clock);
    KeptFromOutcomes(outs, s);
    var i :| 0 <= i < |outs| && outs[i] == Ok(Some(s));
    var ch := channels[i];
    assert ScrapeChannel(ch, fetch, clock(i)) == Ok(Some(s));
    assert ResolveUrl(ch, fetch) == Ok(Some(s.url));
    assert s.sourceType == SourceType(ch);
  }

  /** A channel whose `source_type` has no handler never becomes a stream, whatever
      its other keys (as long as it has a name). */
  lemma UnsupportedChannelFails(ch: Channel, fetch: Fetch, stamp: string)
    requires "name" in ch.fields
    requires SourceType(ch) !in ["youtube_live", "youtube_embed", "direct", "mcaster_iframe", "stmify_iframe"]
    ensures ScrapeChannel(ch, fetch, stamp) == Ok(None)
  {
    assert ["youtube_live", "youtube_embed", "direct"] + IframeTypes ==
           ["youtube_live", "youtube_embed", "direct", "mcaster_iframe", "stmify_iframe"];
  }

  /** A `direct` channel with a non-empty `scrape_config.url` becomes a stream with
      exactly that URL and the documented defaults. */
  lemma DirectChannelStream(ch: Channel, fetch: Fetch, stamp: string)
    requires SourceType(ch) == "direct"
    requires "name" in ch.fields && "id" in ch.fields && "category" in ch.fields && "logo" in ch.fields
    requires "name_bn" !in ch.fields && "country" !in ch.fields
    requires ch.config.Some? && Get(ch.config.value, "url", "") != ""
    ensures ScrapeChannel(ch, fetch, stamp).Ok?
    ensures var o := ScrapeChannel(ch, fetch, stamp).value;
            o.Some? && o.value.url == ch.config.value["url"] &&
            o.value.nameBn == ch.fields["name"] && o.value.country == "International"
  {
  }
}
