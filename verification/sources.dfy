/** The stream-source handlers of `StreamScraper` (scraper/scraper.py): the iframe URL
    fix-up, the YouTube embed id, and the two page-text extractions behind the
    YouTube handlers. Page fetches are a parameter: `fetch(url)` is the text of the
    response, or `None` when the request raised.
 */
module Sources {
  import opened Wrappers
  import opened Text
  import opened Patterns

  /** A `scrape_config` object: string keys to string values. */
  type Fields = map<string, string>

  /** An HTTP GET: the response text, or `None` when the request raised. */
  type Fetch = string -> Option<string>

  /** `d.get(key, default)`. */
  function Get(d: Fields, key: string, default: string): string {
    if key in d then d[key] else default
  }

  // ---------------------------------------------------------------------------
  // iframe sources

  /** The protocol fix-up of `scrape_iframe_stream`: an empty URL gives `None`, a
      protocol-relative `//host/...` gets `https:`, anything else not starting with
      `http` gets `https://`. */
  function NormalizeIframeUrl(u: string): (r: Option<string>)
    ensures r.None? <==> u == ""
    ensures r.Some? ==> "http" <= r.value
    ensures r.Some? ==> |u| <= |r.value| && r.value[|r.value| - |u|..] == u
    ensures "http" <= u ==> r == Some(u)
    ensures u != "" && !("http" <= u) ==>
              r == Some("https://" + (if "//" <= u then u[2..] else u))
  {
    if u == "" then None
    else if "//" <= u then
      var r := "https:" + u;
      assert r == "https://" + u[2..] by {
        assert u == "//" + u[2..];
      }
      assert r[|r| - |u|..] == u;
      assert "http" <= r;
      assert !("http" <= u) by { assert u[1] == '/'; }
      Some(r)
    else if !("http" <= u) then Some("https://" + u)
    else Some(u)
  }

  /** The fix-up is idempotent: a fixed URL is left alone. */
  lemma NormalizeIframeIdempotent(u: string)
    requires u != ""
    ensures NormalizeIframeUrl(NormalizeIframeUrl(u).value) == NormalizeIframeUrl(u)
  {
  }

  /** `scrape_iframe_stream(config, source_type)`. */
  function ScrapeIframeStream(config: Fields): (r: Option<string>)
    ensures r.None? <==> Get(config, "iframe_url", "") == ""
    ensures r.Some? ==> "http" <= r.value
    ensures r == NormalizeIframeUrl(Get(config, "iframe_url", ""))
  {
    NormalizeIframeUrl(Get(config, "iframe_url", ""))
  }

  // ---------------------------------------------------------------------------
  // YouTube embed id

  /** `/embed/([a-zA-Z0-9_-]+)`. */
  const EmbedIdPattern := SinglePattern("/embed/", IdChar, None)

  /** The video id of `re.search(r'/embed/([a-zA-Z0-9_-]+)', url)`: the longest run of
      id characters after the first `/embed/` that is followed by one. */
  function EmbedVideoId(url: string): (r: Option<string>)
    ensures r.None? <==> forall m :: !IsSingleMatch(url, EmbedIdPattern, m)
    ensures r.Some? ==> r.value != "" && AllIn(IdChar, r.value) && Contains(url, "/embed/" + r.value)
    ensures r.Some? ==> exists m :: IsLeftmostSingleMatch(url, EmbedIdPattern, m) && m.group == r.value
  {
    match SearchSingle(url, EmbedIdPattern)
    case None => None
    case Some(m) =>
      assert IsLeftmostSingleMatch(url, EmbedIdPattern, m);
      assert OccursAt(url, m.start, "/embed/" + m.group) by {
        var a := m.start + 7;
        assert url[m.start..a + |m.group|] == url[m.start..a] + url[a..a + |m.group|];
      }
      Some(m.group)
  }

  /** `https://www.youtube.com/embed/<id>`. */
  function YoutubeEmbedUrl(id: string): string {
    YoutubeEmbedPrefix + id
  }

  const YoutubeEmbedPrefix := "https://www.youtube.com/embed/"

  /** The only `/e` of `YoutubeEmbedPrefix` is the one of its `/embed/`. */
  lemma OnlySlashEAt23(i: nat)
    requires i < 23
    ensures !(YoutubeEmbedPrefix[i] == '/' && YoutubeEmbedPrefix[i + 1] == 'e')
  {
  }

  /** No `/embed/` match starts before the path of a YouTube embed URL. */
  lemma NoEmbedMatchInHost(s: string, m: SingleMatch)
    requires YoutubeEmbedPrefix <= s
    requires IsSingleMatch(s, EmbedIdPattern, m)
    ensures m.start >= 23
  {
    var i := m.start;
    assert s[i..i + 7] == "/embed/";
    assert s[i] == '/' && s[i + 1] == 'e' by {
      assert s[i] == s[i..i + 7][0] && s[i + 1] == s[i..i + 7][1];
    }
    if i < 23 {
      assert s[i] == YoutubeEmbedPrefix[i] && s[i + 1] == YoutubeEmbedPrefix[i + 1];
      OnlySlashEAt23(i);
    }
  }

  /** Round trip: the id of a YouTube embed URL, followed by anything that does not
      continue the id (a query, a fragment), is extracted unchanged. */
  lemma EmbedVideoIdRoundTrip(id: string, rest: string)
    requires id != "" && AllIn(IdChar, id)
    requires rest == [] || !InClass(IdChar, rest[0])
    ensures EmbedVideoId(YoutubeEmbedUrl(id) + rest) == Some(id)
  {
    var s := YoutubeEmbedUrl(id) + rest;
    var m := SingleMatch(23, id);
    assert s == "https://www.youtube.com" + "/embed/" + id + rest;
    assert s[23..30] == "/embed/";
    assert s[30..30 + |id|] == id;
    assert 30 + |id| < |s| ==> s[30 + |id|] == rest[0];
    assert IsSingleMatch(s, EmbedIdPattern, m);
    assert YoutubeEmbedPrefix <= s;
    forall m' | IsSingleMatch(s, EmbedIdPattern, m')
      ensures m.start <= m'.start
    {
      NoEmbedMatchInHost(s, m');
    }
    SearchSingleFindsLeftmost(s, EmbedIdPattern, m);
  }

  // ---------------------------------------------------------------------------
  // Page-text extraction

  /** `"<key>":"([^"]+)"`. */
  function QuotedPattern(key: string): SinglePattern {
    SinglePattern("\"" + key + "\":\"", AnyBut('"'), Some('"'))
  }

  /** The captured value of `re.search(r'"<key>":"([^"]+)"', text)`. */
  function QuotedValue(text: string, key: string): (r: Option<string>)
    ensures QuotedPattern(key).Valid()
    ensures r.None? <==> forall m :: !IsSingleMatch(text, QuotedPattern(key), m)
    ensures r.Some? ==> r.value != "" && '"' !in r.value
    ensures r.Some? ==> exists m :: IsLeftmostSingleMatch(text, QuotedPattern(key), m) && m.group == r.value
  {
    match SearchSingle(text, QuotedPattern(key))
    case None => None
    case Some(m) =>
      assert IsLeftmostSingleMatch(text, QuotedPattern(key), m);
      assert forall k | 0 <= k < |m.group| :: m.group[k] != '"' by {
        assert AllIn(AnyBut('"'), m.group);
      }
      Some(m.group)
  }

  /** Round trip: a page that opens with the JSON member `"<key>":"<v>"` yields `v`. */
  lemma QuotedValueRoundTrip(key: string, v: string, rest: string)
    requires v != "" && '"' !in v
    ensures QuotedValue("\"" + key + "\":\"" + v + "\"" + rest, key) == Some(v)
  {
    var p := QuotedPattern(key);
    var s := "\"" + key + "\":\"" + v + "\"" + rest;
    var a := |p.prefix|;
    assert s == p.prefix + v + "\"" + rest;
    assert s[0..a] == p.prefix;
    assert s[a..a + |v|] == v;
    assert s[a + |v|] == '"';
    assert AllIn(AnyBut('"'), v) by {
      forall k | 0 <= k < |v| ensures v[k] != '"' {
        assert v[k] in v;
      }
    }
    var m := SingleMatch(0, v);
    assert IsSingleMatch(s, p, m);
    SearchSingleFindsLeftmost(s, p, m);
  }

  /** The six characters backslash, `u0026`: the JSON escape YouTube writes for `&`. */
  const EscapedAmp := "\\u0026"

  /** `s.replace('\\u0026', '&')`: every `EscapedAmp`, scanning left to right,
      becomes `&`. */
  function Unescape(s: string): (r: string)
    ensures |r| <= |s|
    ensures s != "" ==> r != ""
    ensures '"' !in s ==> '"' !in r
  {
    if s == "" then ""
    else if EscapedAmp <= s then
      assert forall k | 6 <= k < |s| :: s[k] == s[6..][k - 6];
      "&" + Unescape(s[6..])
    else
      assert forall k | 1 <= k < |s| :: s[k] == s[1..][k - 1];
      [s[0]] + Unescape(s[1..])
  }

  /** The replacement never starts with an `EscapedAmp`. */
  lemma UnescapeNoLeadingEscape(s: string)
    requires s != ""
    ensures !OccursAt(Unescape(s), 0, EscapedAmp)
  {
    var r := Unescape(s);
    if EscapedAmp <= s {
      assert r == "&" + Unescape(s[6..]);
      assert r[0] != EscapedAmp[0];
    } else {
      var tail := Unescape(s[1..]);
      assert r == [s[0]] + tail;
      if s[0] == '\\' {
        assert !("u0026" <= s[1..]);
        assert !("u0026" <= tail) by {
          if "u0026" <= tail {
            UnescapePrefix(s[1..], "u0026");
          }
        }
        assert |r| < 6 || r[1..6] == tail[..5];

      } else {
        assert r[0] != EscapedAmp[0];
      }
    }
  }

  /** A text spells `EscapedAmp` only at its start or inside its tail. */
  lemma NoEscapeFromTail(r: string, tail: string)
    requires r != "" && r[1..] == tail
    requires !OccursAt(r, 0, EscapedAmp) && !Contains(tail, EscapedAmp)
    ensures !Contains(r, EscapedAmp)
  {
    forall i | 1 <= i <= |r| && OccursAt(r, i, EscapedAmp)
      ensures OccursAt(tail, i - 1, EscapedAmp)
    {
      assert r[i..i + 6] == tail[i - 1..i + 5];
    }
  }

  /** No `EscapedAmp` survives the replacement: an `&` it writes cannot be part of one. */
  lemma {:induction false} UnescapeLeavesNoEscape(s: string)
    ensures !Contains(Unescape(s), EscapedAmp)
    decreases |s|
  {
    if s != "" {
      var r := Unescape(s);
      var k := if EscapedAmp <= s then 6 else 1;
      UnescapeLeavesNoEscape(s[k..]);
      UnescapeNoLeadingEscape(s);
      assert r[1..] == Unescape(s[k..]);
      NoEscapeFromTail(r, Unescape(s[k..]));
    }
  }

  /** Text that never spells `EscapedAmp` comes back unchanged, whatever `&` it holds. */
  lemma {:induction false} UnescapeWithoutEscape(s: string)
    requires !Contains(s, EscapedAmp)
    ensures Unescape(s) == s
    decreases |s|
  {
    if s != "" {
      assert !(EscapedAmp <= s) by { assert !OccursAt(s, 0, EscapedAmp); }
      assert !Contains(s[1..], EscapedAmp) by {
        forall i | 0 <= i <= |s[1..]| && OccursAt(s[1..], i, EscapedAmp)
          ensures OccursAt(s, i + 1, EscapedAmp)
        {
          assert s[1..][i..i + 6] == s[i + 1..i + 7];
        }
      }
      UnescapeWithoutEscape(s[1..]);
    }
  }

  /** What `Unescape` starts with, the input started with, as long as it has no `&`. */
  lemma {:induction false} UnescapePrefix(t: string, p: string)
    requires '&' !in p
    requires p <= Unescape(t)
    ensures p <= t
    decreases |t|
  {
    if p != [] {
      var u := Unescape(t);
      assert t != "";
      assert p[0] == u[0] && p[0] in p;
      assert !(EscapedAmp <= t);
      assert u == [t[0]] + Unescape(t[1..]);
      assert p[1..] <= Unescape(t[1..]);
      UnescapePrefix(t[1..], p[1..]);
    }
  }

  /** The JSON-style escape that `Unescape` undoes: every `&` written as `EscapedAmp`. */
  function Escape(u: string): (r: string)
    ensures '&' !in r
    ensures '"' !in u ==> '"' !in r
    ensures |r| >= |u|
  {
    if u == "" then ""
    else if u[0] == '&' then EscapedAmp + Escape(u[1..])
    else [u[0]] + Escape(u[1..])
  }

  /** A leading `&` is escaped and comes back as the first character. */
  lemma UnescapeEscapeAmp(u: string)
    requires u != "" && u[0] == '&'
    ensures Unescape(Escape(u)) == "&" + Unescape(Escape(u[1..]))
  {
    var e := Escape(u);
    assert e == EscapedAmp + Escape(u[1..]);
    assert EscapedAmp <= e;
    assert e[6..] == Escape(u[1..]);
  }

  /** Any other leading character is copied: without a backslash it cannot start an
      `EscapedAmp`. */
  lemma UnescapeEscapeOther(u: string)
    requires u != "" && u[0] != '&' && u[0] != '\\'
    ensures Unescape(Escape(u)) == [u[0]] + Unescape(Escape(u[1..]))
  {
    var e := Escape(u);
    assert e == [u[0]] + Escape(u[1..]);
    assert e[0] != EscapedAmp[0];
    assert e[1..] == Escape(u[1..]);
  }

  /** Unescaping undoes escaping, for any text without a backslash (a URL has none). */
  lemma {:induction false} UnescapeEscape(u: string)
    requires '\\' !in u
    ensures Unescape(Escape(u)) == u
    decreases |u|
  {
    if u != "" {
      assert '\\' !in u[1..] by { assert forall k | 1 <= k < |u| :: u[1..][k - 1] == u[k]; }
      UnescapeEscape(u[1..]);
      if u[0] == '&' {
        UnescapeEscapeAmp(u);
      } else {
        assert u[0] in u;
        UnescapeEscapeOther(u);
      }
      assert u == [u[0]] + u[1..];
    }
  }

  /** Escaping undoes unescaping, for any text without a literal `&`. */
  lemma {:induction false} EscapeUnescape(s: string)
    requires '&' !in s
    ensures Escape(Unescape(s)) == s
    decreases |s|
  {
    if s != "" {
      if EscapedAmp <= s {
        assert '&' !in s[6..] by { assert forall k | 6 <= k < |s| :: s[k] == s[6..][k - 6]; }
        EscapeUnescape(s[6..]);
        assert s == EscapedAmp + s[6..];
      } else {
        assert '&' !in s[1..] by { assert forall k | 1 <= k < |s| :: s[k] == s[1..][k - 1]; }
        EscapeUnescape(s[1..]);
        assert s == [s[0]] + s[1..];
      }
    }
  }

  // ---------------------------------------------------------------------------
  // YouTube handlers

  function ChannelLiveUrl(channelId: string): string {
    "https://www.youtube.com/channel/" + channelId + "/live"
  }

  function WatchUrl(videoId: string): string {
    "https://www.youtube.com/watch?v=" + videoId
  }

  /** `extract_youtube_m3u8(video_id)`: fetch the watch page, take its
      `hlsManifestUrl`, and undo the `EscapedAmp` escapes. */
  function ExtractYoutubeM3u8(videoId: string, fetch: Fetch): (r: Option<string>)
    ensures r.Some? ==> fetch(WatchUrl(videoId)).Some?
    ensures r.Some? <==> fetch(WatchUrl(videoId)).Some? && QuotedValue(fetch(WatchUrl(videoId)).value, "hlsManifestUrl").Some?
    ensures r.Some? ==> r.value != "" && '"' !in r.value && !Contains(r.value, EscapedAmp)
    ensures r.Some? ==> r.value == Unescape(QuotedValue(fetch(WatchUrl(videoId)).value, "hlsManifestUrl").value)
  {
    match fetch(WatchUrl(videoId))
    case None => None
    case Some(page) =>
      match QuotedValue(page, "hlsManifestUrl")
      case None => None
      case Some(u) =>
        UnescapeLeavesNoEscape(u);
        Some(Unescape(u))
  }

  /** `scrape_youtube_live(config)`: a channel id is required; its live page names
      the video whose manifest is extracted. */
  function ScrapeYoutubeLive(config: Fields, fetch: Fetch): (r: Option<string>)
    ensures Get(config, "youtube_channel_id", "") == "" ==> r.None?
    ensures r.Some? ==> fetch(ChannelLiveUrl(config["youtube_channel_id"])).Some?
    ensures r.Some? ==>
              var page := fetch(ChannelLiveUrl(config["youtube_channel_id"])).value;
              QuotedValue(page, "videoId").Some? && r == ExtractYoutubeM3u8(QuotedValue(page, "videoId").value, fetch)
    ensures var id := Get(config, "youtube_channel_id", "");
            id != "" && fetch(ChannelLiveUrl(id)).Some? && QuotedValue(fetch(ChannelLiveUrl(id)).value, "videoId").Some? ==>
              r == ExtractYoutubeM3u8(QuotedValue(fetch(ChannelLiveUrl(id)).value, "videoId").value, fetch)
    ensures r.Some? ==> r.value != "" && '"' !in r.value && !Contains(r.value, EscapedAmp)
  {
    var channelId := Get(config, "youtube_channel_id", "");
    if channelId == "" then None
    else
      match fetch(ChannelLiveUrl(channelId))
      case None => None
      case Some(page) =>
        match QuotedValue(page, "videoId")
        case None => None
        case Some(videoId) => ExtractYoutubeM3u8(videoId, fetch)
  }

  /** `scrape_youtube_embed(config)`: the id in the configured embed URL names the
      video whose manifest is extracted. */
  function ScrapeYoutubeEmbed(config: Fields, fetch: Fetch): (r: Option<string>)
    ensures EmbedVideoId(Get(config, "youtube_embed_url", "")).None? ==> r.None?
    ensures EmbedVideoId(Get(config, "youtube_embed_url", "")).Some? ==>
              r == ExtractYoutubeM3u8(EmbedVideoId(Get(config, "youtube_embed_url", "")).value, fetch)
    ensures r.Some? ==> r.value != "" && '"' !in r.value && !Contains(r.value, EscapedAmp)
  {
    match EmbedVideoId(Get(config, "youtube_embed_url", ""))
    case None => None
    case Some(videoId) => ExtractYoutubeM3u8(videoId, fetch)
  }

  /** A page opening with the `hlsManifestUrl` member yields that member's text. */
  lemma ManifestMemberValue(e: string, rest: string)
    requires e != "" && '"' !in e
    ensures QuotedValue("\"hlsManifestUrl\":\"" + e + "\"" + rest, "hlsManifestUrl") == Some(e)
  {
    var lit := "\"hlsManifestUrl\":\"";
    assert lit == "\"" + "hlsManifestUrl" + "\":\"";
    QuotedValueRoundTrip("hlsManifestUrl", e, rest);
  }

  /** End to end: when the watch page carries the manifest URL `u` as YouTube writes
      it (escaped, in a `"hlsManifestUrl"` member), the extraction returns `u`. */
  lemma ExtractRecoversManifest(videoId: string, fetch: Fetch, u: string, rest: string)
    requires u != "" && '"' !in u && '\\' !in u
    requires fetch(WatchUrl(videoId)) == Some("\"hlsManifestUrl\":\"" + Escape(u) + "\"" + rest)
    ensures ExtractYoutubeM3u8(videoId, fetch) == Some(u)
  {
    var e := Escape(u);
    ManifestMemberValue(e, rest);
    UnescapeEscape(u);
  }
}
