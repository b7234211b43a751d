/** `TelegramVideoConverter.convert_telegram_link` (scraper/video_converter.py): classify
    a Telegram post link or a direct video file link and rewrite it into the embed
    and preview URLs the video pages use.
 */
module Telegram {
  import opened Wrappers
  import opened Text
  import opened Patterns

  /** `t\.me/([^/]+)/(\d+)`: a public channel post. */
  const PublicPost := PairPattern("t.me/", AnyBut('/'))
  /** `t\.me/c/(\d+)/(\d+)`: a private channel post. */
  const PrivatePost := PairPattern("t.me/c/", Digit)
  /** `telegram\.me/([^/]+)/(\d+)`: a public channel post on the long domain. */
  const LongDomainPost := PairPattern("telegram.me/", AnyBut('/'))

  /** The patterns in the order the converter tries them. */
  const LinkPatterns: seq<PairPattern> := [PublicPost, PrivatePost, LongDomainPost]

  /** File extensions that mark a direct video link. */
  const VideoExtensions: seq<string> := [".mp4", ".mkv", ".avi"]

  const EmbedQuery := "?embed=1&mode=tme"

  datatype VideoKind = TelegramEmbed | DirectVideo {
    /** The `type` string stored with a converted link. */
    function Name(): string {
      match this
      case TelegramEmbed => "telegram_embed"
      case DirectVideo => "direct_video"
    }
  }

  /** The dictionary `convert_telegram_link` returns. */
  datatype Conversion = Conversion(original: string, embedUrl: string, previewUrl: string, kind: VideoKind)

  /** Which pattern of a list matched, and its leftmost match. */
  datatype LinkHit = LinkHit(pattern: nat, m: PairMatch)

  predicate AllValid(ps: seq<PairPattern>) {
    forall k | 0 <= k < |ps| :: ps[k].Valid()
  }

  /** The first pattern of `ps`, from index `k` on, that matches somewhere in `t`,
      with its leftmost match. */
  function FirstHitFrom(t: string, ps: seq<PairPattern>, k: nat): (r: Option<LinkHit>)
    requires AllValid(ps)
    requires k <= |ps|
    ensures r.Some? ==> k <= r.value.pattern < |ps|
    ensures r.Some? ==> IsPairMatch(t, ps[r.value.pattern], r.value.m)
    ensures r.Some? ==> forall m | IsPairMatch(t, ps[r.value.pattern], m) :: r.value.m.start <= m.start
    ensures r.Some? ==> forall j, m | k <= j < r.value.pattern :: !IsPairMatch(t, ps[j], m)
    ensures r.None? ==> forall j, m | k <= j < |ps| :: !IsPairMatch(t, ps[j], m)
    decreases |ps| - k
  {
    if k == |ps| then None
    else
      match SearchPair(t, ps[k])
      case Some(m) => Some(LinkHit(k, m))
      case None => FirstHitFrom(t, ps, k + 1)
  }

  /** The pattern loop of `convert_telegram_link`: the patterns are tried in list
      order and the first one that matches anywhere in `t` wins, with its leftmost
      match. */
  function FirstLinkHit(t: string): (r: Option<LinkHit>)
    ensures r.Some? ==> r.value.pattern < |LinkPatterns|
    ensures r.Some? ==> IsPairMatch(t, LinkPatterns[r.value.pattern], r.value.m)
    ensures r.Some? ==> forall m | IsPairMatch(t, LinkPatterns[r.value.pattern], m) :: r.value.m.start <= m.start
    ensures r.Some? ==> forall j, m | 0 <= j < r.value.pattern :: !IsPairMatch(t, LinkPatterns[j], m)
    ensures r.None? <==> forall j, m | 0 <= j < |LinkPatterns| :: !IsPairMatch(t, LinkPatterns[j], m)
  {
    FirstHitFrom(t, LinkPatterns, 0)
  }

  /** `https://t.me/<channel>/<post>`. */
  function PreviewUrl(channel: string, post: string): (r: string)
    ensures "https://t.me/" <= r
  {
    "https://t.me/" + channel + "/" + post
  }

  /** The direct-video test: an `http` prefix and a video extension somewhere in the
      lower-cased link. */
  predicate IsDirectVideo(t: string) {
    "http" <= t && exists k | 0 <= k < |VideoExtensions| :: Contains(Lower(t), VideoExtensions[k])
  }

  /** `convert_telegram_link(link)`. */
  function ConvertTelegramLink(link: string): (r: Option<Conversion>)
    ensures link == "" ==> r == None
    ensures r.Some? ==> Strip(link) != "" && r.value.original == Strip(link)
    ensures link != "" ==> (r.Some? && r.value.kind == TelegramEmbed <==> FirstLinkHit(Strip(link)).Some?)
    ensures r.Some? && r.value.kind == TelegramEmbed ==>
              && "https://t.me/" <= r.value.previewUrl
              && r.value.embedUrl == r.value.previewUrl + EmbedQuery
    ensures r.Some? && r.value.kind == DirectVideo ==>
              && FirstLinkHit(Strip(link)).None?
              && IsDirectVideo(Strip(link))
              && r.value.embedUrl == r.value.previewUrl == Strip(link)
    ensures r.None? && link != "" ==> FirstLinkHit(Strip(link)).None? && !IsDirectVideo(Strip(link))
  {
    if link == "" then None
    else
      var t := Strip(link);
      match FirstLinkHit(t)
      case Some(hit) =>
        var preview := PreviewUrl(hit.m.first, hit.m.second);
        Some(Conversion(t, preview + EmbedQuery, preview, TelegramEmbed))
      case None =>
        if IsDirectVideo(t) then Some(Conversion(t, t, t, DirectVideo)) else None
  }

  // ---------------------------------------------------------------------------
  // Properties of the conversion

  /** A link is converted exactly as its stripped form is: surrounding whitespace
      never changes the outcome. */
  lemma ConvertIgnoresSurroundingSpace(link: string)
    ensures ConvertTelegramLink(link) == ConvertTelegramLink(Strip(link))
  {
    StripIdempotent(link);
    if link != "" && Strip(link) == "" {
      assert !("http" <= Strip(link));
    }
  }

  /** Every private-post match `t.me/c/<chat>/<post>` is also a public-post match, at
      the same position, with channel `c` and post `<chat>`. */
  lemma PrivatePostIsPublicPost(t: string, m: PairMatch)
    requires IsPairMatch(t, PrivatePost, m)
    ensures IsPairMatch(t, PublicPost, PairMatch(m.start, "c", m.first))
  {
    PrivatePrefixSplit(t, m.start);
    assert AllIn(AnyBut('/'), "c");
    var b := m.start + 7 + |m.first|;
    assert t[b] == '/';
  }

  /** `t.me/c/` is `t.me/`, the channel `c` and a slash. */
  lemma PrivatePrefixSplit(t: string, i: nat)
    requires i + 7 <= |t| && t[i..i + 7] == "t.me/c/"
    ensures t[i..i + 5] == "t.me/" && t[i + 5..i + 6] == "c" && t[i + 6] == '/'
  {
    var pre := t[i..i + 7];
    assert t[i..i + 5] == pre[..5];
    assert t[i + 5] == pre[5] == 'c';
    assert t[i + 5..i + 6] == [t[i + 5]];
    assert t[i + 6] == pre[6];
  }

  /** The second pattern is dead: whenever it would match, the first one already has,
      so the pattern loop never settles on it. */
  lemma PrivatePatternNeverFires(t: string)
    ensures FirstLinkHit(t).None? || FirstLinkHit(t).value.pattern != 1
  {
    var r := FirstLinkHit(t);
    if r.Some? && r.value.pattern == 1 {
      PrivatePostIsPublicPost(t, r.value.m);
      assert false;
    }
  }

  /** The pattern loop on a private-channel link settles on the first pattern, with
      channel `c` and the chat id as post. */
  lemma PrivateLinkHit()
    ensures FirstLinkHit("t.me/c/123456/789") == Some(LinkHit(0, PairMatch(0, "c", "123456")))
  {
    var t := "t.me/c/123456/789";
    var m := PairMatch(0, "c", "123456");
    assert t == "t.me/" + "c" + "/" + "123456" + "/789";
    assert AllIn(Digit, "123456") by {
      forall k | 0 <= k < 6 ensures InClass(Digit, "123456"[k]) { }
    }
    PublicPostAtStart("c", "123456", "/789");
    SearchPairFindsLeftmost(t, PublicPost, m);
    assert LinkPatterns[0] == PublicPost;
  }

  /** A text that opens with `t.me/<channel>/<post>`, followed by anything that does
      not continue the post id, holds a public-post match at its start. */
  lemma PublicPostAtStart(channel: string, post: string, rest: string)
    requires channel != [] && AllIn(AnyBut('/'), channel)
    requires post != [] && AllIn(Digit, post)
    requires rest == [] || !InClass(Digit, rest[0])
    ensures IsPairMatch("t.me/" + channel + "/" + post + rest, PublicPost, PairMatch(0, channel, post))
  {
    var s := "t.me/" + channel + "/" + post + rest;
    var b := 5 + |channel|;
    var d := b + 1 + |post|;
    assert s[0..5] == "t.me/";
    assert s[5..b] == channel;
    assert s[b] == '/';
    assert s[b + 1..d] == post;
    assert d < |s| ==> s[d] == rest[0];
  }

  /** Consequently a private-channel link is converted with channel `c` and the chat
      id in place of the post id. */
  lemma PrivateLinkExample()
    ensures ConvertTelegramLink("t.me/c/123456/789")
         == Some(Conversion("t.me/c/123456/789",
                            "https://t.me/c/123456?embed=1&mode=tme",
                            "https://t.me/c/123456",
                            TelegramEmbed))
  {
    var t := "t.me/c/123456/789";
    StripTrimmed(t);
    PrivateLinkHit();
    var preview := PreviewUrl("c", "123456");
    assert ConvertTelegramLink(t) == Some(Conversion(t, preview + EmbedQuery, preview, TelegramEmbed));
    PrivatePreviewText();
  }

  lemma PrivatePreviewText()
    ensures PreviewUrl("c", "123456") == "https://t.me/c/123456"
    ensures PreviewUrl("c", "123456") + EmbedQuery == "https://t.me/c/123456?embed=1&mode=tme"
  {
  }

  /** A converted Telegram link names a channel without `/` and a post id of digits,
      taken from the first matching pattern's leftmost match. */
  lemma TelegramEmbedCaptures(link: string)
    requires ConvertTelegramLink(link).Some?
    requires ConvertTelegramLink(link).value.kind == TelegramEmbed
    ensures var hit := FirstLinkHit(Strip(link)).value;
            && hit.m.first != [] && AllIn(AnyBut('/'), hit.m.first)
            && hit.m.second != [] && AllIn(Digit, hit.m.second)
            && ConvertTelegramLink(link).value.previewUrl == PreviewUrl(hit.m.first, hit.m.second)
  {
    var hit := FirstLinkHit(Strip(link)).value;
    var p := LinkPatterns[hit.pattern];
    forall k | 0 <= k < |hit.m.first|
      ensures InClass(AnyBut('/'), hit.m.first[k])
    {
      assert InClass(p.first, hit.m.first[k]);
    }
  }

  /** A preview URL, followed by anything that does not continue its post id, holds a
      public-post match right after `https://`. */
  lemma PreviewUrlMatch(channel: string, post: string, rest: string)
    requires channel != [] && AllIn(AnyBut('/'), channel)
    requires post != [] && AllIn(Digit, post)
    requires rest == [] || !InClass(Digit, rest[0])
    ensures IsPairMatch(PreviewUrl(channel, post) + rest, PublicPost, PairMatch(8, channel, post))
  {
    var s := PreviewUrl(channel, post) + rest;
    var b := 13 + |channel|;
    var d := b + 1 + |post|;
    assert s == "https://t.me/" + channel + "/" + post + rest;
    assert s[8..13] == "t.me/";
    assert s[13..b] == channel;
    assert s[b] == '/';
    assert s[b + 1..d] == post;
    assert d < |s| ==> s[d] == rest[0];
  }

  /** No public-post match starts inside the `https://` of a Telegram URL. */
  lemma NoMatchInScheme(s: string, m: PairMatch)
    requires "https://t.me/" <= s
    requires IsPairMatch(s, PublicPost, m)
    ensures m.start >= 8
  {
    var i := m.start;
    assert s[i..i + 5] == "t.me/";
    assert s[i + 1] == s[i..i + 5][1] == '.';
  }

  /** Hence the leftmost public-post match of such a URL is that one. */
  lemma PreviewUrlSearch(channel: string, post: string, rest: string)
    requires channel != [] && AllIn(AnyBut('/'), channel)
    requires post != [] && AllIn(Digit, post)
    requires rest == [] || !InClass(Digit, rest[0])
    ensures SearchPair(PreviewUrl(channel, post) + rest, PublicPost) == Some(PairMatch(8, channel, post))
  {
    var s := PreviewUrl(channel, post) + rest;
    PreviewUrlMatch(channel, post, rest);
    assert "https://t.me/" <= s;
    forall m' | IsPairMatch(s, PublicPost, m')
      ensures 8 <= m'.start
    {
      NoMatchInScheme(s, m');
    }
    SearchPairFindsLeftmost(s, PublicPost, PairMatch(8, channel, post));
  }

  /** And the pattern loop settles on the first pattern with exactly the preview
      URL's channel and post. */
  lemma PreviewUrlHit(channel: string, post: string, rest: string)
    requires channel != [] && AllIn(AnyBut('/'), channel)
    requires post != [] && AllIn(Digit, post)
    requires rest == [] || !InClass(Digit, rest[0])
    ensures FirstLinkHit(PreviewUrl(channel, post) + rest) == Some(LinkHit(0, PairMatch(8, channel, post)))
  {
    PreviewUrlSearch(channel, post, rest);
    assert LinkPatterns[0] == PublicPost;
  }

  /** A Telegram URL built from a channel and a post converts back to the same
      embed and preview URLs. */
  lemma TelegramUrlStable(channel: string, post: string, rest: string)
    requires channel != [] && AllIn(AnyBut('/'), channel)
    requires post != [] && AllIn(Digit, post)
    requires rest == [] || rest == EmbedQuery
    ensures var u := PreviewUrl(channel, post) + rest;
            ConvertTelegramLink(u)
              == Some(Conversion(u, PreviewUrl(channel, post) + EmbedQuery, PreviewUrl(channel, post), TelegramEmbed))
  {
    var u := PreviewUrl(channel, post) + rest;
    assert u[0] == 'h';
    if rest == [] {
      assert u[|u| - 1] == post[|post| - 1];
    } else {
      assert u[|u| - 1] == 'e';
    }
    StripTrimmed(u);
    PreviewUrlHit(channel, post, rest);
  }

  /** Conversion is stable: converting the embed URL or the preview URL of a converted
      link gives back the same embed and preview URLs and the same kind. */
  lemma ConvertStable(link: string)
    requires ConvertTelegramLink(link).Some?
    ensures var c := ConvertTelegramLink(link).value;
            && ConvertTelegramLink(c.embedUrl) == Some(c.(original := c.embedUrl))
            && ConvertTelegramLink(c.previewUrl) == Some(c.(original := c.previewUrl))
  {
    var c := ConvertTelegramLink(link).value;
    if c.kind == TelegramEmbed {
      TelegramEmbedCaptures(link);
      var hit := FirstLinkHit(Strip(link)).value;
      TelegramUrlStable(hit.m.first, hit.m.second, []);
      assert PreviewUrl(hit.m.first, hit.m.second) + [] == c.previewUrl;
      TelegramUrlStable(hit.m.first, hit.m.second, EmbedQuery);
    } else {
      StripIdempotent(link);
    }
  }
}
