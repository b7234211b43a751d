# tv-streams: the string logic of the scrapers, in Dafny

This project models the deterministic core of the two scraper classes of
tv-streams.

`TelegramVideoConverter` (scraper/video_converter.py) does two jobs:
- It classifies a Telegram post link or a direct video link and rewrites it into
  an embed URL and a preview URL (`convert_telegram_link`).
- It admits anime and movie entries into its catalogue (`add_anime`, `add_movie`).
  On admission it checks the required keys, annotates the converted video URL onto
  episodes or onto the entry, and appends one record.

`StreamScraper` (scraper/scraper.py) turns a list of channel descriptions into
stream records, then into an M3U playlist and a web page. The model covers:
- the per-source handlers: the iframe URL fix-up, the YouTube embed id, and the
  `videoId` / `hlsManifestUrl` extraction from page text with its `\u0026`
  unescape;
- the `source_type` dispatch and record assembly of `scrape_all`;
- the playlist writer `generate_m3u8`;
- the grouping by category and the play-type choice that shape the page.

Modules, one per file:

- `Wrappers`: `Option` and `Except`. `Except` is "returns, or raises a Python
  exception".
- `Text`: Python's `strip`, `lower`, `title` and substring test.
- `Patterns`: the fixed regular expressions as scanners with `re.search` semantics.
  The leftmost match wins and `+` is greedy. Each scanner is proved against a
  declarative "is a match at this position" predicate.
- `Telegram`: `convert_telegram_link`.
- `Json`, `Catalogue`: JSON values with Python truthiness; `add_anime` and
  `add_movie`.
- `Sources`: the iframe and YouTube handlers of `StreamScraper`.
- `Scrape`: `scrape_all`.
- `Playlist`: `generate_m3u8`, and a reader that inverts it.
- `Layout`: the category grouping, the tabs and the play type of
  `generate_index_html`.

Two readings of the code matter.

The YouTube id pattern `/embed/([a-zA-Z0-9_-]+)` does not take the first `/embed/`
in the URL. It takes the first one that is followed by an id character, and the
model does the same.

The second Telegram pattern, `t\.me/c/(\d+)/(\d+)`, can never be the one that
fires. Any text it matches is matched at the same place by the first pattern, with
channel `c`. So a private-channel link `t.me/c/<chat>/<post>` is converted to
`https://t.me/c/<chat>`, and its post id is dropped. The model proves this behaviour
as the code has it.

## Model

| member | source | states |
|---|---|---|
| Text.Strip | scraper/video_converter.py:34 | The result has no whitespace (Python's `isspace` set) at either end, it is empty exactly when the input is all whitespace, and the input is leading whitespace, then the result, then trailing whitespace. |
| Text.StripIdempotent | scraper/video_converter.py:34 | Stripping a stripped link changes nothing. |
| Text.Lower | scraper/video_converter.py:58 | The lower-cased text has no ASCII capital. On ASCII input it has the same length and every letter lowered. |
| Text.Title | scraper/scraper.py:148 | `title()` keeps the length and every non-letter. A letter that starts a word becomes its capital, and a letter that follows a letter becomes its lower case. |
| Patterns.RunEnd | scraper/video_converter.py:38 | A greedy `+` run stops at the first character outside the class: every character before it is in the class. |
| Patterns.MatchPairAtComplete | scraper/video_converter.py:38-40 | Every match of a two-group pattern `prefix(first+)/(\d+)` is the one the position-wise matcher finds where it starts: the captures are determined by the start. |
| Patterns.SearchPair | scraper/video_converter.py:44 | `re.search` of a two-group pattern returns a match that no other match starts before, and returns nothing exactly when there is no match at all. |
| Patterns.SearchPairFindsLeftmost | scraper/video_converter.py:44 | A match that no other match starts before is the one `re.search` returns. |
| Patterns.SearchSingle | scraper/scraper.py:64 | `re.search` of a one-group pattern (`prefix(cls+)`, optionally closed by a character) returns the leftmost match, and nothing exactly when there is none. |
| Patterns.SearchSingleFindsLeftmost | scraper/scraper.py:29 | A match that no other match starts before is the one `re.search` returns. |
| Telegram.FirstLinkHit | scraper/video_converter.py:37-45 | The patterns are tried in list order. The first one that matches anywhere wins, with its leftmost match, and every earlier pattern has no match at all. There is no hit exactly when no pattern matches. |
| Telegram.ConvertTelegramLink | scraper/video_converter.py:22-66 | An empty link gives no result. Otherwise the stripped link is `original`. The result is a Telegram embed exactly when a pattern matches, and then the embed URL is the preview URL plus `?embed=1&mode=tme` and starts with `https://t.me/`. A direct video means no pattern matched, the link starts with `http` and its lower-cased form holds `.mp4`, `.mkv` or `.avi`; all three URLs are then the link. Anything else gives no result. |
| Telegram.ConvertIgnoresSurroundingSpace | scraper/video_converter.py:30-34 | Converting a link and converting its stripped form give the same result. |
| Telegram.PrivatePostIsPublicPost | scraper/video_converter.py:38-39 | Every `t.me/c/<digits>/<digits>` match is, at the same start, a `t.me/<channel>/<digits>` match with channel `c`. |
| Telegram.PrivatePatternNeverFires | scraper/video_converter.py:37-45 | The pattern loop never settles on the second pattern. |
| Telegram.PrivateLinkHit | scraper/video_converter.py:43-47 | On `t.me/c/123456/789` the loop settles on the first pattern, with channel `c` and post `123456`. |
| Telegram.PrivateLinkExample | scraper/video_converter.py:46-55 | `t.me/c/123456/789` converts to embed URL `https://t.me/c/123456?embed=1&mode=tme` and preview URL `https://t.me/c/123456`. |
| Telegram.TelegramEmbedCaptures | scraper/video_converter.py:46-53 | A Telegram conversion's preview URL is built from a non-empty channel without `/` and a non-empty run of digits. |
| Telegram.PreviewUrlHit | scraper/video_converter.py:53 | A preview URL, followed by anything that does not continue its post id, is matched by the first pattern with exactly its channel and post. |
| Telegram.TelegramUrlStable | scraper/video_converter.py:50-55 | Converting a preview URL or an embed URL gives back the same preview and embed URLs. |
| Telegram.ConvertStable | scraper/video_converter.py:22-66 | Converting the embed URL or the preview URL of any converted link reproduces the conversion, except for `original`. |
| Catalogue.ConvertLinkValue | scraper/video_converter.py:30-34 | On a JSON value, a falsy value gives no result, a string is converted, and any other value raises `AttributeError` at `.strip()`. |
| Catalogue.WithVideo | scraper/video_converter.py:105-106 | Annotating sets `video_url` to the embed URL and `video_type` to the type name. It keeps every other key and adds no key besides those two. |
| Catalogue.AnnotateLinked | scraper/video_converter.py:107-111 | An entry with a `telegram_link` is annotated exactly when its link converts. It is unchanged when the link gives no result, and it raises exactly when the conversion raises. |
| Catalogue.AnnotateEpisode | scraper/video_converter.py:102-106 | The `'telegram_link' in episode` test and annotation keep an episode's kind. An object raises exactly when it has a `telegram_link` whose conversion raises. A string raises exactly when it contains `telegram_link`, and a list exactly when it holds that string, since the indexing then fails. A number, a boolean or null raises `TypeError`. Non-objects are never changed. |
| Catalogue.AnnotateEpisodes | scraper/video_converter.py:101-106 | The episode loop succeeds exactly when every episode does. It then keeps the number of episodes and annotates each one independently. |
| Catalogue.AnnotateEpisodeList | scraper/video_converter.py:101-106 | Iterating a string episode list changes nothing. A list succeeds exactly when every episode does, and keeps its length. An object is iterated by key and raises exactly when some key contains `telegram_link`, and is otherwise unchanged. A number, a boolean or null raises. |
| Catalogue.AnnotateAnime | scraper/video_converter.py:99-111 | The annotation adds at most `video_url` and `video_type` and keeps every other key but `episodes`. A `series` with `episodes` succeeds exactly when its episode loop does. On success its `episodes` value is the loop's result, so a string or an object is kept as it is and only a list is annotated, and nothing else changes. A `standalone` entry with a `telegram_link` gains the embed URL and type of its link when the link converts, is unchanged when it gives no result, and fails when the conversion raises. Any other entry, including a series without episodes and a standalone entry without a link, is untouched. |
| Catalogue.AddAnime | scraper/video_converter.py:92-120 | `add_anime` returns `True` exactly when `id`, `name` and `type` are present and the annotation does not raise. Then exactly one entry is appended: the annotated entry (episodes or the entry itself) with `updated_at` set to the timestamp, holding every key of the input. Otherwise the catalogue is unchanged. The movie list never changes. |
| Catalogue.SeriesAnimeAdded | scraper/video_converter.py:100-116 | A series whose episodes are objects, each with a string link or no link, is added: `add_anime` returns `True` and appends one entry. |
| Catalogue.StandaloneAnimeAdded | scraper/video_converter.py:107-116 | A standalone anime whose link converts is added, and the appended entry is the input with the embed URL, the video type and `updated_at`. |
| Catalogue.AddMovie | scraper/video_converter.py:136-157 | `add_movie` also requires `telegram_link`. On success it appends exactly one entry: the movie with `updated_at`, plus `video_url`/`video_type` when the link converts. Otherwise the catalogue is unchanged. |
| Catalogue.SeriesEpisodesAnnotated | scraper/video_converter.py:100-106 | In a series, each episode object whose link converts gains the embed URL and type, and every other episode is kept as it was. |
| Catalogue.UnconvertibleMovieStillAdded | scraper/video_converter.py:143-153 | A movie whose link does not convert is still added (`True`), without a `video_url`. |
| Catalogue.AnnotateLinkedIdempotent | scraper/video_converter.py:107-111 | Annotating an annotated entry again changes nothing. |
| Catalogue.AnnotateEpisodeIdempotent | scraper/video_converter.py:102-106 | Annotating an annotated episode again changes nothing. |
| Catalogue.AnnotateEpisodeListIdempotent | scraper/video_converter.py:101-106 | Annotating an annotated episode list again changes nothing. |
| Catalogue.AnnotateAnimeIdempotent | scraper/video_converter.py:99-111 | The annotation step of `add_anime` is idempotent. |
| Sources.NormalizeIframeUrl | scraper/scraper.py:79-90 | An empty URL gives nothing. A URL starting with `http` is kept. A `//` URL becomes `https:` + URL, and any other becomes `https://` + URL. The result always starts with `http` and ends with the input. |
| Sources.NormalizeIframeIdempotent | scraper/scraper.py:84-90 | Fixing an already fixed URL changes nothing. |
| Sources.ScrapeIframeStream | scraper/scraper.py:73-94 | The iframe handler's URL is `iframe_url` after the fix-up. So it gives a URL exactly when `iframe_url` is non-empty, and that URL starts with `http`. |
| Sources.EmbedVideoId | scraper/scraper.py:62-66 | An id is found exactly when the pattern matches. It is the whole greedy run of `[A-Za-z0-9_-]` captured by the leftmost match, so it is non-empty and follows `/embed/` in the URL. |
| Sources.EmbedVideoIdRoundTrip | scraper/scraper.py:64-66 | The id of `https://www.youtube.com/embed/<id>`, followed by anything that does not continue the id, is `<id>`. |
| Sources.QuotedValue | scraper/scraper.py:48-49 | Nothing is captured exactly when `"<key>":"([^"]+)"` has no match. Otherwise the value is the group of the leftmost match, which is non-empty and has no `"`. |
| Sources.QuotedValueRoundTrip | scraper/scraper.py:29 | A page that opens with the member `"<key>":"<v>"` yields `v`. |
| Sources.Unescape | scraper/scraper.py:52 | The replacement never lengthens the text, keeps non-empty text non-empty and adds no `"`. |
| Sources.UnescapeLeavesNoEscape | scraper/scraper.py:52 | No `\u0026` is left after the replacement. |
| Sources.UnescapeWithoutEscape | scraper/scraper.py:52 | Text that never spells `\u0026` is left unchanged, including every literal `&` in it. |
| Sources.UnescapeEscape | scraper/scraper.py:52 | The replacement undoes the escaping of `&` as `\u0026`. |
| Sources.EscapeUnescape | scraper/scraper.py:52 | On text without a literal `&`, escaping each `&` as `\u0026` after the replacement gives the original text back. |
| Sources.ExtractYoutubeM3u8 | scraper/scraper.py:40-57 | A manifest URL is returned exactly when the watch page was fetched and has an `hlsManifestUrl` member. It is that member's leftmost capture with each `\u0026` replaced by `&`, so it is non-empty and holds no `"` and no `\u0026`. |
| Sources.ExtractRecoversManifest | scraper/scraper.py:45-53 | When the watch page opens with the manifest URL as YouTube escapes it, the extraction returns that URL. |
| Sources.ScrapeYoutubeLive | scraper/scraper.py:17-38 | A missing or empty channel id gives nothing. When the channel's live page is fetched and holds a `videoId` member, the result is exactly the manifest extracted for that video id. Any result needs such a page and is a clean manifest URL, so there is no result in any other case. |
| Sources.ScrapeYoutubeEmbed | scraper/scraper.py:59-71 | An embed URL without an id gives nothing. Otherwise the result is the manifest extracted for the URL's id, and any result is a clean manifest URL. |
| Scrape.KindOf | scraper/scraper.py:108-117 | Each of `youtube_live`, `youtube_embed`, `direct`, `mcaster_iframe` and `stmify_iframe` selects its handler. Every other `source_type` selects none. |
| Scrape.ResolveUrl | scraper/scraper.py:108-117 | An unsupported type gives no URL. A supported type without `scrape_config` raises `KeyError`. Otherwise `youtube_live`, `youtube_embed` and the two iframe types give exactly the result of their own handler on `scrape_config`, and `direct` uses `scrape_config.url` as it is. A resolved URL is non-empty, and starts with `http` for the iframe types. |
| Scrape.MissingRecordKey | scraper/scraper.py:121-126 | The record is missing a key exactly when `id`, `category` or `logo` is absent, and the first absent one in reading order is reported. |
| Scrape.Record | scraper/scraper.py:120-130 | The record copies `id`, `name`, `category` and `logo` and carries the URL, the source type and the timestamp. `name_bn` defaults to `name` and `country` to `International` only when the key is absent. A missing key raises `KeyError`. |
| Scrape.ScrapeChannel | scraper/scraper.py:104-135 | A channel without `name` raises first. An unsupported type fails. A channel fails exactly when its URL is falsy. Otherwise its record is the result. |
| Scrape.Collect | scraper/scraper.py:104-136 | The loop ends at the first raised error, and then `self.streams` keeps the previous streams plus the records of the channels before it. Otherwise the loop succeeds: the streams are the previous ones plus every record in channel order, the success count is the number of records, and success plus failure counts equal the number of channels. |
| Scrape.ScrapeAll | scraper/scraper.py:96-138 | `scrape_all` raises exactly when some channel raises, and then it raises the first one's error. The records of the channels before it stay in `self.streams`. Otherwise it appends the records in channel order, returns the list, and the counts add up to the number of channels. |
| Scrape.KeptFromOutcomes | scraper/scraper.py:119-130 | Every appended stream is the record of some channel. |
| Scrape.KeptStreamsAreUsable | scraper/scraper.py:119-130 | Every appended stream has a non-empty URL and a supported source type. For the two iframe types its URL starts with `http`. |
| Scrape.UnsupportedChannelFails | scraper/scraper.py:108-119 | A named channel whose `source_type` is not one of the five produces no stream. |
| Scrape.DirectChannelStream | scraper/scraper.py:114-124 | A complete `direct` channel with a non-empty `scrape_config.url` becomes a stream with exactly that URL, `name_bn` = `name` and country `International`. |
| Playlist.GenerateM3u8 | scraper/scraper.py:140-151 | The playlist is `#EXTM3U\n` followed by each stream's `#EXTINF` line and URL line, in order. |
| Playlist.TitleKeepsPunctuation | scraper/scraper.py:148 | Title-casing the category adds no quote and no line break. |
| Playlist.ParseEntryRoundTrip | scraper/scraper.py:145-149 | One stream's two lines read back as its id, name, logo, title-cased category, display name and URL, with the text after them left over. |
| Playlist.PlaylistRoundTrip | scraper/scraper.py:142-151 | The playlist of streams without quotes or line breaks in their fields reads back as one item per stream, in order. |
| Layout.Categories | scraper/scraper.py:177-182 | The categories of the page are exactly the categories of the streams. |
| Layout.Insert | scraper/scraper.py:179-182 | A new category opens a group with the stream at the end. A known category gets the stream appended to its group, and no other group changes. |
| Layout.GroupByIsGrouped | scraper/scraper.py:177-182 | `GroupBy`, the model of the `by_category` loop, equals the separate definition `Grouped`: `by_category` holds one group per category in first-occurrence order, each with exactly that category's streams in their original order. |
| Layout.CategoriesDistinct | scraper/scraper.py:179-181 | No category has two groups. |
| Layout.GroupSizesSum | scraper/scraper.py:188-190 | The group sizes shown on the tabs add up to the number of streams. |
| Layout.MemberOfOwnCategory | scraper/scraper.py:179-182 | Every stream is among the streams selected for its own category. |
| Layout.StreamInItsGroup | scraper/scraper.py:177-182 | Every stream is among the members of the group of its own category. It is in no group of another category, and group categories are distinct. |
| Layout.Tabs | scraper/scraper.py:188-190 | One tab per group, in order, showing its category and size. A tab is active exactly when it is the first. |
| Layout.OneActiveTab | scraper/scraper.py:188-189 | At most one tab is active, and with any stream there is one. |
| Layout.PlayTypeOf | scraper/scraper.py:197-198 | The play type is `iframe` exactly for `mcaster_iframe` and `stmify_iframe`. |
| Layout.PlayTypeMatchesDispatch | scraper/scraper.py:197-198 | The page plays in a frame exactly the source types that `scrape_all` sends to the iframe handler. |
| Layout.IframeCardsAreHttp | scraper/scraper.py:197-201 | A stream the page plays in a frame has a URL starting with `http`. |

## Left out

- HTTP requests (`requests.get` with its headers and timeout) are a parameter `fetch`. It maps a URL to the response text, or to nothing when the request raised. The blanket `except` of each handler is that "nothing".
- `datetime.utcnow().isoformat()` is a parameter: a timestamp string for `add_anime`/`add_movie`, and `clock(i)` for the `i`-th channel of `scrape_all`.
- Printing, and the constructors' directory creation, are not modelled.
- `load_from_json`, `save_outputs`, the HTML/CSS/JavaScript templates and the `__main__` blocks are left out. They are file I/O and presentation; only the grouping and the play type that feed the page are modelled.
- Python dict aliasing is not modelled for `add_anime`. The source mutates the caller's dictionaries, and an exception in the episode loop leaves earlier episodes annotated. The model annotates copies, and a failed `add_anime` changes nothing.
- Scrape.ScrapeAll: a raised `KeyError` is returned together with `self.streams` at that moment. The `__main__` block does not catch it, so the program stops and `save_outputs` never writes that state; the model does not go further than the returned state.
- Floating-point JSON numbers are left out; JSON values are strings, null, booleans, integers, lists and objects.
- Channel fields and `scrape_config` values are typed as strings, and non-string values are not modelled. In the source the record keeps such a value as it is, and the playlist f-strings format it. A non-string `category` makes `.title()` raise `AttributeError` in `generate_m3u8` and in the page. A non-string `iframe_url` makes the iframe handler give no URL, because its exception is caught.
- Scrape.ResolveUrl: every falsy `stream_url` is collapsed to "no URL". Only truthiness matters to `scrape_all`.
- Patterns.SearchPair: `\d` is the ASCII digits only; Python 3 also matches other Unicode decimal digits.
- Text.Lower: only ASCII capitals, U+0130 (lower case `i` followed by U+0307) and the Kelvin sign U+212A (`k`) are lowered. Every other non-ASCII character is kept unchanged; Python maps a non-ASCII capital to its one-character lower case instead. That lower case is never ASCII, so the extension test, which looks only for ASCII text, gives the same answer.
- Text.Title: `title()` is modelled over ASCII letters only. A non-ASCII character is kept unchanged and counts as a word break, so `"aéb"` becomes `"AéB"` where Python gives `"Aéb"`.
- Sources.UnescapeEscape: the round trip is stated for text without a backslash (a URL has none). Text that itself spells `\u0026` is not covered.
- Sources.ExtractRecoversManifest: stated for a page that opens with the manifest member. An earlier `"hlsManifestUrl":"` elsewhere on the page would be the one taken.
- Playlist.PlaylistRoundTrip: stated for streams whose id, name, logo and category hold no `"`, and whose name and URL hold no line break. The source does not escape them, so other streams do not read back.

