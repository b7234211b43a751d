/** The admission rules of `TelegramVideoConverter.add_anime` and `add_movie`
    (scraper/video_converter.py): required keys, annotation of converted video links,
    and the append to the catalogue.

    The source mutates the caller's dictionaries in place; here each entry is a value
    and the annotation returns the annotated copy. An exception raised while
    annotating is caught by the methods' handler, which returns `False`; the model
    keeps it as `Raise`.
 */
module Catalogue {
  import opened Wrappers
  import opened Text
  import opened Json
  import opened Telegram

  /** The two lists a converter keeps. */
  datatype Library = Library(anime: seq<Dict>, movies: seq<Dict>)

  const AnimeRequired: seq<string> := ["id", "name", "type"]
  const MovieRequired: seq<string> := ["id", "name", "type", "telegram_link"]

  /** `all(field in d for field in required)`. */
  predicate HasAll(d: Dict, required: seq<string>) {
    forall k | 0 <= k < |required| :: required[k] in d
  }

  /** `convert_telegram_link(v)` on a JSON value: falsy values give `None` at the
      `not tg_link` test, strings are converted, and any other truthy value raises
      `AttributeError` at `.strip()`. */
  function ConvertLinkValue(v: Value): (r: Except<Option<Conversion>>)
    ensures r.Raise? <==> Truthy(v) && !v.Str?
    ensures r.Ok? && r.value.Some? ==> v.Str? && r.value.value.original == Strip(v.s)
    ensures v.Str? ==> r == Ok(ConvertTelegramLink(v.s))
  {
    if !Truthy(v) then Ok(None)
    else if v.Str? then Ok(ConvertTelegramLink(v.s))
    else Raise(AttributeError)
  }

  /** The entry `d` with the converted link recorded on it. */
  function WithVideo(d: Dict, c: Conversion): (r: Dict)
    ensures r.Keys == d.Keys + {"video_url", "video_type"}
    ensures r["video_url"] == Str(c.embedUrl) && r["video_type"] == Str(c.kind.Name())
    ensures forall k | k in d && k != "video_url" && k != "video_type" :: r[k] == d[k]
  {
    d["video_url" := Str(c.embedUrl)]["video_type" := Str(c.kind.Name())]
  }

  /** `converted = convert(d['telegram_link'])`, then `video_url`/`video_type` are set
      when the conversion succeeded. */
  function AnnotateLinked(d: Dict): (r: Except<Dict>)
    requires "telegram_link" in d
    ensures r.Raise? <==> ConvertLinkValue(d["telegram_link"]).Raise?
    ensures ConvertLinkValue(d["telegram_link"]) == Ok(None) ==> r == Ok(d)
    ensures r.Ok? ==> forall k | k in d && k != "video_url" && k != "video_type" :: k in r.value && r.value[k] == d[k]
    ensures r.Ok? ==> r.value.Keys <= d.Keys + {"video_url", "video_type"}
    ensures (ConvertLinkValue(d["telegram_link"]).Ok? && ConvertLinkValue(d["telegram_link"]).value.Some?) ==>
              r == Ok(WithVideo(d, ConvertLinkValue(d["telegram_link"]).value.value))
  {
    var converted := ConvertLinkValue(d["telegram_link"]);
    if converted.Raise? then Raise(converted.error)
    else if converted.value.None? then Ok(d)
    else Ok(WithVideo(d, converted.value.value))
  }

  /** One element of `anime_data['episodes']` in the episode loop:
      `if 'telegram_link' in episode`, then annotate. The `in` test is a key test on
      an object, a substring test on a string and a membership test on a list; on
      the others it raises `TypeError`, and so does indexing a string or a list
      with `'telegram_link'` once the test has passed. */
  function AnnotateEpisode(e: Value): (r: Except<Value>)
    ensures r.Ok? ==> r.value.Obj? == e.Obj?
    ensures !e.Obj? && r.Ok? ==> r.value == e
    ensures e.Obj? ==> (r.Raise? <==> "telegram_link" in e.fields && ConvertLinkValue(e.fields["telegram_link"]).Raise?)
    ensures e.Str? ==> (r.Raise? <==> Contains(e.s, "telegram_link"))
    ensures e.Arr? ==> (r.Raise? <==> Str("telegram_link") in e.items)
    ensures (e.Null? || e.Bool? || e.Int?) ==> r == Raise(TypeError)
  {
    match e
    case Obj(f) =>
      if "telegram_link" in f then
        (match AnnotateLinked(f)
         case Raise(x) => Raise(x)
         case Ok(f') => Ok(Obj(f')))
      else Ok(e)
    case Str(s) => if Contains(s, "telegram_link") then Raise(TypeError) else Ok(e)
    case Arr(xs) => if Str("telegram_link") in xs then Raise(TypeError) else Ok(e)
    case _ => Raise(TypeError)
  }

  /** The episode loop over a list: each episode in turn, stopping at the first
      exception. */
  function AnnotateEpisodes(items: seq<Value>): (r: Except<seq<Value>>)
    ensures r.Ok? <==> forall j | 0 <= j < |items| :: AnnotateEpisode(items[j]).Ok?
    ensures r.Ok? ==> |r.value| == |items|
    ensures r.Ok? ==> forall j | 0 <= j < |items| :: r.value[j] == AnnotateEpisode(items[j]).value
  {
    if items == [] then Ok([])
    else
      match AnnotateEpisode(items[0])
      case Raise(x) => Raise(x)
      case Ok(e) =>
        match AnnotateEpisodes(items[1..])
        case Raise(x) => Raise(x)
        case Ok(rest) =>
          assert forall j | 1 <= j < |items| :: items[1..][j - 1] == items[j];
          Ok([e] + rest)
  }

  /** `for episode in anime_data['episodes']`: a list is walked element by element; a
      string is walked character by character, and no one-character string contains
      `'telegram_link'`; an object is walked key by key, and a key containing
      `'telegram_link'` passes the test and fails the indexing; other values are not
      iterable. */
  function AnnotateEpisodeList(v: Value): (r: Except<Value>)
    ensures v.Str? ==> r == Ok(v)
    ensures v.Arr? && r.Ok? ==> r.value.Arr? && |r.value.items| == |v.items|
    ensures (v.Null? || v.Bool? || v.Int?) ==> r.Raise?
    ensures v.Arr? ==> (r.Ok? <==> AnnotateEpisodes(v.items).Ok?)
    ensures v.Obj? ==> (r.Raise? <==> exists k | k in v.fields :: Contains(k, "telegram_link"))
    ensures v.Obj? && r.Ok? ==> r.value == v
  {
    match v
    case Arr(items) =>
      (match AnnotateEpisodes(items)
       case Raise(x) => Raise(x)
       case Ok(items') => Ok(Arr(items')))
    case Str(_) => Ok(v)
    case Obj(f) =>
      if exists k | k in f :: Contains(k, "telegram_link") then Raise(TypeError) else Ok(v)
    case _ => Raise(TypeError)
  }

  /** The annotation step of `add_anime`: a `series` has its episodes annotated, a
      `standalone` entry with a link is annotated itself, anything else is kept. */
  function AnnotateAnime(d: Dict): (r: Except<Dict>)
    requires "type" in d
    ensures r.Ok? ==> r.value.Keys <= d.Keys + {"video_url", "video_type"}
    ensures r.Ok? ==> forall k | k in d && k != "episodes" && k != "video_url" && k != "video_type" ::
                        k in r.value && r.value[k] == d[k]
    ensures d["type"] != Str("series") && d["type"] != Str("standalone") ==> r == Ok(d)
    ensures !(d["type"] == Str("series") && "episodes" in d) && !(d["type"] == Str("standalone") && "telegram_link" in d) ==>
              r == Ok(d)
    ensures d["type"] == Str("series") && "episodes" in d ==> (r.Ok? <==> AnnotateEpisodeList(d["episodes"]).Ok?)
    ensures d["type"] == Str("series") && "episodes" in d && r.Ok? ==>
              r.value == d["episodes" := AnnotateEpisodeList(d["episodes"]).value]
    ensures d["type"] == Str("standalone") && "telegram_link" in d ==>
              match ConvertLinkValue(d["telegram_link"])
              case Raise(_) => r.Raise?
              case Ok(None) => r == Ok(d)
              case Ok(Some(c)) => r == Ok(WithVideo(d, c))
  {
    if d["type"] == Str("series") && "episodes" in d then
      (match AnnotateEpisodeList(d["episodes"])
       case Raise(x) => Raise(x)
       case Ok(e) => Ok(d["episodes" := e]))
    else if d["type"] == Str("standalone") && "telegram_link" in d then
      AnnotateLinked(d)
    else Ok(d)
  }

  /** `add_anime(d)` at time `stamp`: whether it returned `True`, and the library
      afterwards. */
  function AddAnime(lib: Library, d: Dict, stamp: string): (r: (bool, Library))
    ensures r.1.movies == lib.movies
    ensures r.0 <==> HasAll(d, AnimeRequired) && AnnotateAnime(d).Ok?
    ensures !r.0 ==> r.1 == lib
    ensures r.0 ==> |r.1.anime| == |lib.anime| + 1 && r.1.anime[..|lib.anime|] == lib.anime
    ensures r.0 ==> var e := r.1.anime[|lib.anime|];
                    && e.Keys <= d.Keys + {"video_url", "video_type", "updated_at"}
                    && d.Keys <= e.Keys
                    && "updated_at" in e && e["updated_at"] == Str(stamp)
                    && forall k | k in d && k !in {"episodes", "video_url", "video_type", "updated_at"} :: e[k] == d[k]
    ensures r.0 ==> "type" in d && r.1.anime[|lib.anime|] == AnnotateAnime(d).value["updated_at" := Str(stamp)]
  {
    if !HasAll(d, AnimeRequired) then (false, lib)
    else
      assert "type" in d by { assert AnimeRequired[2] == "type"; }
      match AnnotateAnime(d)
      case Raise(_) => (false, lib)
      case Ok(e) =>
        assert "id" in d && "name" in d by {
          assert AnimeRequired[0] == "id" && AnimeRequired[1] == "name";
        }
        (true, lib.(anime := lib.anime + [e["updated_at" := Str(stamp)]]))
  }

  /** `add_movie(d)` at time `stamp`: whether it returned `True`, and the library
      afterwards. A movie whose link does not convert is still added, without a
      video URL. */
  function AddMovie(lib: Library, d: Dict, stamp: string): (r: (bool, Library))
    ensures r.1.anime == lib.anime
    ensures r.0 <==> HasAll(d, MovieRequired) && ConvertLinkValue(d["telegram_link"]).Ok?
    ensures !r.0 ==> r.1 == lib
    ensures r.0 ==> |r.1.movies| == |lib.movies| + 1 && r.1.movies[..|lib.movies|] == lib.movies
    ensures r.0 ==> var e := r.1.movies[|lib.movies|];
                    match ConvertLinkValue(d["telegram_link"]).value
                    case None => e == d["updated_at" := Str(stamp)]
                    case Some(c) => e == WithVideo(d, c)["updated_at" := Str(stamp)]
  {
    if !HasAll(d, MovieRequired) then (false, lib)
    else
      assert "telegram_link" in d by { assert MovieRequired[3] == "telegram_link"; }
      match AnnotateLinked(d)
      case Raise(_) => (false, lib)
      case Ok(e) => (true, lib.(movies := lib.movies + [e["updated_at" := Str(stamp)]]))
  }

  // ---------------------------------------------------------------------------
  // Properties of the annotation

  /** In a series, an episode object whose link converts gains the embed URL and the
      video type; every other episode is kept as it was. */
  lemma SeriesEpisodesAnnotated(d: Dict)
    requires "type" in d && d["type"] == Str("series")
    requires "episodes" in d && d["episodes"].Arr?
    requires AnnotateAnime(d).Ok?
    ensures var items := d["episodes"].items;
            var d' := AnnotateAnime(d).value;
            && "episodes" in d' && d'["episodes"].Arr?
            && |d'["episodes"].items| == |items|
            && forall j | 0 <= j < |items| ::
                 var e := items[j];
                 var after := d'["episodes"].items[j];
                 if e.Obj? && "telegram_link" in e.fields
                    && ConvertLinkValue(e.fields["telegram_link"]) != Ok(None)
                 then after == Obj(WithVideo(e.fields, ConvertLinkValue(e.fields["telegram_link"]).value.value))
                 else after == e
  {
    var items := d["episodes"].items;
    var items' := AnnotateEpisodes(items).value;
    forall j | 0 <= j < |items|
      ensures AnnotateEpisode(items[j]).Ok?
    {
    }
  }

  /** A movie whose link is a string that does not convert is still added, and gains
      no video URL. */
  lemma UnconvertibleMovieStillAdded(lib: Library, d: Dict, stamp: string)
    requires HasAll(d, MovieRequired)
    requires "telegram_link" in d && d["telegram_link"].Str? && ConvertTelegramLink(d["telegram_link"].s) == None
    requires "video_url" !in d
    ensures AddMovie(lib, d, stamp).0
    ensures "video_url" !in AddMovie(lib, d, stamp).1.movies[|lib.movies|]
  {
  }

  /** A series whose episodes are objects, each with a string link or no link at all,
      is added: no episode can make the loop raise. */
  lemma SeriesAnimeAdded(lib: Library, d: Dict, stamp: string)
    requires HasAll(d, AnimeRequired)
    requires "type" in d && d["type"] == Str("series")
    requires "episodes" in d && d["episodes"].Arr?
    requires forall j | 0 <= j < |d["episodes"].items| ::
               var e := d["episodes"].items[j];
               e.Obj? && ("telegram_link" in e.fields ==> e.fields["telegram_link"].Str?)
    ensures AddAnime(lib, d, stamp).0
    ensures |AddAnime(lib, d, stamp).1.anime| == |lib.anime| + 1
  {
    var items := d["episodes"].items;
    forall j | 0 <= j < |items|
      ensures AnnotateEpisode(items[j]).Ok?
    {
      var e := items[j];
      if "telegram_link" in e.fields {
        assert ConvertLinkValue(e.fields["telegram_link"]).Ok?;
      }
    }
  }

  /** A standalone anime whose link converts is added with the embed URL and video
      type on the entry itself. */
  lemma StandaloneAnimeAdded(lib: Library, d: Dict, stamp: string, link: string, c: Conversion)
    requires HasAll(d, AnimeRequired)
    requires "type" in d && d["type"] == Str("standalone")
    requires "telegram_link" in d && d["telegram_link"] == Str(link) && ConvertTelegramLink(link) == Some(c)
    ensures AddAnime(lib, d, stamp).0
    ensures AddAnime(lib, d, stamp).1.anime == lib.anime + [WithVideo(d, c)["updated_at" := Str(stamp)]]
    ensures AddAnime(lib, d, stamp).1.anime[|lib.anime|]["video_url"] == Str(c.embedUrl)
  {
    var r := AddAnime(lib, d, stamp);
    assert AnnotateAnime(d) == Ok(WithVideo(d, c));
    assert r.1.anime[..|lib.anime|] == lib.anime;
  }

  /** Annotating an annotated entry changes nothing more: the link it was annotated
      from is still there and converts the same way. */
  lemma AnnotateLinkedIdempotent(d: Dict)
    requires "telegram_link" in d && AnnotateLinked(d).Ok?
    ensures "telegram_link" in AnnotateLinked(d).value
    ensures AnnotateLinked(AnnotateLinked(d).value) == AnnotateLinked(d)
  {
    var converted := ConvertLinkValue(d["telegram_link"]);
    if converted.value.Some? {
      var c := converted.value.value;
      var d' := WithVideo(d, c);
      assert d'["telegram_link"] == d["telegram_link"];
      assert WithVideo(d', c) == d';
    }
  }

  lemma AnnotateEpisodeIdempotent(e: Value)
    requires AnnotateEpisode(e).Ok?
    ensures AnnotateEpisode(AnnotateEpisode(e).value) == AnnotateEpisode(e)
  {
    if e.Obj? && "telegram_link" in e.fields {
      AnnotateLinkedIdempotent(e.fields);
    }
  }

  lemma AnnotateEpisodeListIdempotent(v: Value)
    requires AnnotateEpisodeList(v).Ok?
    ensures AnnotateEpisodeList(AnnotateEpisodeList(v).value) == AnnotateEpisodeList(v)
  {
    if v.Arr? {
      var items' := AnnotateEpisodes(v.items).value;
      forall j | 0 <= j < |items'|
        ensures AnnotateEpisode(items'[j]) == Ok(items'[j])
      {
        AnnotateEpisodeIdempotent(v.items[j]);
      }
      assert AnnotateEpisodes(items').value == items';
    }
  }

  /** `add_anime`'s annotation is idempotent: an entry that was annotated once is a
      fixed point of the annotation. */
  lemma AnnotateAnimeIdempotent(d: Dict)
    requires "type" in d && AnnotateAnime(d).Ok?
    ensures "type" in AnnotateAnime(d).value
    ensures AnnotateAnime(AnnotateAnime(d).value) == AnnotateAnime(d)
  {
    var d' := AnnotateAnime(d).value;
    assert d'["type"] == d["type"];
    if d["type"] == Str("series") && "episodes" in d {
      AnnotateEpisodeListIdempotent(d["episodes"]);
      assert d'["episodes" := d'["episodes"]] == d';
    } else if d["type"] == Str("standalone") && "telegram_link" in d {
      AnnotateLinkedIdempotent(d);
    }
  }
}
