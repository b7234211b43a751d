/** The part of `StreamScraper.generate_index_html` (scraper/scraper.py) that decides
    the page's structure: streams grouped by category in a dictionary that keeps
    first-insertion order, one tab per category with only the first one active, and
    each channel card's play type. The HTML text itself is not modelled.
 */
module Layout {
  import opened Wrappers
  import opened Sources
  import opened Scrape

  /** One entry of `by_category`: a category and its streams. */
  datatype Group = Group(category: string, members: seq<Stream>)

  // ---------------------------------------------------------------------------
  // Reference definitions

  /** The distinct categories of `xs`, in order of first occurrence. */
  function Categories(xs: seq<Stream>): (cats: seq<string>)
    ensures forall c :: c in cats <==> exists i | 0 <= i < |xs| :: xs[i].category == c
    decreases |xs|
  {
    if xs == [] then []
    else
      var front := xs[..|xs| - 1];
      var c := xs[|xs| - 1].category;
      var cats := Categories(front);
      assert forall i | 0 <= i < |front| :: front[i] == xs[i];
      if c in cats then cats else cats + [c]
  }

  /** The streams of `xs` in category `c`, in their order in `xs`. */
  function Members(xs: seq<Stream>, c: string): (ms: seq<Stream>)
    ensures |ms| <= |xs|
    ensures forall k | 0 <= k < |ms| :: ms[k].category == c && ms[k] in xs
    decreases |xs|
  {
    if xs == [] then []
    else
      var front := xs[..|xs| - 1];
      var last := xs[|xs| - 1];
      assert forall m | m in front :: m in xs;
      Members(front, c) + (if last.category == c then [last] else [])
  }

  /** The groups `by_category` should hold: one per category, in first-occurrence
      order, each with exactly that category's streams. */
  function Grouped(xs: seq<Stream>): (gs: seq<Group>)
    ensures |gs| == |Categories(xs)|
    ensures forall k | 0 <= k < |gs| :: gs[k] == Group(Categories(xs)[k], Members(xs, Categories(xs)[k]))
  {
    var cats := Categories(xs);
    seq(|cats|, k requires 0 <= k < |cats| => Group(cats[k], Members(xs, cats[k])))
  }

  predicate Distinct(cats: seq<string>) {
    forall i, j | 0 <= i < j < |cats| :: cats[i] != cats[j]
  }

  // ---------------------------------------------------------------------------
  // The grouping loop

  /** The first group with category `c`. */
  function IndexOf(gs: seq<Group>, c: string): (r: Option<nat>)
    ensures r.None? <==> forall k | 0 <= k < |gs| :: gs[k].category != c
    ensures r.Some? ==> r.value < |gs| && gs[r.value].category == c &&
                        forall k | 0 <= k < r.value :: gs[k].category != c
    decreases |gs|
  {
    if gs == [] then None
    else if gs[0].category == c then Some(0)
    else
      match IndexOf(gs[1..], c)
      case None => None
      case Some(k) => Some(k + 1)
  }

  /** One turn of the loop: `if cat not in by_category: by_category[cat] = []`,
      then `by_category[cat].append(stream)`. */
  function Insert(gs: seq<Group>, s: Stream): (r: seq<Group>)
    ensures IndexOf(gs, s.category).None? ==> r == gs + [Group(s.category, [s])]
    ensures IndexOf(gs, s.category).Some? ==>
              var k := IndexOf(gs, s.category).value;
              |r| == |gs| && r[k] == Group(s.category, gs[k].members + [s]) &&
              forall j | 0 <= j < |gs| && j != k :: r[j] == gs[j]
  {
    match IndexOf(gs, s.category)
    case None => gs + [Group(s.category, [s])]
    case Some(k) => gs[k := Group(s.category, gs[k].members + [s])]
  }

  /** `by_category` after the loop over `streams`. */
  function GroupBy(streams: seq<Stream>): seq<Group>
    decreases |streams|
  {
    if streams == [] then []
    else Insert(GroupBy(streams[..|streams| - 1]), streams[|streams| - 1])
  }

  // ---------------------------------------------------------------------------
  // The loop computes the reference grouping

  lemma {:induction false} CategoriesDistinct(xs: seq<Stream>)
    ensures Distinct(Categories(xs))
    decreases |xs|
  {
    if xs != [] {
      CategoriesDistinct(xs[..|xs| - 1]);
    }
  }

  /** A category not yet seen has no members. */
  lemma {:induction false} MembersOfUnseen(xs: seq<Stream>, c: string)
    requires c !in Categories(xs)
    ensures Members(xs, c) == []
    decreases |xs|
  {
    if xs != [] {
      var front := xs[..|xs| - 1];
      assert forall i | 0 <= i < |front| :: front[i] == xs[i];
      MembersOfUnseen(front, c);
    }
  }

  /** Adding a stream to the reference grouping is what one `Insert` does. */
  lemma InsertGrouped(xs: seq<Stream>, s: Stream)
    ensures Insert(Grouped(xs), s) == Grouped(xs + [s])
  {
    var ys := xs + [s];
    assert ys[..|ys| - 1] == xs;
    var cats := Categories(xs);
    var gs := Grouped(xs);
    var r := Insert(gs, s);
    var want := Grouped(ys);
    CategoriesDistinct(xs);
    match IndexOf(gs, s.category)
    case None =>
      assert s.category !in cats;
      MembersOfUnseen(xs, s.category);
      assert Categories(ys) == cats + [s.category];
      assert |r| == |want|;
      forall k | 0 <= k < |r| ensures r[k] == want[k] {
        if k < |gs| {
          assert cats[k] != s.category;
        }
      }
    case Some(k) =>
      assert s.category in cats;
      assert Categories(ys) == cats;
      forall j | 0 <= j < |r| ensures r[j] == want[j] {
        if j != k {
          assert cats[j] != s.category;
        }
      }
  }

  /** `by_category` holds, in first-occurrence order, every category with exactly
      its streams in their original order. */
  lemma {:induction false} GroupByIsGrouped(xs: seq<Stream>)
    ensures GroupBy(xs) == Grouped(xs)
    decreases |xs|
  {
    if xs != [] {
      var front := xs[..|xs| - 1];
      GroupByIsGrouped(front);
      InsertGrouped(front, xs[|xs| - 1]);
      assert front + [xs[|xs| - 1]] == xs;
    }
  }

  // ---------------------------------------------------------------------------
  // Every stream is in exactly one group

  /** The total size of the groups. */
  function Total(gs: seq<Group>): nat
    decreases |gs|
  {
    if gs == [] then 0 else Total(gs[..|gs| - 1]) + |gs[|gs| - 1].members|
  }

  /** The sizes of `xs`'s groups over the categories `cats`. */
  function CountIn(xs: seq<Stream>, cats: seq<string>): nat
    decreases |cats|
  {
    if cats == [] then 0 else CountIn(xs, cats[..|cats| - 1]) + |Members(xs, cats[|cats| - 1])|
  }

  lemma {:induction false} TotalIsCount(xs: seq<Stream>, n: nat)
    requires n <= |Categories(xs)|
    ensures Total(Grouped(xs)[..n]) == CountIn(xs, Categories(xs)[..n])
    decreases n
  {
    if n > 0 {
      TotalIsCount(xs, n - 1);
      assert Grouped(xs)[..n][..n - 1] == Grouped(xs)[..n - 1];
      assert Categories(xs)[..n][..n - 1] == Categories(xs)[..n - 1];
    }
  }

  /** One more stream adds one to the count of the distinct categories that hold
      its own. */
  lemma {:induction false} CountInSnoc(xs: seq<Stream>, s: Stream, cats: seq<string>)
    requires Distinct(cats)
    ensures CountIn(xs + [s], cats) == CountIn(xs, cats) + (if s.category in cats then 1 else 0)
    decreases |cats|
  {
    var ys := xs + [s];
    assert ys[..|ys| - 1] == xs;
    if cats != [] {
      var front := cats[..|cats| - 1];
      var c := cats[|cats| - 1];
      CountInSnoc(xs, s, front);
      assert s.category in cats <==> s.category in front || s.category == c;
      assert s.category == c ==> s.category !in front;
    }
  }

  lemma {:induction false} CountAll(xs: seq<Stream>)
    ensures CountIn(xs, Categories(xs)) == |xs|
    decreases |xs|
  {
    if xs != [] {
      var front := xs[..|xs| - 1];
      var s := xs[|xs| - 1];
      assert front + [s] == xs;
      var cats := Categories(front);
      CountAll(front);
      CategoriesDistinct(front);
      CountInSnoc(front, s, cats);
      if s.category !in cats {
        MembersOfUnseen(front, s.category);
        assert (cats + [s.category])[..|cats|] == cats;
      }
    }
  }

  /** The group sizes shown on the tabs add up to the number of streams. */
  lemma GroupSizesSum(streams: seq<Stream>)
    ensures Total(GroupBy(streams)) == |streams|
  {
    GroupByIsGrouped(streams);
    var gs := Grouped(streams);
    TotalIsCount(streams, |gs|);
    assert gs[..|gs|] == gs;
    assert Categories(streams)[..|gs|] == Categories(streams);
    CountAll(streams);
  }

  /** A stream is among the members of its own category. */
  lemma {:induction false} MemberOfOwnCategory(xs: seq<Stream>, i: nat)
    requires i < |xs|
    ensures xs[i] in Members(xs, xs[i].category)
    decreases |xs|
  {
    var n := |xs| - 1;
    if i < n {
      var front := xs[..n];
      assert front[i] == xs[i];
      MemberOfOwnCategory(front, i);
    }
  }

  /** Every stream is in the group of its own category, and in no other group. */
  lemma StreamInItsGroup(streams: seq<Stream>, i: nat)
    requires i < |streams|
    ensures exists k | 0 <= k < |GroupBy(streams)| ::
              GroupBy(streams)[k].category == streams[i].category && streams[i] in GroupBy(streams)[k].members
    ensures forall k | 0 <= k < |GroupBy(streams)| ::
              streams[i] in GroupBy(streams)[k].members ==> GroupBy(streams)[k].category == streams[i].category
    ensures forall k, j | 0 <= k < j < |GroupBy(streams)| ::
              GroupBy(streams)[k].category != GroupBy(streams)[j].category
  {
    GroupByIsGrouped(streams);
    CategoriesDistinct(streams);
    var cats := Categories(streams);
    assert streams[i].category in cats;
    var k :| 0 <= k < |cats| && cats[k] == streams[i].category;
    MemberOfOwnCategory(streams, i);
    assert GroupBy(streams)[k] == Group(streams[i].category, Members(streams, streams[i].category));
  }

  // ---------------------------------------------------------------------------
  // Tabs and cards

  /** A category tab: its category, the count shown, and whether it is active. */
  datatype Tab = Tab(category: string, count: nat, active: bool)

  /** The loop over `enumerate(by_category.items())`: `active` only at index 0. */
  function Tabs(gs: seq<Group>): (tabs: seq<Tab>)
    ensures |tabs| == |gs|
    ensures forall k | 0 <= k < |gs| ::
              tabs[k].category == gs[k].category && tabs[k].count == |gs[k].members|
    ensures forall k | 0 <= k < |gs| :: tabs[k].active <==> k == 0
  {
    seq(|gs|, k requires 0 <= k < |gs| => Tab(gs[k].category, |gs[k].members|, k == 0))
  }

  /** At most one tab is active, and there is one as soon as there is a stream. */
  lemma OneActiveTab(streams: seq<Stream>)
    ensures var tabs := Tabs(GroupBy(streams));
            forall k, j | 0 <= k < |tabs| && 0 <= j < |tabs| && tabs[k].active && tabs[j].active :: k == j
    ensures streams != [] ==> var tabs := Tabs(GroupBy(streams)); |tabs| > 0 && tabs[0].active
  {
    if streams != [] {
      GroupByIsGrouped(streams);
      assert streams[0].category in Categories(streams);
    }
  }

  datatype PlayType = IframePlay | DirectPlay

  /** `'iframe' if ch['source_type'] in ['mcaster_iframe', 'stmify_iframe'] else 'direct'`. */
  function PlayTypeOf(sourceType: string): (p: PlayType)
    ensures p == IframePlay <==> sourceType == "mcaster_iframe" || sourceType == "stmify_iframe"
  {
    if sourceType in IframeTypes then IframePlay else DirectPlay
  }

  /** The page plays in a frame exactly the streams that the iframe handler produced. */
  lemma PlayTypeMatchesDispatch(sourceType: string)
    ensures PlayTypeOf(sourceType) == IframePlay <==> KindOf(sourceType) == Iframe
  {
  }

  /** A stream the page plays in a frame has a URL starting with `http`. */
  lemma IframeCardsAreHttp(channels: seq<Channel>, fetch: Fetch, clock: nat -> string, s: Stream)
    requires s in Kept(Outcomes(channels, fetch, clock))
    requires PlayTypeOf(s.sourceType) == IframePlay
    ensures "http" <= s.url
  {
    KeptStreamsAreUsable(channels, fetch, clock, s);
  }
}
