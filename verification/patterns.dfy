/** Hand-written scanners for the few fixed regular expressions of the scrapers, with
    Python `re.search` semantics: the match that starts leftmost wins, and a `+`
    repetition is greedy.

    Each pattern has a declarative reading (`IsPairMatch`, `IsSingleMatch`: "this
    capture is a match of the pattern at this position") and a scanner whose
    contract says it returns the leftmost such match, or none when there is none.
 */
module Patterns {
  import opened Wrappers
  import opened Text

  /** The character classes the patterns use: `[^c]`, `\d` and `[a-zA-Z0-9_-]`. */
  datatype CharClass = AnyBut(excluded: char) | Digit | IdChar

  predicate InClass(cls: CharClass, c: char) {
    match cls
    case AnyBut(x) => c != x
    case Digit => '0' <= c <= '9'
    case IdChar => IsAsciiLetter(c) || ('0' <= c <= '9') || c == '_' || c == '-'
  }

  predicate AllIn(cls: CharClass, s: string) {
    forall k | 0 <= k < |s| :: InClass(cls, s[k])
  }

  /** End of the longest run of `cls` characters of `s` starting at `from`: where a
      greedy `cls+` (or `cls*`) starting at `from` stops. */
  function RunEnd(s: string, from: nat, cls: CharClass): (e: nat)
    requires from <= |s|
    ensures from <= e <= |s|
    ensures forall j | from <= j < e :: InClass(cls, s[j])
    ensures e < |s| ==> !InClass(cls, s[e])
    decreases |s| - from
  {
    if from == |s| || !InClass(cls, s[from]) then from else RunEnd(s, from + 1, cls)
  }

  /** A run of `cls` characters that ends where `cls` stops is the greedy run. */
  lemma RunEndExact(s: string, from: nat, cls: CharClass, e: nat)
    requires from <= e <= |s|
    requires forall j | from <= j < e :: InClass(cls, s[j])
    requires e < |s| ==> !InClass(cls, s[e])
    ensures RunEnd(s, from, cls) == e
  {
  }

  // ---------------------------------------------------------------------------
  // Two-group patterns `prefix(first+)/(\d+)`

  /** The pattern `prefix(first+)/(\d+)`, where `first` does not contain `/`. */
  datatype PairPattern = PairPattern(prefix: string, first: CharClass) {
    predicate Valid() {
      prefix != [] && !InClass(first, '/')
    }
  }

  /** A match starting at `start` with its two captured groups. */
  datatype PairMatch = PairMatch(start: nat, first: string, second: string)

  /** `m` is a match of `p` in `s`: the prefix, a non-empty run of `first` characters,
      a slash and a non-empty run of digits appear in `s` at `m.start`, and the digit
      run is not followed by another digit (greedy `\d+`). */
  predicate IsPairMatch(s: string, p: PairPattern, m: PairMatch) {
    var a := m.start + |p.prefix|;
    var b := a + |m.first|;
    var d := b + 1 + |m.second|;
    && d <= |s|
    && s[m.start..a] == p.prefix
    && s[a..b] == m.first
    && s[b] == '/'
    && s[b + 1..d] == m.second
    && m.first != [] && AllIn(p.first, m.first)
    && m.second != [] && AllIn(Digit, m.second)
    && (d == |s| || !InClass(Digit, s[d]))
  }

  /** The match of `p` that starts exactly at `i`, if any. */
  function MatchPairAt(s: string, p: PairPattern, i: nat): (r: Option<PairMatch>)
    requires p.Valid()
    ensures r.Some? ==> r.value.start == i && IsPairMatch(s, p, r.value)
  {
    var a := i + |p.prefix|;
    if a > |s| || s[i..a] != p.prefix then None
    else
      var b := RunEnd(s, a, p.first);
      if b == a || b == |s| || s[b] != '/' then None
      else
        var d := RunEnd(s, b + 1, Digit);
        if d == b + 1 then None else Some(PairMatch(i, s[a..b], s[b + 1..d]))
  }

  /** Every match of `p` is the one `MatchPairAt` finds at its start: the two runs
      are determined by the position. */
  lemma MatchPairAtComplete(s: string, p: PairPattern, m: PairMatch)
    requires p.Valid()
    requires IsPairMatch(s, p, m)
    ensures MatchPairAt(s, p, m.start) == Some(m)
  {
    var a := m.start + |p.prefix|;
    var b := a + |m.first|;
    var d := b + 1 + |m.second|;
    assert b < |s| && !InClass(p.first, s[b]);
    RunOfSlice(s, a, b, p.first);
    RunOfSlice(s, b + 1, d, Digit);
    MatchPairAtRuns(s, p, m.start, b, d);
    assert PairMatch(m.start, s[a..b], s[b + 1..d]) == m;
  }

  /** `MatchPairAt` once the two runs are known. */
  lemma MatchPairAtRuns(s: string, p: PairPattern, i: nat, b: nat, d: nat)
    requires p.Valid()
    requires i + |p.prefix| <= |s| && s[i..i + |p.prefix|] == p.prefix
    requires RunEnd(s, i + |p.prefix|, p.first) == b != i + |p.prefix|
    requires b < |s| && s[b] == '/'
    requires RunEnd(s, b + 1, Digit) == d != b + 1
    ensures MatchPairAt(s, p, i) == Some(PairMatch(i, s[i + |p.prefix|..b], s[b + 1..d]))
  {
  }

  /** A captured run that the pattern requires to end where its class stops is the
      greedy run from its start. */
  lemma RunOfSlice(s: string, from: nat, e: nat, cls: CharClass)
    requires from <= e <= |s|
    requires AllIn(cls, s[from..e])
    requires e < |s| ==> !InClass(cls, s[e])
    ensures RunEnd(s, from, cls) == e
  {
    forall j | from <= j < e ensures InClass(cls, s[j]) {
      assert s[j] == s[from..e][j - from];
    }
    RunEndExact(s, from, cls, e);
  }

  /** The leftmost match of `p` starting at or after `i`. */
  function SearchPairFrom(s: string, p: PairPattern, i: nat): (r: Option<PairMatch>)
    requires p.Valid()
    ensures r.Some? ==> IsPairMatch(s, p, r.value) && i <= r.value.start
    ensures r.Some? ==> forall m | IsPairMatch(s, p, m) && i <= m.start :: r.value.start <= m.start
    ensures r.None? ==> forall m | IsPairMatch(s, p, m) :: m.start < i
    decreases |s| - i
  {
    if i >= |s| then None
    else
      match MatchPairAt(s, p, i)
      case Some(m) => Some(m)
      case None =>
        forall m | IsPairMatch(s, p, m) && m.start == i
          ensures false
        {
          MatchPairAtComplete(s, p, m);
        }
        SearchPairFrom(s, p, i + 1)
  }

  /** Python's `re.search` for `p` on `s`: the leftmost match, or none at all. */
  function SearchPair(s: string, p: PairPattern): (r: Option<PairMatch>)
    requires p.Valid()
    ensures r.Some? ==> IsPairMatch(s, p, r.value)
    ensures r.Some? ==> forall m | IsPairMatch(s, p, m) :: r.value.start <= m.start
    ensures r.None? <==> forall m :: !IsPairMatch(s, p, m)
  {
    SearchPairFrom(s, p, 0)
  }

  /** A match that no other match starts before is the one `SearchPair` returns. */
  lemma SearchPairFindsLeftmost(s: string, p: PairPattern, m: PairMatch)
    requires p.Valid()
    requires IsPairMatch(s, p, m)
    requires forall m' | IsPairMatch(s, p, m') :: m.start <= m'.start
    ensures SearchPair(s, p) == Some(m)
  {
    var r := SearchPair(s, p);
    assert r.Some? && r.value.start == m.start;
    MatchPairAtComplete(s, p, m);
    MatchPairAtComplete(s, p, r.value);
  }

  // ---------------------------------------------------------------------------
  // One-group patterns `prefix(cls+)` and `prefix(cls+)closer`

  /** The pattern `prefix(cls+)`, followed by the character `closer` when there is one;
      a closer is never itself in `cls`. */
  datatype SinglePattern = SinglePattern(prefix: string, cls: CharClass, closer: Option<char>) {
    predicate Valid() {
      prefix != [] && (closer.Some? ==> !InClass(cls, closer.value))
    }
  }

  datatype SingleMatch = SingleMatch(start: nat, group: string)

  /** `m` is a match of `p` in `s`: the prefix and a non-empty run of `cls` characters
      appear at `m.start`, followed by the closer if the pattern has one, and otherwise
      not followed by another `cls` character (greedy `+`). */
  predicate IsSingleMatch(s: string, p: SinglePattern, m: SingleMatch) {
    var a := m.start + |p.prefix|;
    var b := a + |m.group|;
    && b <= |s|
    && s[m.start..a] == p.prefix
    && s[a..b] == m.group
    && m.group != [] && AllIn(p.cls, m.group)
    && match p.closer
       case Some(c) => b < |s| && s[b] == c
       case None => b == |s| || !InClass(p.cls, s[b])
  }

  /** The match of `p` that starts exactly at `i`, if any. */
  function MatchSingleAt(s: string, p: SinglePattern, i: nat): (r: Option<SingleMatch>)
    requires p.Valid()
    ensures r.Some? ==> r.value.start == i && IsSingleMatch(s, p, r.value)
  {
    var a := i + |p.prefix|;
    if a > |s| || s[i..a] != p.prefix then None
    else
      var b := RunEnd(s, a, p.cls);
      var closed := match p.closer
                    case Some(c) => b < |s| && s[b] == c
                    case None => true;
      if b == a || !closed then None else Some(SingleMatch(i, s[a..b]))
  }

  /** Every match of `p` is the one `MatchSingleAt` finds at its start. */
  lemma MatchSingleAtComplete(s: string, p: SinglePattern, m: SingleMatch)
    requires p.Valid()
    requires IsSingleMatch(s, p, m)
    ensures MatchSingleAt(s, p, m.start) == Some(m)
  {
    var a := m.start + |p.prefix|;
    var b := a + |m.group|;
    assert forall j | a <= j < b :: s[j] == m.group[j - a];
    RunEndExact(s, a, p.cls, b);
  }

  /** The leftmost match of `p` starting at or after `i`. */
  function SearchSingleFrom(s: string, p: SinglePattern, i: nat): (r: Option<SingleMatch>)
    requires p.Valid()
    ensures r.Some? ==> IsSingleMatch(s, p, r.value) && i <= r.value.start
    ensures r.Some? ==> forall m | IsSingleMatch(s, p, m) && i <= m.start :: r.value.start <= m.start
    ensures r.None? ==> forall m | IsSingleMatch(s, p, m) :: m.start < i
    decreases |s| - i
  {
    if i >= |s| then None
    else
      match MatchSingleAt(s, p, i)
      case Some(m) => Some(m)
      case None =>
        forall m | IsSingleMatch(s, p, m) && m.start == i
          ensures false
        {
          MatchSingleAtComplete(s, p, m);
        }
        SearchSingleFrom(s, p, i + 1)
  }

  /** `m` is a match of `p` in `s` and no other match starts before it. */
  ghost predicate IsLeftmostSingleMatch(s: string, p: SinglePattern, m: SingleMatch) {
    IsSingleMatch(s, p, m) && forall m' | IsSingleMatch(s, p, m') :: m.start <= m'.start
  }

  /** Python's `re.search` for `p` on `s`: the leftmost match, or none at all. */
  function SearchSingle(s: string, p: SinglePattern): (r: Option<SingleMatch>)
    requires p.Valid()
    ensures r.Some? ==> IsSingleMatch(s, p, r.value)
    ensures r.Some? ==> forall m | IsSingleMatch(s, p, m) :: r.value.start <= m.start
    ensures r.None? <==> forall m :: !IsSingleMatch(s, p, m)
  {
    SearchSingleFrom(s, p, 0)
  }

  /** A match that no other match starts before is the one `SearchSingle` returns. */
  lemma SearchSingleFindsLeftmost(s: string, p: SinglePattern, m: SingleMatch)
    requires p.Valid()
    requires IsSingleMatch(s, p, m)
    requires forall m' | IsSingleMatch(s, p, m') :: m.start <= m'.start
    ensures SearchSingle(s, p) == Some(m)
  {
    var r := SearchSingle(s, p);
    assert r.Some? && r.value.start == m.start;
    MatchSingleAtComplete(s, p, m);
    MatchSingleAtComplete(s, p, r.value);
  }
}
