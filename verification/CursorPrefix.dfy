/** Choosing the first clause on the server: every candidate for the text before the cursor is resolved
    to an input count, the best boundary wins, and only candidates that end there are offered. */
module CursorPrefix {
  import opened Text
  import opened DelayedN

  /** What the converter knows of a candidate; `C` is its own measure of how much text it covers. */
  datatype Candidate<C> = Candidate(count: C, rubies: seq<nat>, rubyCount: int, text: string)

  datatype Resolution = Resolution(count: int, remaining: string)

  /** The composing text's own arithmetic, left open: the inputs that remain after a candidate, the
      kana they show, a printable form of a measure, and the text a candidate is displayed as. */
  datatype Converter<!C> = Converter(
    remaining: (seq<InputElement>, C) -> seq<InputElement>,
    target: seq<InputElement> -> string,
    key: C -> string,
    display: (Candidate<C>, string) -> string)

  /* ----- resolving one candidate ----- */

  function ResolveComposition<C>(v: Converter<C>, input: seq<InputElement>, c: C): Resolution {
    var rest := v.remaining(input, c);
    var rawCount := |input| - |rest|;
    var count := ServerSplit(input, rawCount);
    Resolution(count, if count != rawCount then v.target(Skip(input, count)) else v.target(rest))
  }

  /** Counted on the typed text, displayed on the text as previewed. */
  function Resolve<C>(v: Converter<C>, original: seq<InputElement>, preview: seq<InputElement>, c: C): Resolution {
    Resolution(ResolveComposition(v, original, c).count, ResolveComposition(v, preview, c).remaining)
  }

  /** A resolved count never leaves the typed text and is a fixed point of the boundary adjustment. */
  lemma ResolvedCount<C>(v: Converter<C>, original: seq<InputElement>, preview: seq<InputElement>, c: C)
    ensures var k := Resolve(v, original, preview, c).count;
            0 <= k <= |original| && ServerSplit(original, k) == k
  {
  }

  /** The inputs remaining after a candidate are the last ones. */
  predicate LeavesEnd<C>(v: Converter<C>, input: seq<InputElement>, c: C) {
    var rest := v.remaining(input, c);
    |rest| <= |input| && input[|input| - |rest|..] == rest
  }

  /** Where the converter's remaining inputs are the end of what it was given, the inputs counted are those in front of
      the adjusted boundary of the typed text, and the text remaining is that of the previewed inputs behind the
      adjusted boundary of theirs. */
  lemma ResolvedParts<C>(v: Converter<C>, original: seq<InputElement>, preview: seq<InputElement>, c: C)
    requires LeavesEnd(v, original, c) && LeavesEnd(v, preview, c)
    ensures var r := Resolve(v, original, preview, c);
            var typed, shown := |original| - |v.remaining(original, c)|, |preview| - |v.remaining(preview, c)|;
            && r.count == ServerSplit(original, typed)
            && 0 <= ServerSplit(preview, shown) <= |preview|
            && r.remaining == v.target(preview[ServerSplit(preview, shown)..])
  {
  }

  /* ----- the memo ----- */

  type Cache = map<string, Resolution>

  function Cached<C>(v: Converter<C>, resolve: C -> Resolution, cache: Cache, c: C): (Resolution, Cache) {
    if v.key(c) in cache then (cache[v.key(c)], cache) else (resolve(c), cache[v.key(c) := resolve(c)])
  }

  /** The answers to a run of questions put to one memo. */
  function CachedAll<C>(v: Converter<C>, resolve: C -> Resolution, cache: Cache, cs: seq<C>): seq<Resolution>
    decreases |cs|
  {
    if cs == [] then []
    else
      var r := Cached(v, resolve, cache, cs[0]);
      [r.0] + CachedAll(v, resolve, r.1, cs[1..])
  }

  function PlainAll<C>(resolve: C -> Resolution, cs: seq<C>): seq<Resolution> {
    if cs == [] then [] else [resolve(cs[0])] + PlainAll(resolve, cs[1..])
  }

  /** Measures with the same printed form resolve alike. */
  ghost predicate KeysSuffice<C(!new)>(v: Converter<C>, resolve: C -> Resolution) {
    forall c, d {:trigger v.key(c), v.key(d)} :: v.key(c) == v.key(d) ==> resolve(c) == resolve(d)
  }

  ghost predicate CacheSound<C(!new)>(v: Converter<C>, resolve: C -> Resolution, cache: Cache) {
    forall c {:trigger v.key(c)} :: v.key(c) in cache ==> cache[v.key(c)] == resolve(c)
  }

  lemma {:induction false} CachedAllPlain<C(!new)>(v: Converter<C>, resolve: C -> Resolution, cache: Cache, cs: seq<C>)
    requires KeysSuffice(v, resolve) && CacheSound(v, resolve, cache)
    decreases |cs|
    ensures CachedAll(v, resolve, cache, cs) == PlainAll(resolve, cs)
  {
    if cs != [] {
      var r := Cached(v, resolve, cache, cs[0]);
      assert CacheSound(v, resolve, r.1);
      CachedAllPlain(v, resolve, r.1, cs[1..]);
    }
  }

  /** The memo never changes an answer, whatever is asked in whatever order, exactly when measures that
      print alike resolve alike; in particular when all printed forms are distinct. */
  lemma MemoFaithful<C(!new)>(v: Converter<C>, resolve: C -> Resolution)
    ensures (forall cs :: CachedAll(v, resolve, map[], cs) == PlainAll(resolve, cs)) <==> KeysSuffice(v, resolve)
  {
    if KeysSuffice(v, resolve) {
      forall cs ensures CachedAll(v, resolve, map[], cs) == PlainAll(resolve, cs) {
        CachedAllPlain(v, resolve, map[], cs);
      }
    } else {
      var c, d :| v.key(c) == v.key(d) && resolve(c) != resolve(d);
      var cs := [c, d];
      assert cs[1..] == [d] && cs[1..][1..] == [];
      var empty: Cache := map[];
      var r := Cached(v, resolve, empty, c);
      assert CachedAll(v, resolve, r.1, [d]) == [resolve(c)] + CachedAll(v, resolve, Cached(v, resolve, r.1, d).1, []);
      assert CachedAll(v, resolve, empty, cs)[1] == resolve(c);
      assert PlainAll(resolve, [d])[0] == resolve(d);
      assert PlainAll(resolve, cs)[1] == resolve(d);
      assert CachedAll(v, resolve, map[], cs) != PlainAll(resolve, cs);
    }
  }

  /* ----- scoring ----- */

  const TERMINALS := ["ではない", "じゃない", "である", "でした", "だった", "ました", "ません", "です", "ます", "ない"]

  predicate EndsInTerminal(preview: string, surface: int) {
    0 <= surface <= |preview| && exists i :: 0 <= i < |TERMINALS| && EndsWith(preview[..surface], TERMINALS[i])
  }

  /** A ruby boundary of the candidate lies exactly at `surface` characters. */
  predicate RubyBoundaryFrom(rubies: seq<nat>, cursor: int, surface: int)
    decreases |rubies|
  {
    rubies != [] &&
    var next := cursor + rubies[0];
    next == surface || (next < surface && RubyBoundaryFrom(rubies[1..], next, surface))
  }

  function Score<C>(c: Candidate<C>, index: int, r: Resolution, preview: string): int {
    var surface := if |preview| < |r.remaining| then 0 else |preview| - |r.remaining|;
    var bonus := if EndsInTerminal(preview, surface) then 120 else 0;
    var penalty := if 0 < surface < c.rubyCount && !RubyBoundaryFrom(c.rubies, 0, surface) then 160 else 0;
    r.count * 4 + bonus - penalty - index
  }

  function Sum(ns: seq<nat>): nat {
    if ns == [] then 0 else ns[0] + Sum(ns[1..])
  }

  /** A ruby boundary is where some of the candidate's words, counted from its start, end. */
  lemma {:induction false} RubyBoundaryMeaning(rubies: seq<nat>, cursor: int, surface: int)
    ensures RubyBoundaryFrom(rubies, cursor, surface)
        <==> exists k :: 0 < k <= |rubies| && cursor + Sum(rubies[..k]) == surface
    decreases |rubies|
  {
    if rubies != [] {
      var next, rest := cursor + rubies[0], rubies[1..];
      RubyBoundaryMeaning(rest, next, surface);
      assert rubies[..1] == [rubies[0]] && Sum(rubies[..1]) == rubies[0] + Sum([]);
      forall k | 0 < k <= |rest| ensures cursor + Sum(rubies[..k + 1]) == next + Sum(rest[..k]) {
        assert rubies[..k + 1][1..] == rest[..k];
      }
      if k :| 0 < k <= |rubies| && cursor + Sum(rubies[..k]) == surface {
        if k > 1 {
          assert next + Sum(rest[..k - 1]) == surface;
        }
      }
      if RubyBoundaryFrom(rest, next, surface) {
        var k :| 0 < k <= |rest| && next + Sum(rest[..k]) == surface;
        assert cursor + Sum(rubies[..k + 1]) == surface;
      }
    }
  }

  /** The characters of the previewed text the candidate covers. */
  function Covered(r: Resolution, preview: string): nat {
    if |preview| < |r.remaining| then 0 else |preview| - |r.remaining|
  }

  /** What the candidate covers ends like a sentence does. */
  ghost predicate EndsSentence(r: Resolution, preview: string) {
    exists i :: 0 <= i < |TERMINALS| && EndsWith(preview[..Covered(r, preview)], TERMINALS[i])
  }

  /** What the candidate covers ends inside one of its words. */
  ghost predicate CutsWord<C>(c: Candidate<C>, r: Resolution, preview: string) {
    0 < Covered(r, preview) < c.rubyCount
    && forall k :: 0 < k <= |c.rubies| ==> Sum(c.rubies[..k]) != Covered(r, preview)
  }

  function Points(b: bool, n: nat): nat {
    if b then n else 0
  }

  /** Of two candidates the one that covers more inputs scores higher, four points an input, unless the end of a
      sentence, worth thirty inputs, a cut word, worth forty, or the place in the list decides. */
  lemma ScoreOrder<C>(a: Candidate<C>, i: int, ra: Resolution, b: Candidate<C>, j: int, rb: Resolution, preview: string)
    ensures Score(a, i, ra, preview) >= Score(b, j, rb, preview) <==>
              4 * ra.count + Points(EndsSentence(ra, preview), 120) + Points(CutsWord(b, rb, preview), 160) + j
              >= 4 * rb.count + Points(EndsSentence(rb, preview), 120) + Points(CutsWord(a, ra, preview), 160) + i
  {
    RubyBoundaryMeaning(a.rubies, 0, Covered(ra, preview));
    RubyBoundaryMeaning(b.rubies, 0, Covered(rb, preview));
  }

  /** Alike but for their place, the earlier one is preferred; alike but for their place and length, the longer one
      is, as long as it does not stand four places later for each input. */
  lemma PreferredAlike<C>(a: Candidate<C>, i: nat, ra: Resolution, b: Candidate<C>, j: nat, rb: Resolution,
                          preview: string)
    requires EndsSentence(ra, preview) == EndsSentence(rb, preview)
    requires CutsWord(a, ra, preview) == CutsWord(b, rb, preview)
    ensures ra.count == rb.count && i < j ==> Preferred(BoundaryOf(a, i, ra, preview), BoundaryOf(b, j, rb, preview))
    ensures ra.count > rb.count && i <= j + 4 * (ra.count - rb.count) ==>
              Preferred(BoundaryOf(a, i, ra, preview), BoundaryOf(b, j, rb, preview))
  {
    ScoreOrder(a, i, ra, b, j, rb, preview);
    ScoreOrder(b, j, rb, a, i, ra, preview);
  }

  datatype Boundary = Boundary(index: nat, count: int, score: int)

  /** Higher score, then longer, then earlier. */
  predicate Preferred(a: Boundary, b: Boundary) {
    a.score > b.score || (a.score == b.score && (a.count > b.count || (a.count == b.count && a.index < b.index)))
  }

  function BoundaryOf<C>(c: Candidate<C>, i: nat, r: Resolution, preview: string): Boundary {
    Boundary(i, r.count, Score(c, i, r, preview))
  }

  /** `b` is one of the boundaries with `0 < count < limit` and preferred to all others of them. */
  ghost predicate BestOf(b: Option<Boundary>, bs: seq<Boundary>, limit: int) {
    if b.None? then forall i :: 0 <= i < |bs| ==> !(0 < bs[i].count < limit)
    else
      && b.value in bs && 0 < b.value.count < limit
      && forall i :: 0 <= i < |bs| && 0 < bs[i].count < limit ==> bs[i] == b.value || Preferred(b.value, bs[i])
  }

  function Improved(best: Option<Boundary>, next: Boundary, limit: int): Option<Boundary> {
    if 0 < next.count < limit && (best.None? || Preferred(next, best.value)) then Some(next) else best
  }

  /** One more boundary is compared with the best so far. */
  lemma BestExtend(b: Option<Boundary>, bs: seq<Boundary>, limit: int, next: Boundary)
    requires BestOf(b, bs, limit)
    requires forall i :: 0 <= i < |bs| ==> bs[i].index < next.index
    ensures BestOf(Improved(b, next, limit), bs + [next], limit)
  {
  }

  /** The best boundary is unique, so the chosen count is determined. */
  lemma BestUnique(a: Option<Boundary>, b: Option<Boundary>, bs: seq<Boundary>, limit: int)
    requires BestOf(a, bs, limit) && BestOf(b, bs, limit)
    ensures a == b
  {
  }

  /** The count of the best boundary that leaves something over, else of the best one. */
  ghost predicate FirstClause(count: Option<int>, bs: seq<Boundary>, inputCount: nat) {
    exists split: Option<Boundary>, any: Option<Boundary> ::
      && BestOf(split, bs, inputCount)
      && BestOf(any, bs, inputCount + 1)
      && count == if split.Some? then Some(split.value.count) else if any.Some? then Some(any.value.count) else None
  }

  /** Boundary `i` leaves something over, or at least nothing beyond the end, and is preferred to all that do. */
  ghost predicate BestAt(i: nat, bs: seq<Boundary>, limit: int)
    requires i < |bs|
  {
    && 0 < bs[i].count < limit
    && forall j :: 0 <= j < |bs| && 0 < bs[j].count < limit ==> bs[j] == bs[i] || Preferred(bs[i], bs[j])
  }

  /** As soon as any boundary leaves something over the clause is the preferred one of those, even where one that leaves
      nothing would score higher; only without any is the whole taken. */
  lemma FirstClauseMeaning(count: Option<int>, bs: seq<Boundary>, inputCount: nat)
    requires FirstClause(count, bs, inputCount)
    ensures (exists i :: 0 <= i < |bs| && 0 < bs[i].count < inputCount) ==>
              exists i :: 0 <= i < |bs| && BestAt(i, bs, inputCount) && count == Some(bs[i].count)
    ensures (forall i :: 0 <= i < |bs| ==> !(0 < bs[i].count < inputCount)) ==>
              count == (if exists i :: 0 <= i < |bs| && 0 < bs[i].count == inputCount then Some(inputCount as int)
                        else None)
  {
    var split: Option<Boundary>, any: Option<Boundary> :|
      && BestOf(split, bs, inputCount)
      && BestOf(any, bs, inputCount + 1)
      && count == if split.Some? then Some(split.value.count) else if any.Some? then Some(any.value.count) else None;
    if split.Some? {
      var i :| 0 <= i < |bs| && bs[i] == split.value;
      assert BestAt(i, bs, inputCount);
    }
  }

  /* ----- the offered candidates ----- */

  datatype Offer<C> = Offer(candidate: Candidate<C>, text: string)

  /** A text stands at place `n` that does not stand at any place before. */
  predicate IsFirst(ts: seq<Option<string>>, n: nat)
    requires n < |ts|
  {
    ts[n].Some? && ts[n] !in ts[..n]
  }

  /** The places among the first `n` where a text stands for the first time. */
  function FirstPlaces(ts: seq<Option<string>>, n: nat): seq<nat>
    requires n <= |ts|
  {
    if n == 0 then []
    else if IsFirst(ts, n - 1) then FirstPlaces(ts, n - 1) + [n - 1]
    else FirstPlaces(ts, n - 1)
  }

  /** One of the places `at`, not after `m`, has the text of place `m`. */
  predicate FoundBy(at: seq<nat>, ts: seq<Option<string>>, m: nat)
    requires m < |ts| && forall i :: 0 <= i < |at| ==> at[i] < |ts|
  {
    exists i :: 0 <= i < |at| && at[i] <= m && ts[at[i]] == ts[m]
  }

  /** In order, each text once, and no text of the first `n` missed or found late. */
  ghost predicate PlacesOf(at: seq<nat>, ts: seq<Option<string>>, n: nat)
    requires n <= |ts|
  {
    && (forall i :: 0 <= i < |at| ==> at[i] < n && ts[at[i]].Some?)
    && (forall i, j :: 0 <= i < j < |at| ==> at[i] < at[j] && ts[at[i]] != ts[at[j]])
    && (forall m {:trigger FoundBy(at, ts, m)} :: 0 <= m < n && ts[m].Some? ==> FoundBy(at, ts, m))
  }

  lemma PlacesPush(at: seq<nat>, ts: seq<Option<string>>, n: nat)
    requires n < |ts| && PlacesOf(at, ts, n) && IsFirst(ts, n)
    ensures PlacesOf(at + [n], ts, n + 1)
  {
    var more := at + [n];
    assert forall i :: 0 <= i < |at| ==> more[i] == at[i];
    forall i | 0 <= i < |at| ensures ts[at[i]] != ts[n] {
      assert ts[..n][at[i]] == ts[at[i]];
    }
    forall m | 0 <= m < n + 1 && ts[m].Some? ensures FoundBy(more, ts, m) {
      if m < n {
        assert FoundBy(at, ts, m);
        var i :| 0 <= i < |at| && at[i] <= m && ts[at[i]] == ts[m];
        assert more[i] == at[i];
      } else {
        assert more[|at|] == n;
      }
    }
  }

  lemma PlacesKeep(at: seq<nat>, ts: seq<Option<string>>, n: nat)
    requires n < |ts| && PlacesOf(at, ts, n) && !IsFirst(ts, n)
    ensures PlacesOf(at, ts, n + 1)
  {
    if ts[n].Some? {
      var m :| 0 <= m < n && ts[..n][m] == ts[n];
      assert FoundBy(at, ts, m);
      assert FoundBy(at, ts, n);
    }
  }

  lemma {:induction false} FirstPlacesMeaning(ts: seq<Option<string>>, n: nat)
    requires n <= |ts|
    ensures PlacesOf(FirstPlaces(ts, n), ts, n)
  {
    if n > 0 {
      FirstPlacesMeaning(ts, n - 1);
      if IsFirst(ts, n - 1) {
        PlacesPush(FirstPlaces(ts, n - 1), ts, n - 1);
      } else {
        PlacesKeep(FirstPlaces(ts, n - 1), ts, n - 1);
      }
    }
  }

  /** The candidates at the first places among the first `n`, with their texts. */
  function OffersOf<C>(cs: seq<Candidate<C>>, ts: seq<Option<string>>, n: nat): seq<Offer<C>>
    requires n <= |cs| == |ts|
  {
    if n == 0 then []
    else if IsFirst(ts, n - 1) then OffersOf(cs, ts, n - 1) + [Offer(cs[n - 1], ts[n - 1].value)]
    else OffersOf(cs, ts, n - 1)
  }

  /** The offers are the candidates at the given places with their texts. */
  ghost predicate StandAt<C>(offers: seq<Offer<C>>, at: seq<nat>, cs: seq<Candidate<C>>, ts: seq<Option<string>>)
    requires |cs| == |ts|
  {
    |offers| == |at|
    && forall i :: 0 <= i < |at| ==>
         at[i] < |cs| && offers[i].candidate == cs[at[i]] && Some(offers[i].text) == ts[at[i]]
  }

  lemma StandPush<C>(offers: seq<Offer<C>>, at: seq<nat>, cs: seq<Candidate<C>>, ts: seq<Option<string>>, n: nat)
    requires n < |cs| == |ts| && ts[n].Some? && StandAt(offers, at, cs, ts)
    ensures StandAt(offers + [Offer(cs[n], ts[n].value)], at + [n], cs, ts)
  {
  }

  lemma {:induction false} OffersStand<C>(cs: seq<Candidate<C>>, ts: seq<Option<string>>, n: nat)
    requires n <= |cs| == |ts|
    ensures StandAt(OffersOf(cs, ts, n), FirstPlaces(ts, n), cs, ts)
  {
    if n > 0 {
      OffersStand(cs, ts, n - 1);
      if IsFirst(ts, n - 1) {
        StandPush(OffersOf(cs, ts, n - 1), FirstPlaces(ts, n - 1), cs, ts, n - 1);
      }
    }
  }

  /** The offers stand at the first places, so their texts are distinct, in order, and all there. */
  lemma OffersMeaning<C>(cs: seq<Candidate<C>>, ts: seq<Option<string>>, n: nat)
    requires n <= |cs| == |ts|
    ensures PlacesOf(FirstPlaces(ts, n), ts, n) && StandAt(OffersOf(cs, ts, n), FirstPlaces(ts, n), cs, ts)
  {
    FirstPlacesMeaning(ts, n);
    OffersStand(cs, ts, n);
  }

  /** The set of texts offered so far. */
  ghost predicate TextsOf(texts: set<string>, ts: seq<Option<string>>, n: nat)
    requires n <= |ts|
  {
    forall t :: t in texts <==> Some(t) in ts[..n]
  }

  class Resolver<C(==, !new)> {
    const v: Converter<C>
    const original: seq<InputElement>
    const preview: seq<InputElement>
    var cache: Cache

    constructor (v: Converter<C>, original: seq<InputElement>, preview: seq<InputElement>)
      ensures this.v == v && this.original == original && this.preview == preview && cache == map[]
    {
      this.v, this.original, this.preview := v, original, preview;
      cache := map[];
    }

    function Plain(c: C): Resolution {
      Resolve(v, original, preview, c)
    }

    /** The display text of each candidate that ends at `k`. */
    function TextsAt(cs: seq<Candidate<C>>, hiragana: string, k: int): (ts: seq<Option<string>>)
      ensures TextsFit(cs, ts, hiragana, k)
    {
      seq(|cs|, i requires 0 <= i < |cs| =>
        if Plain(cs[i].count).count == k then Some(v.display(cs[i], hiragana)) else None)
    }

    ghost predicate Sound()
      reads this`cache
    {
      KeysSuffice(v, Plain) && CacheSound(v, Plain, cache)
    }

    method ResolveCached(c: C) returns (r: Resolution)
      requires Sound()
      modifies this`cache
      ensures Sound() && r == Plain(c)
    {
      var key := v.key(c);
      if key in cache {
        return cache[key];
      }
      r := Resolve(v, original, preview, c);
      cache := cache[key := r];
    }

    /** A boundary within the text takes the place of the best so far when it is preferred. */
    method Consider(split: Option<Boundary>, any: Option<Boundary>, b: Boundary)
      returns (newSplit: Option<Boundary>, newAny: Option<Boundary>)
      requires b.count <= |original|
      ensures newSplit == Improved(split, b, |original|) && newAny == Improved(any, b, |original| + 1)
    {
      newSplit, newAny := split, any;
      if b.count > 0 {
        if b.count < |original| && (split.None? || Preferred(b, split.value)) {
          newSplit := Some(b);
        }
        if any.None? || Preferred(b, any.value) {
          newAny := Some(b);
        }
      }
    }

    /** `bs` gives the boundary candidate `i` proposes. */
    ghost predicate BoundaryAt(cs: seq<Candidate<C>>, bs: seq<Boundary>, previewHiragana: string, i: nat)
      requires i < |cs| == |bs|
    {
      bs[i] == BoundaryOf(cs[i], i, Plain(cs[i].count), previewHiragana)
    }

    ghost predicate BoundariesFit(cs: seq<Candidate<C>>, bs: seq<Boundary>, previewHiragana: string) {
      |cs| == |bs|
      && forall i {:trigger BoundaryAt(cs, bs, previewHiragana, i)} ::
           0 <= i < |cs| ==> BoundaryAt(cs, bs, previewHiragana, i)
    }

    /** The boundary each candidate proposes. */
    function Boundaries(cs: seq<Candidate<C>>, previewHiragana: string): (bs: seq<Boundary>)
      ensures BoundariesFit(cs, bs, previewHiragana)
    {
      seq(|cs|, i requires 0 <= i < |cs| => BoundaryOf(cs[i], i, Plain(cs[i].count), previewHiragana))
    }

    /** The boundary one candidate proposes lies within the typed text. */
    method Propose(cs: seq<Candidate<C>>, i: nat, previewHiragana: string, ghost bs: seq<Boundary>)
      returns (b: Boundary)
      requires Sound() && i < |cs| == |bs| && BoundaryAt(cs, bs, previewHiragana, i)
      modifies this`cache
      ensures Sound() && b == bs[i] && b.index == i && 0 <= b.count <= |original|
    {
      var r := ResolveCached(cs[i].count);
      ResolvedCount(v, original, preview, cs[i].count);
      b := Boundary(i, r.count, Score(cs[i], i, r, previewHiragana));
    }

    /** The best boundaries among the first `n`. */
    ghost predicate Found(split: Option<Boundary>, any: Option<Boundary>, bs: seq<Boundary>, n: nat)
      requires n <= |bs|
    {
      BestOf(split, bs[..n], |original|) && BestOf(any, bs[..n], |original| + 1)
      && forall i :: 0 <= i < n ==> bs[i].index == i
    }

    lemma FoundNext(split: Option<Boundary>, any: Option<Boundary>, bs: seq<Boundary>, n: nat)
      requires n < |bs| && Found(split, any, bs, n) && bs[n].index == n
      ensures Found(Improved(split, bs[n], |original|), Improved(any, bs[n], |original| + 1), bs, n + 1)
    {
      assert bs[..n + 1] == bs[..n] + [bs[n]];
      BestExtend(split, bs[..n], |original|, bs[n]);
      BestExtend(any, bs[..n], |original| + 1, bs[n]);
    }

    /** The input count at which the first clause ends, if any candidate covers some input. */
    method FirstClauseCount(cs: seq<Candidate<C>>, previewHiragana: string) returns (count: Option<int>)
      requires Sound()
      modifies this`cache
      ensures Sound() && FirstClause(count, Boundaries(cs, previewHiragana), |original|)
    {
      ghost var bs := Boundaries(cs, previewHiragana);
      var split: Option<Boundary>, any: Option<Boundary> := None, None;
      for i := 0 to |cs|
        invariant Sound() && Found(split, any, bs, i)
      {
        assert BoundaryAt(cs, bs, previewHiragana, i);
        var b := Propose(cs, i, previewHiragana, bs);
        FoundNext(split, any, bs, i);
        split, any := Consider(split, any, b);
      }
      assert bs[..|cs|] == bs;
      count := if split.Some? then Some(split.value.count) else if any.Some? then Some(any.value.count) else None;
    }

    /** `ts` gives the display text of candidate `m` if it ends at `k`. */
    ghost predicate TextAt(cs: seq<Candidate<C>>, ts: seq<Option<string>>, hiragana: string, k: int, m: nat)
      requires m < |cs| == |ts|
    {
      ts[m] == if Plain(cs[m].count).count == k then Some(v.display(cs[m], hiragana)) else None
    }

    ghost predicate TextsFit(cs: seq<Candidate<C>>, ts: seq<Option<string>>, hiragana: string, k: int) {
      |cs| == |ts|
      && forall m {:trigger TextAt(cs, ts, hiragana, k, m)} :: 0 <= m < |cs| ==> TextAt(cs, ts, hiragana, k, m)
    }

    /** One candidate is offered if it ends at the boundary and its text is new. */
    method OfferOne(all: seq<Candidate<C>>, m: nat, hiragana: string, k: int, before: seq<Offer<C>>, seen: set<string>,
                    ghost ts: seq<Option<string>>)
      returns (offers: seq<Offer<C>>, texts: set<string>)
      requires Sound() && m < |all| == |ts| && TextAt(all, ts, hiragana, k, m)
      requires before == OffersOf(all, ts, m) && TextsOf(seen, ts, m)
      modifies this`cache
      ensures Sound() && offers == OffersOf(all, ts, m + 1) && TextsOf(texts, ts, m + 1)
    {
      assert ts[..m + 1] == ts[..m] + [ts[m]];
      offers, texts := before, seen;
      var r := ResolveCached(all[m].count);
      if r.count == k {
        var text := v.display(all[m], hiragana);
        if text !in texts {
          offers, texts := offers + [Offer(all[m], text)], texts + {text};
        }
      }
    }

    /** Candidates `lo..hi` of `all` are added to the offers made so far. */
    method OfferMatching(all: seq<Candidate<C>>, lo: nat, hi: nat, hiragana: string, k: int,
                         before: seq<Offer<C>>, seen: set<string>, ghost ts: seq<Option<string>>)
      returns (offers: seq<Offer<C>>, texts: set<string>)
      requires Sound() && lo <= hi <= |all| && TextsFit(all, ts, hiragana, k)
      requires before == OffersOf(all, ts, lo) && TextsOf(seen, ts, lo)
      modifies this`cache
      ensures Sound() && offers == OffersOf(all, ts, hi) && TextsOf(texts, ts, hi)
    {
      offers, texts := before, seen;
      for m := lo to hi
        invariant Sound() && offers == OffersOf(all, ts, m) && TextsOf(texts, ts, m)
      {
        assert TextAt(all, ts, hiragana, k, m);
        offers, texts := OfferOne(all, m, hiragana, k, offers, texts, ts);
      }
    }

    /** The first-clause, main and exact candidates that end at the boundary, without repeated texts; all main
        candidates when there is no boundary. */
    method DisplayResults(main: seq<Candidate<C>>, first: seq<Candidate<C>>, exact: seq<Candidate<C>>,
                          boundary: Option<int>, hiragana: string) returns (offers: seq<Offer<C>>)
      requires Sound()
      modifies this`cache
      ensures Sound()
      ensures boundary.None? ==>
        offers == seq(|main|, i requires 0 <= i < |main| => Offer(main[i], v.display(main[i], hiragana)))
      ensures boundary.Some? ==>
        var all := first + main + exact;
        offers == OffersOf(all, TextsAt(all, hiragana, boundary.value), |all|)
    {
      if boundary.None? {
        return seq(|main|, i requires 0 <= i < |main| => Offer(main[i], v.display(main[i], hiragana)));
      }
      var all := first + main + exact;
      var texts: set<string>;
      ghost var ts := TextsAt(all, hiragana, boundary.value);
      offers, texts := OfferMatching(all, 0, |first|, hiragana, boundary.value, [], {}, ts);
      offers, texts := OfferMatching(all, |first|, |first| + |main|, hiragana, boundary.value, offers, texts, ts);
      offers, texts := OfferMatching(all, |first| + |main|, |all|, hiragana, boundary.value, offers, texts, ts);
    }
  }
}
