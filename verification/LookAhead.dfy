/** What the look-ahead puts into the cache: the clauses that right moves from here would enter, the next one on
    top, up to the last one. */
module LookAhead {
  import opened Text
  import opened DelayedN
  import opened Clauses
  import opened ConversionServer
  import opened ClauseTransitions
  import opened ClauseInvariants

  type Place = (Client, ServerState)

  /** A move from a place, if it gets anywhere. */
  type Go = Place -> Option<Place>

  /** Where `k` moves lead. */
  function Trail(go: Go, p: Place, k: nat): Place
    decreases k
  {
    if k == 0 then p
    else if go(p).None? then p
    else Trail(go, go(p).value, k - 1)
  }

  /** A right move that makes progress. */
  function Right(env: Env): Go {
    (p: Place) =>
      var m := MoveRight(env, p.0, p.1);
      if m.Step? && m.effect.Applied? && !SameProgress(p.0, m.client) then Some((m.client, m.server)) else None
  }

  /* ----- the walk ----- */

  /** What is remembered of a clause, the first one specially. */
  type Memory = (Client, bool) -> FutureSnapshot

  /** The clause collected `k`-th is the one entered by the `k`-th move, from a place with text still to come. */
  ghost predicate StepOf(go: Go, memory: Memory, p: Place, got: seq<FutureSnapshot>, first: bool, k: nat)
    requires k < |got|
  {
    && go(Trail(go, p, k)).Some? && (k > 0 ==> Trail(go, p, k).0.suffix != "")
    && got[k] == memory(Trail(go, p, k + 1).0, first && k == 0)
  }

  /** `got` are the clauses entered one after the other, until no text is to come or no further clause is. */
  ghost predicate WalkedBy(go: Go, memory: Memory, p: Place, got: seq<FutureSnapshot>, first: bool) {
    && (forall k :: 0 <= k < |got| ==> StepOf(go, memory, p, got, first, k))
    && ((|got| > 0 && Trail(go, p, |got|).0.suffix == "") || go(Trail(go, p, |got|)).None?)
  }

  lemma WalkedMore(go: Go, memory: Memory, p: Place, rest: seq<FutureSnapshot>, first: bool)
    requires go(p).Some? && go(p).value.0.suffix != "" && WalkedBy(go, memory, go(p).value, rest, false)
    ensures WalkedBy(go, memory, p, [memory(go(p).value.0, first)] + rest, first)
  {
    var q := go(p).value;
    var got := [memory(q.0, first)] + rest;
    forall k | 0 <= k < |got| ensures StepOf(go, memory, p, got, first, k) {
      if k > 0 {
        assert StepOf(go, memory, q, rest, false, k - 1);
      } else {
        assert Trail(go, p, 1) == Trail(go, q, 0);
      }
    }
    assert Trail(go, p, |got|) == Trail(go, q, |rest|);
  }

  lemma WalkedOne(go: Go, memory: Memory, p: Place, first: bool)
    requires go(p).Some? && go(p).value.0.suffix == ""
    ensures WalkedBy(go, memory, p, [memory(go(p).value.0, first)], first)
  {
    var got := [memory(go(p).value.0, first)];
    assert Trail(go, p, 1) == Trail(go, go(p).value, 0);
    assert StepOf(go, memory, p, got, first, 0);
  }

  /** Closer to the end of the sentence. */
  predicate Before(p: Place, q: Place) {
    || InputLeft(p.1) < InputLeft(q.1)
    || (InputLeft(p.1) == InputLeft(q.1) && |p.0.future| < |q.0.future|)
    || (InputLeft(p.1) == InputLeft(q.1) && |p.0.future| == |q.0.future| && StuckCount(p.0) < StuckCount(q.0))
  }

  /** What a walk has collected in the end, if no call is refused. */
  type Walker = (Place, seq<FutureSnapshot>) -> Option<seq<FutureSnapshot>>

  /** One turn of the walk: it is over, over with one more clause, or goes on from the next place. */
  ghost predicate Turn(go: Go, memory: Memory, walk: Walker, p: Place, collected: seq<FutureSnapshot>) {
    if go(p).None? then walk(p, collected).Some? ==> walk(p, collected).value == collected
    else
      var q := go(p).value;
      var more := collected + [memory(q.0, collected == [])];
      if q.0.suffix == "" then walk(p, collected) == Some(more)
      else walk(p, collected) == walk(q, more) && Before(q, p)
  }

  /** What the walk adds to what it has collected. */
  lemma {:induction false} WalkCollects(go: Go, memory: Memory, walk: Walker, p: Place, collected: seq<FutureSnapshot>)
    returns (got: seq<FutureSnapshot>)
    requires forall q, cs :: Turn(go, memory, walk, q, cs)
    requires walk(p, collected).Some?
    ensures walk(p, collected).value == collected + got && WalkedBy(go, memory, p, got, collected == [])
    decreases InputLeft(p.1), |p.0.future|, StuckCount(p.0)
  {
    assert Turn(go, memory, walk, p, collected);
    got := [];
    if go(p).Some? {
      var q := go(p).value;
      var clause := memory(q.0, collected == []);
      if q.0.suffix == "" {
        got := [clause];
        WalkedOne(go, memory, p, collected == []);
      } else {
        var rest := WalkCollects(go, memory, walk, q, collected + [clause]);
        got := [clause] + rest;
        WalkedMore(go, memory, p, rest, collected == []);
        assert collected + [clause] + rest == collected + got;
      }
    }
  }

  /* ----- the walk of the clause state machine ----- */

  function Remember(start: Client): Memory {
    (at: Client, first: bool) => Collected(start, at, first)
  }

  function WalkOf(env: Env, start: Client): Walker
    requires env.Contract()
  {
    (p: Place, collected: seq<FutureSnapshot>) =>
      var w := WalkFrom(env, start, p.0, p.1, collected);
      if w.Some? then Some(w.value.collected) else None
  }

  lemma WalkTurn(env: Env, start: Client, p: Place, collected: seq<FutureSnapshot>)
    requires env.Contract()
    ensures Turn(Right(env), Remember(start), WalkOf(env, start), p, collected)
  {
    if Right(env)(p).Some? {
      MoveRightMeasure(env, p.0, p.1);
    }
  }

  /* ----- the cache ----- */

  /** Moves that never bring up a cache. */
  ghost predicate StaysFresh(go: Go) {
    forall p: Place {:trigger go(p)} :: p.0.future == [] && go(p).Some? ==> go(p).value.0.future == []
  }

  /** Without a cache every clause entered is fresh. */
  lemma RightStaysFresh(env: Env)
    ensures StaysFresh(Right(env))
  {
  }

  lemma {:induction false} FreshTrail(go: Go, p: Place, k: nat)
    requires StaysFresh(go) && p.0.future == []
    ensures Trail(go, p, k).0.future == []
    decreases k
  {
    if k > 0 && go(p).Some? {
      FreshTrail(go, go(p).value, k - 1);
    }
  }

  /** The first clause met takes the place of a differently read remainder when it is the last. */
  ghost predicate Repaired(start: Client, at: Client) {
    at.suffix == "" && start.suffix != "" && RawInputSuffix(start.rawInput, start.count) != ""
    && at.rawInput == RawInputSuffix(start.rawInput, start.count)
    && RecoverReading(start.rawHiragana, at.rawHiragana).Some?
  }

  /** The cached clause is the clause under the cursor. */
  ghost predicate Holds(f: FutureSnapshot, at: Client) {
    && f.clausePreview == ClausePreview(at.preview, at.fixedPrefix) && f.suffix == at.suffix
    && f.rawInput == at.rawInput && f.rawHiragana == at.rawHiragana && f.count == at.count
    && f.candidates == at.candidates
  }

  /** What is remembered of the clause under the cursor, repaired if it is the first one met. */
  ghost predicate HoldsRepaired(f: FutureSnapshot, start: Client, at: Client, first: bool) {
    if first && Repaired(start, at)
    then f.clausePreview == start.suffix && f.suffix == "" && f.rawInput == at.rawInput
         && EndsWith(start.rawHiragana, f.rawHiragana) && f.count == |f.rawInput|
    else Holds(f, at)
  }

  /** What is remembered holds the clauses met. */
  ghost predicate Faithful(memory: Memory, start: Client) {
    forall at, first {:trigger memory(at, first)} :: HoldsRepaired(memory(at, first), start, at, first)
  }

  lemma RememberFaithful(start: Client)
    ensures Faithful(Remember(start), start)
  {
    forall at, first ensures HoldsRepaired(Remember(start)(at, first), start, at, first) {
      CollectedHolds(start, at, first);
    }
  }

  lemma CollectedHolds(start: Client, at: Client, first: bool)
    ensures HoldsRepaired(Collected(start, at, first), start, at, first)
  {
  }

  /** The clause cached at place `k` from the top is the one entered by move `k + 1`; all moves up to it make progress
      without a cache, with text still to come. */
  ghost predicate CachedAt(go: Go, c: Client, p: Place, future: seq<FutureSnapshot>, k: nat)
    requires k < |future|
  {
    && go(Trail(go, p, k)).Some? && Trail(go, p, k).0.future == [] && (k > 0 ==> Trail(go, p, k).0.suffix != "")
    && HoldsRepaired(future[|future| - 1 - k], c, Trail(go, p, k + 1).0, k == 0)
  }

  /** Seen from the top, the cache is the clauses the moves enter, in that order, the first on top and the last at
      the bottom, as many as there are before the text is used up. */
  ghost predicate InOrder(go: Go, c: Client, p: Place, future: seq<FutureSnapshot>) {
    && (forall k {:trigger CachedAt(go, c, p, future, k)} :: 0 <= k < |future| ==> CachedAt(go, c, p, future, k))
    && ((|future| > 0 && Trail(go, p, |future|).0.suffix == "") || go(Trail(go, p, |future|)).None?)
  }

  lemma WalkedInOrder(go: Go, memory: Memory, c: Client, p: Place, got: seq<FutureSnapshot>,
                      future: seq<FutureSnapshot>)
    requires WalkedBy(go, memory, p, got, true) && p.0.future == [] && StaysFresh(go) && Faithful(memory, c)
    requires |future| == |got| && forall i :: 0 <= i < |got| ==> future[i] == got[|got| - 1 - i]
    ensures InOrder(go, c, p, future)
  {
    forall k | 0 <= k < |future| ensures CachedAt(go, c, p, future, k) {
      assert StepOf(go, memory, p, got, true, k);
      FreshTrail(go, p, k);
    }
  }

  /** The rebuilt cache is the clauses right moves would enter from here with nothing passed and nothing cached, in
      that order, as many as there are before the text is used up. */
  lemma RebuildOrder(env: Env, c: Client, s: ServerState)
    requires env.Contract() && c.suffix != ""
    ensures var r := Rebuild(env, c, s);
            r.Some? ==> InOrder(Right(env), c, (c.(passed := [], future := []), s), r.value.0.future)
  {
    if Rebuild(env, c, s).Some? {
      var start := c.(passed := [], future := []);
      forall q, cs ensures Turn(Right(env), Remember(c), WalkOf(env, c), q, cs) {
        WalkTurn(env, c, q, cs);
      }
      RightStaysFresh(env);
      RememberFaithful(c);
      var got := WalkCollects(Right(env), Remember(c), WalkOf(env, c), (start, s), []);
      assert [] + got == got;
      WalkedInOrder(Right(env), Remember(c), c, (start, s), got, Reversed(got));
    }
  }

  /** So is the cache navigation starts with. */
  lemma StartOrder(env: Env, c: Client, s: ServerState)
    requires env.Contract() && StartNavigation(env, c, s).Step? && StartNavigation(env, c, s).effect.Applied?
    ensures var nav := env.prefix(s.text);
            var sel := SelectForPreview(nav, c.preview, c.fixedPrefix, c.selection);
            && sel.Some?
            && var first := FirstClause(c, nav, sel.value);
               first.suffix != "" ==>
                 InOrder(Right(env), first, (first.(passed := [], future := []), s),
                         StartNavigation(env, c, s).client.future)
  {
    var nav := env.prefix(s.text);
    var sel := SelectForPreview(nav, c.preview, c.fixedPrefix, c.selection).value;
    var first := FirstClause(c, nav, sel);
    if first.suffix != "" {
      RebuildOrder(env, first, s);
      StartCache(env, c, s, first);
    }
  }

  lemma StartCache(env: Env, c: Client, s: ServerState, first: Client)
    requires env.Contract() && StartNavigation(env, c, s).Step? && StartNavigation(env, c, s).effect.Applied?
    requires var nav := env.prefix(s.text);
             var sel := SelectForPreview(nav, c.preview, c.fixedPrefix, c.selection);
             sel.Some? && first == FirstClause(c, nav, sel.value)
    ensures Rebuild(env, first, s).Some?
    ensures StartNavigation(env, c, s).client.future == Rebuild(env, first, s).value.0.future
  {
  }
}
