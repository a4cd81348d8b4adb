/** Properties of whole sequences of clause moves. */
module ClauseTheorems {
  import opened Text
  import opened DelayedN
  import opened Clauses
  import opened ConversionServer
  import opened ClauseTransitions
  import opened ClauseInvariants
  import opened FutureCache

  /* ----- one sentence, many snapshots ----- */

  function Displayed(c: Client): string {
    c.preview + c.suffix
  }

  function DisplayedAt(s: ClauseSnapshot): string {
    s.preview + s.suffix
  }

  /** Every passed clause would display the sentence the current one displays. */
  ghost predicate Agree(c: Client) {
    forall i :: 0 <= i < |c.passed| ==> DisplayedAt(c.passed[i]) == Displayed(c)
  }

  lemma {:induction false} PassedTextIsPrefix(c: Client, i: nat)
    requires PrefixChain(c) && i < |c.passed|
    ensures c.passed[i].preview <= c.fixedPrefix
    decreases |c.passed| - i
  {
    assert c.passed[i].preview == PrefixAbove(c, i);
    if i + 1 < |c.passed| {
      PassedTextIsPrefix(c, i + 1);
      PrefixTransitive(c.passed[i].preview, c.passed[i + 1].preview, c.fixedPrefix);
    }
  }

  /** Once the passed clauses follow an edit, all of them display one sentence. */
  lemma SyncAgrees(c: Client)
    requires PrefixChain(c)
    ensures Agree(WithSyncedSnapshots(c)) && Displayed(WithSyncedSnapshots(c)) == Displayed(c)
  {
    var n := WithSyncedSnapshots(c);
    forall i | 0 <= i < |n.passed| ensures DisplayedAt(n.passed[i]) == Displayed(n) {
      PassedTextIsPrefix(c, i);
      assert c.passed[i].preview <= c.preview + c.suffix;
      assert n.passed[i] == SyncSnapshot(c.passed[i], c.preview + c.suffix);
    }
  }

  /** After a selection all snapshots show one sentence. */
  lemma SelectionAgrees(c: Client, s: ServerState, kind: SetSelectionType)
    requires Inv(c, s)
    ensures var r := SetSelection(c, kind); r.1.Applied? ==> Agree(r.0)
  {
    var desired := match kind
      case Up => c.selection - 1
      case Down => c.selection + 1
      case Number(i) => i;
    var sel := SelectCandidate(c.candidates, desired);
    if sel.Some? {
      MergePreview(c.fixedPrefix, sel.value.text);
      PrefixChainSame(c, WithSyncedSuffix(Chosen(c, sel.value)));
      SyncAgrees(WithSyncedSuffix(Chosen(c, sel.value)));
    }
  }

  lemma BoundaryEditAgrees(c: Client, sel: Selection)
    requires PrefixChain(c)
    ensures Agree(ApplyBoundarySelection(c, sel))
  {
    var edited := WithSyncedSuffix(BoundaryEdited(c, sel));
    MergePreview(c.fixedPrefix, sel.text);
    PrefixChainSame(c, edited);
    SyncAgrees(edited);
  }

  lemma AtBoundaryAgrees(env: Env, c: Client, s: ServerState, direction: int, fallback: Candidates)
    requires PrefixChain(c)
    ensures var m := AtBoundary(env, c, s, direction, fallback);
            m.Step? && (m.effect.Applied? ==> Agree(m.client))
  {
    var boundary := env.prefix(s.text);
    var selected := SplitLeftCandidate(fallback, c.count);
    if boundary.texts != [] {
      PrefixChainSame(c, c.(candidates := boundary));
      BoundaryEditAgrees(c.(candidates := boundary), SelectCandidate(boundary, 0).value);
    } else if direction < 0 && selected.Some? {
      PrefixChainSame(c, c.(candidates := fallback));
      BoundaryEditAgrees(c.(candidates := fallback), selected.value);
    }
  }

  /** After a boundary edit all snapshots show one sentence. */
  lemma AdjustBoundaryAgrees(env: Env, c: Client, s: ServerState, direction: int)
    requires Inv(c, s) && -1 <= direction <= 1
    ensures var m := AdjustBoundary(env, c, s, direction);
            m.Step? && m.effect.Applied? ==> Agree(m.client)
  {
    if direction != 0 {
      var steered := if c.suffix != "" || c.future != []
                     then Steer(env, c.candidates, s, c.rawHiragana, c.suffix, c.count)
                     else Reply(c.candidates, s);
      var at := MoveRpc(env, steered.server, direction).value.server;
      PrefixChainSame(c, c.(candidates := steered.candidates));
      AtBoundaryAgrees(env, c.(candidates := steered.candidates), at, direction, c.candidates);
    }
  }

  /* ----- the cache under boundary edits ----- */

  /** A boundary edit keeps nested cached readings nested, and leaves a lower part of the cache with at most one
      new clause on top, which shows exactly its own share. */
  lemma BoundaryEditChained(c: Client, sel: Selection)
    requires Chained(c.future)
    ensures var edited := ApplyBoundarySelection(c, sel);
            Chained(edited.future) && SplitResult(c.future, edited.future)
  {
    var open := OpenGroup(c);
    var allow := c.future == [] && c.passed != [] && RawSuffix(sel.hiragana, sel.count) == "";
    SplitFutureConserves(c.future, c.rawInput, sel.hiragana, sel.count, sel.subText, allow,
                         Some(open.GetOr(c.nextGroup)));
  }

  lemma AtBoundaryChained(env: Env, c: Client, s: ServerState, direction: int, fallback: Candidates)
    requires Chained(c.future)
    ensures var m := AtBoundary(env, c, s, direction, fallback);
            m.Step? && Chained(m.client.future) && SplitResult(c.future, m.client.future)
  {
    var boundary := env.prefix(s.text);
    var selected := SplitLeftCandidate(fallback, c.count);
    if boundary.texts != [] {
      BoundaryEditChained(c.(candidates := boundary), SelectCandidate(boundary, 0).value);
    } else if direction < 0 && selected.Some? {
      BoundaryEditChained(c.(candidates := fallback), selected.value);
    }
  }

  lemma AdjustBoundaryChained(env: Env, c: Client, s: ServerState, direction: int)
    requires Chained(c.future)
    ensures var m := AdjustBoundary(env, c, s, direction);
            m.Step? ==> Chained(m.client.future) && SplitResult(c.future, m.client.future)
  {
    if direction != 0 {
      var steered := if c.suffix != "" || c.future != []
                     then Steer(env, c.candidates, s, c.rawHiragana, c.suffix, c.count)
                     else Reply(c.candidates, s);
      var moved := MoveRpc(env, steered.server, direction);
      if moved.Some? {
        AtBoundaryChained(env, c.(candidates := steered.candidates), moved.value.server, direction, c.candidates);
      }
    }
  }

  /* ----- repeated moves ----- */

  function Lefts(c: Client, s: ServerState, n: nat): (Client, ServerState)
    decreases n
  {
    if n == 0 then (c, s) else var m := MoveLeft(c, s); Lefts(m.client, m.server, n - 1)
  }

  type Advance = (Client, ServerState) -> Option<(Client, ServerState)>

  /** `n` steps, all of which must succeed. */
  function Advanced(step: Advance, c: Client, s: ServerState, n: nat): Option<(Client, ServerState)>
    decreases n
  {
    if n == 0 then Some((c, s))
    else
      var r := step(c, s);
      if r.Some? then Advanced(step, r.value.0, r.value.1, n - 1) else None
  }

  /** A right move that passes the current clause; one that is skipped, undone or reset does not count. */
  function PassRight(env: Env, c: Client, s: ServerState): Option<(Client, ServerState)> {
    var m := MoveRight(env, c, s);
    if m.Step? && m.effect.Applied? && |m.client.passed| == |c.passed| + 1 then Some((m.client, m.server)) else None
  }

  function Rights(env: Env, c: Client, s: ServerState, n: nat): Option<(Client, ServerState)> {
    Advanced((c, s) => PassRight(env, c, s), c, s, n)
  }

  /** Left moves show the sentence from the clauses passed, the newest first. */
  lemma {:induction false} LeftsShow(c: Client, s: ServerState, n: nat)
    ensures var k := |c.passed| - n;
            Lefts(c, s, n).0.passed == c.passed[..if k < 0 then 0 else k]
            && Displayed(Lefts(c, s, n).0) ==
                 if n == 0 || c.passed == [] then Displayed(c) else DisplayedAt(c.passed[if k < 0 then 0 else k])
    decreases n
  {
    if n > 0 {
      var m := MoveLeft(c, s);
      LeftsShow(m.client, m.server, n - 1);
    } else {
      assert c.passed[..|c.passed|] == c.passed;
    }
  }

  ghost predicate LeftsKeep(c: Client, s: ServerState) {
    forall n: nat :: Displayed(Lefts(c, s, n).0) == Displayed(c)
  }

  /** No number of left moves changes the displayed sentence exactly when all snapshots agree on it. */
  lemma LeftsKeepDisplay(c: Client, s: ServerState)
    ensures Agree(c) <==> LeftsKeep(c, s)
  {
    if Agree(c) {
      forall n: nat ensures Displayed(Lefts(c, s, n).0) == Displayed(c) {
        LeftsShow(c, s, n);
      }
    }
    if LeftsKeep(c, s) {
      forall i | 0 <= i < |c.passed| ensures DisplayedAt(c.passed[i]) == Displayed(c) {
        var n: nat := |c.passed| - i;
        LeftsShow(c, s, n);
        assert Displayed(Lefts(c, s, n).0) == Displayed(c);
      }
    }
  }

  /** After selecting a candidate, any number of left moves leaves the displayed sentence as it is. */
  lemma LeftsAfterSelection(c: Client, s: ServerState, kind: SetSelectionType, n: nat)
    requires Inv(c, s)
    ensures var r := SetSelection(c, kind); r.1.Applied? ==> Displayed(Lefts(r.0, s, n).0) == Displayed(r.0)
  {
    SelectionAgrees(c, s, kind);
    if SetSelection(c, kind).1.Applied? {
      LeftsKeepDisplay(SetSelection(c, kind).0, s);
    }
  }

  /** After a boundary edit, any number of left moves leaves the displayed sentence as it is. */
  lemma LeftsAfterBoundaryEdit(env: Env, c: Client, s: ServerState, direction: int, n: nat)
    requires Inv(c, s) && -1 <= direction <= 1
    ensures var m := AdjustBoundary(env, c, s, direction);
            m.Step? && m.effect.Applied? ==> Displayed(Lefts(m.client, m.server, n).0) == Displayed(m.client)
  {
    AdjustBoundaryAgrees(env, c, s, direction);
    var m := AdjustBoundary(env, c, s, direction);
    if m.Step? && m.effect.Applied? {
      LeftsKeepDisplay(m.client, m.server);
    }
  }

  /* ----- right moves undone by left moves ----- */

  /** `next` has passed exactly the current clause of `c`. */
  ghost predicate Passed(c: Client, s: ServerState, next: Client, server: ServerState) {
    next.passed == c.passed + [SnapshotOf(c)] && next.nextGroup == c.nextGroup
    && server.snapshots == s.snapshots + [s.text]
  }

  lemma PassRightPasses(env: Env, c: Client, s: ServerState)
    ensures var r := PassRight(env, c, s); r.Some? ==> Passed(c, s, r.value.0, r.value.1)
  {
    MoveRightStacks(env, c, s);
  }

  /** The clause entered by a left move does not depend on the future cache. */
  lemma LeftUndoesPassing(c: Client, s: ServerState, at: Client, server: ServerState)
    requires Passed(c, s, at, server)
    ensures var m := MoveLeft(at, server);
            m.client == c.(future := m.client.future) && m.server == s
  {
  }

  lemma {:induction false} LeftsLast(c: Client, s: ServerState, n: nat)
    ensures Lefts(c, s, n + 1) == (var l := Lefts(c, s, n); var m := MoveLeft(l.0, l.1); (m.client, m.server))
    decreases n
  {
    if n > 0 {
      var m := MoveLeft(c, s);
      LeftsLast(m.client, m.server, n - 1);
    }
  }

  /** Left moves undo any steps that each pass one clause. */
  lemma {:induction false} LeftsUndoAdvance(step: Advance, c: Client, s: ServerState, n: nat)
    requires forall c, s {:trigger step(c, s)} ::
      step(c, s).Some? ==> Passed(c, s, step(c, s).value.0, step(c, s).value.1)
    requires Advanced(step, c, s, n).Some?
    ensures var r := Advanced(step, c, s, n).value;
            var l := Lefts(r.0, r.1, n);
            l.0 == c.(future := l.0.future) && l.1 == s
    decreases n
  {
    if n > 0 {
      var m := step(c, s).value;
      LeftsUndoAdvance(step, m.0, m.1, n - 1);
      var r := Advanced(step, c, s, n).value;
      var l := Lefts(r.0, r.1, n - 1);
      LeftsLast(r.0, r.1, n - 1);
      LeftUndoesPassing(c, s, l.0, l.1);
    }
  }

  /** For every n: n right moves followed by n left moves restore the whole client except the future
      cache, and the server's text, cursor and saved texts exactly. */
  lemma LeftsUndoRights(env: Env, c: Client, s: ServerState, n: nat)
    requires Rights(env, c, s, n).Some?
    ensures var r := Rights(env, c, s, n).value;
            var l := Lefts(r.0, r.1, n);
            l.0 == c.(future := l.0.future) && l.1 == s
  {
    var step: Advance := (c, s) => PassRight(env, c, s);
    forall c, s ensures step(c, s).Some? ==> Passed(c, s, step(c, s).value.0, step(c, s).value.1) {
      PassRightPasses(env, c, s);
    }
    LeftsUndoAdvance(step, c, s, n);
  }

  /* ----- a left move undone by a right move ----- */

  /** The server's answer once the right move has dropped the passed clause's inputs again. */
  function ReenteredReply(env: Env, c: Client, s: ServerState): Option<Reply>
    requires c.passed != []
  {
    ShrinkRpc(env, Push(Pop(s)), c.passed[|c.passed| - 1].count)
  }

  /** MoveLeft then MoveRight through the cache: the clause comes back with its text, prefix, raw input,
      reading, count and split marks, both stacks and the cache are as before, and the server holds
      the same input. */
  lemma CacheRoundTrip(env: Env, c: Client, s: ServerState)
    requires Inv(c, s) && c.passed != [] && c.passed[|c.passed| - 1].suffix != ""
    requires var r := ReenteredReply(env, c, s);
             r.Some? && !r.value.candidates.IsEmptyComposition()
             && FutureMatches(c.future + [FutureOf(c)], r.value.candidates)
    ensures var l := MoveLeft(c, s);
            var m := MoveRight(env, l.client, l.server);
            && m.Step? && m.effect == Applied(true)
            && m.client == c.(selection := ResolveSelection(FutureOf(c)),
                              suffix := SyncedSuffix(c.candidates, ResolveSelection(FutureOf(c)), c.count, c.future),
                              candidates := SyncedCandidates(c.candidates, c.future))
            && m.server.snapshots == s.snapshots && m.server.text.input == s.text.input
  {
    var top := c.passed[|c.passed| - 1];
    var l := MoveLeft(c, s);
    var r := ReenteredReply(env, c, s).value;
    var f := FutureOf(c);
    assert SnapshotOf(l.client) == top;
    assert l.client.passed + [top] == c.passed;
    var next := Passing(l.client, r.candidates);
    assert top.preview == PrefixAbove(c, |c.passed| - 1) == c.fixedPrefix;
    SplitPreview(top.preview, top.fixedPrefix);
    assert next.fixedPrefix == c.fixedPrefix;
    assert next.future[..|next.future| - 1] == c.future;
    SplitPreview(c.preview, c.fixedPrefix);
    SteerKeeps(env, next.candidates, r.server, f.rawHiragana, f.selectedSubText, f.count,
               StepsFor(next.candidates), None);
    assert Push(Pop(s)).snapshots == s.snapshots;
    assert Skip(s.snapshots[|s.snapshots| - 1].input, top.count) == s.text.input;
  }

  /** The clause that comes back shows the sentence it was left with exactly when its remainder followed the
      cached next clause already. */
  lemma RoundTripKeepsSentence(env: Env, c: Client, s: ServerState)
    requires Inv(c, s) && c.passed != [] && c.passed[|c.passed| - 1].suffix != ""
    requires var r := ReenteredReply(env, c, s);
             r.Some? && !r.value.candidates.IsEmptyComposition()
             && FutureMatches(c.future + [FutureOf(c)], r.value.candidates)
    requires 0 <= c.selection < |c.candidates.texts| && c.count == At(c.candidates.counts, c.selection, 0)
    requires |c.candidates.texts| <= |c.candidates.subTexts| && |c.candidates.texts| <= |c.candidates.counts|
    ensures var l := MoveLeft(c, s);
            var m := MoveRight(env, l.client, l.server);
            m.Step? && (Displayed(m.client) == Displayed(c) <==> WithSyncedSuffix(c).suffix == c.suffix)
  {
    CacheRoundTrip(env, c, s);
    ResolvedChoice(c);
    var l := MoveLeft(c, s);
    var m := MoveRight(env, l.client, l.server);
    assert m.client.suffix == WithSyncedSuffix(c).suffix;
    assert Displayed(m.client)[|c.preview|..] == m.client.suffix && Displayed(c)[|c.preview|..] == c.suffix;
  }

  /** In particular whenever the server reports the reading the clause was left with. */
  lemma SameReadingRoundTrip(env: Env, c: Client, s: ServerState)
    requires Inv(c, s) && c.passed != [] && c.passed[|c.passed| - 1].suffix != ""
    requires var r := ReenteredReply(env, c, s);
             r.Some? && !r.value.candidates.IsEmptyComposition() && r.value.candidates.hiragana == c.rawHiragana
    ensures var l := MoveLeft(c, s);
            var m := MoveRight(env, l.client, l.server);
            m.Step? && m.client.preview == c.preview && m.client.fixedPrefix == c.fixedPrefix
            && m.client.rawInput == c.rawInput && m.client.rawHiragana == c.rawHiragana
            && m.client.count == c.count && m.client.mark == c.mark
            && m.client.passed == c.passed && m.client.future == c.future
  {
    CacheRoundTrip(env, c, s);
  }

  lemma {:induction false} FirstCachedFinds(c: Candidates, text: string, subText: string, count: int, i: nat, at: nat)
    requires i <= at < |c.texts| && |c.texts| <= |c.subTexts| && |c.texts| <= |c.counts|
    requires c.texts[at] == text && c.subTexts[at] == subText && c.counts[at] == count
    ensures var r := FirstCached(c, text, subText, count, i);
            && r.Some? && r.value <= at && c.texts[r.value] == text
            && c.subTexts[r.value] == subText && c.counts[r.value] == count
    decreases |c.texts| - i
  {
    if !(c.texts[i] == text && c.subTexts[i] == subText && c.counts[i] == count) {
      FirstCachedFinds(c, text, subText, count, i + 1, at);
    }
  }

  /** The candidate selected again on coming back reads the same as the one that was selected. */
  lemma ResolvedChoice(c: Client)
    requires 0 <= c.selection < |c.candidates.texts|
    requires |c.candidates.texts| <= |c.candidates.subTexts| && |c.candidates.texts| <= |c.candidates.counts|
    requires c.count == c.candidates.counts[c.selection]
    ensures var k := ResolveSelection(FutureOf(c));
            0 <= k <= c.selection && c.candidates.texts[k] == c.candidates.texts[c.selection]
            && c.candidates.subTexts[k] == c.candidates.subTexts[c.selection] && c.candidates.counts[k] == c.count
  {
    FirstCachedFinds(c.candidates, c.candidates.texts[c.selection], c.candidates.subTexts[c.selection], c.count, 0,
                     c.selection);
  }

  /* ----- moving to the last clause ----- */

  /** A right move is refused exactly when something follows the clause and its count is not one the
      server's 8-bit offset can carry. */
  lemma RightRefused(env: Env, c: Client, s: ServerState)
    ensures MoveRight(env, c, s).Failed? <==> c.suffix != "" && !(0 <= c.count <= 127)
  {
  }

  /** The server refuses the count of the current clause. */
  predicate Refuses(c: Client) {
    c.suffix != "" && !(0 <= c.count <= 127)
  }

  /** A right move that makes progress and has somewhere to go on to. */
  function Onward(env: Env, c: Client, s: ServerState): Option<(Client, ServerState)> {
    var m := MoveRight(env, c, s);
    if m.Step? && m.effect.Applied? && !SameProgress(c, m.client) && m.client.suffix != ""
    then Some((m.client, m.server))
    else None
  }

  /** Some clause met on the way to the last one is refused. */
  ghost predicate RefusedAhead(env: Env, c: Client, s: ServerState) {
    exists n: nat :: RefusedAfter(env, c, s, n)
  }

  predicate RefusedAfter(env: Env, c: Client, s: ServerState, n: nat)
    decreases n
  {
    if n == 0 then Refuses(c)
    else var next := Onward(env, c, s); next.Some? && RefusedAfter(env, next.value.0, next.value.1, n - 1)
  }

  lemma RefusedAheadStep(env: Env, c: Client, s: ServerState)
    ensures var next := Onward(env, c, s);
            RefusedAhead(env, c, s) <==> Refuses(c) || (next.Some? && RefusedAhead(env, next.value.0, next.value.1))
  {
    var next := Onward(env, c, s);
    if n: nat :| RefusedAfter(env, c, s, n) {
      if n > 0 {
        assert RefusedAfter(env, next.value.0, next.value.1, n - 1);
      }
    }
    if Refuses(c) {
      assert RefusedAfter(env, c, s, 0);
    }
    if next.Some? {
      if n: nat :| RefusedAfter(env, next.value.0, next.value.1, n) {
        assert RefusedAfter(env, c, s, n + 1);
      }
    }
  }

  /** Moving to the last clause is refused exactly when some clause met on the way is. */
  lemma {:induction false} ToLastRefused(env: Env, c: Client, s: ServerState, moved: bool)
    requires env.Contract()
    ensures MoveToLastFrom(env, c, s, moved).Failed? <==> RefusedAhead(env, c, s)
    decreases InputLeft(s), |c.future|, StuckCount(c)
  {
    RefusedAheadStep(env, c, s);
    RightRefused(env, c, s);
    var next := Onward(env, c, s);
    if next.Some? {
      MoveRightMeasure(env, c, s);
      ToLastRefused(env, next.value.0, next.value.1, true);
    }
  }

  /** So is the look-ahead. */
  lemma {:induction false} WalkRefused(env: Env, start: Client, c: Client, s: ServerState,
                                       collected: seq<FutureSnapshot>)
    requires env.Contract()
    ensures WalkFrom(env, start, c, s, collected).None? <==> RefusedAhead(env, c, s)
    decreases InputLeft(s), |c.future|, StuckCount(c)
  {
    RefusedAheadStep(env, c, s);
    RightRefused(env, c, s);
    var next := Onward(env, c, s);
    if next.Some? {
      MoveRightMeasure(env, c, s);
      WalkRefused(env, start, next.value.0, next.value.1,
                  collected + [Collected(start, next.value.0, collected == [])]);
    }
  }

  /** Starting navigation is refused exactly when it starts at all and the look-ahead over the rest is refused. */
  lemma StartRefused(env: Env, c: Client, s: ServerState)
    requires env.Contract()
    ensures var nav := env.prefix(s.text);
            var sel := SelectForPreview(nav, c.preview, c.fixedPrefix, c.selection);
            StartNavigation(env, c, s).Failed? <==>
              && !Active(c) && c.candidates.texts != [] && c.rawHiragana != "" && c.suffix == ""
              && !nav.IsEmptyComposition() && sel.Some? && SplitsRawInput(sel.value, c.rawInput)
              && var first := FirstClause(c, nav, sel.value);
                 first.suffix != "" && RefusedAhead(env, first.(passed := [], future := []), s)
  {
    var nav := env.prefix(s.text);
    var sel := SelectForPreview(nav, c.preview, c.fixedPrefix, c.selection);
    if sel.Some? {
      var first := FirstClause(c, nav, sel.value);
      WalkRefused(env, first, first.(passed := [], future := []), s, []);
    }
  }

  /** A right move that applies without progress was undone completely. */
  lemma NoProgressNoChange(env: Env, c: Client, s: ServerState)
    requires var m := MoveRight(env, c, s); m.Step? && m.effect.Applied? && SameProgress(c, m.client)
    ensures var m := MoveRight(env, c, s); m.client == c && m.server == s
  {
  }

  /** MoveToLast always terminates, and unless the server lost its text or refused a call it stops at
      the last clause, or where the server offers nothing for the clause ahead. */
  lemma {:induction false} MoveToLastArrives(env: Env, c: Client, s: ServerState, moved: bool)
    requires env.Contract()
    ensures var m := MoveToLastFrom(env, c, s, moved);
            m.Step? && !m.effect.ServerReset? ==>
              || m.client.suffix == ""
              || MoveRight(env, m.client, m.server) == Step(m.client, m.server, Applied(true))
    decreases InputLeft(s), |c.future|, StuckCount(c)
  {
    var m := MoveRight(env, c, s);
    if m.Step? && m.effect.Applied? {
      if SameProgress(c, m.client) {
        NoProgressNoChange(env, c, s);
      } else if m.client.suffix != "" {
        MoveRightMeasure(env, c, s);
        MoveToLastArrives(env, m.client, m.server, true);
      }
    }
  }
}
