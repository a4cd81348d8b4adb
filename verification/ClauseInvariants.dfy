/** What every step of the clause state machine keeps between the client's stack of passed clauses,
    the server's stack of saved texts, and the text on display. */
module ClauseInvariants {
  import opened Text
  import opened DelayedN
  import opened Clauses
  import opened FutureCache
  import opened ConversionServer
  import opened ClauseTransitions

  /** The server text saved just above the `i`-th one, the current text at the top. */
  function TextAbove(s: ServerState, i: nat): ComposingText
    requires i < |s.snapshots|
  {
    if i + 1 < |s.snapshots| then s.snapshots[i + 1] else s.text
  }

  /** The two stacks have the same height, and each saved server text without the inputs of the
      passed clause beside it is the next server text. */
  ghost predicate Aligned(c: Client, s: ServerState) {
    && |c.passed| == |s.snapshots|
    && forall i {:trigger c.passed[i].count} :: 0 <= i < |c.passed| ==>
         0 <= c.passed[i].count && Skip(s.snapshots[i].input, c.passed[i].count) == TextAbove(s, i).input
  }

  function PrefixAbove(c: Client, i: nat): string
    requires i < |c.passed|
  {
    if i + 1 < |c.passed| then c.passed[i + 1].fixedPrefix else c.fixedPrefix
  }

  /** Each clause's text continues the text of the clauses passed before it. */
  ghost predicate PrefixChain(c: Client) {
    && c.fixedPrefix <= c.preview
    && forall i {:trigger c.passed[i].preview} :: 0 <= i < |c.passed| ==>
         c.passed[i].fixedPrefix <= c.passed[i].preview && c.passed[i].preview == PrefixAbove(c, i)
  }

  predicate MarkOk(m: SplitMark) {
    m.group.Some? ==> m.derived
  }

  /** Only clauses that come from a split belong to a split group. */
  ghost predicate Grouped(c: Client) {
    MarkOk(c.mark) && forall i :: 0 <= i < |c.passed| ==> MarkOk(c.passed[i].mark)
  }

  ghost predicate Inv(c: Client, s: ServerState) {
    Aligned(c, s) && PrefixChain(c) && Grouped(c)
  }

  lemma EmptyInv()
    ensures Inv(EMPTY_CLIENT, EMPTY_SERVER)
  {
  }

  /* ----- the remaining input ----- */

  function SumCounts(passed: seq<ClauseSnapshot>): int {
    if passed == [] then 0 else SumCounts(passed[..|passed| - 1]) + passed[|passed| - 1].count
  }

  /* ----- pushing and popping ----- */

  lemma AlignedPop(c: Client, s: ServerState, next: Client)
    requires Aligned(c, s) && c.passed != []
    requires next.passed == c.passed[..|c.passed| - 1]
    ensures Aligned(next, Pop(s))
  {
  }

  /** What the server still holds is the text it started from without the inputs of all passed clauses. */
  lemma {:induction false} RemainingInput(c: Client, s: ServerState)
    requires Aligned(c, s)
    ensures 0 <= SumCounts(c.passed)
    ensures s.text.input == Skip(if s.snapshots == [] then s.text.input else s.snapshots[0].input, SumCounts(c.passed))
    decreases |c.passed|
  {
    if c.passed != [] {
      var n := |c.passed| - 1;
      var below := c.(passed := c.passed[..n]);
      AlignedPop(c, s, below);
      RemainingInput(below, Pop(s));
      assert s.text.input == Skip(s.snapshots[n].input, c.passed[n].count) by {
        assert TextAbove(s, n) == s.text;
      }
      SkipSkip(s.snapshots[0].input, SumCounts(below.passed), c.passed[n].count);
    }
  }

  /** Same stacks, same remaining input: the cursor does not matter. */
  lemma AlignedSame(c: Client, s: ServerState, next: Client, moved: ServerState)
    requires Aligned(c, s)
    requires |next.passed| == |c.passed|
    requires forall i :: 0 <= i < |c.passed| ==> next.passed[i].count == c.passed[i].count
    requires moved.snapshots == s.snapshots && moved.text.input == s.text.input
    ensures Aligned(next, moved)
  {
  }

  lemma PrefixChainPush(c: Client, next: Client)
    requires PrefixChain(c) && next.passed == c.passed + [SnapshotOf(c)]
    requires next.fixedPrefix == c.preview && next.fixedPrefix <= next.preview
    ensures PrefixChain(next)
  {
  }

  lemma PrefixChainPop(c: Client, next: Client)
    requires PrefixChain(c) && c.passed != []
    requires next.passed == c.passed[..|c.passed| - 1]
    requires next.fixedPrefix == c.passed[|c.passed| - 1].fixedPrefix
    requires next.preview == c.passed[|c.passed| - 1].preview
    ensures PrefixChain(next)
  {
  }

  /** The texts the chain speaks of are unchanged. */
  lemma PrefixChainSame(c: Client, next: Client)
    requires PrefixChain(c)
    requires next.fixedPrefix == c.fixedPrefix && next.fixedPrefix <= next.preview
    requires |next.passed| == |c.passed|
    requires forall i :: 0 <= i < |c.passed| ==>
      next.passed[i].preview == c.passed[i].preview && next.passed[i].fixedPrefix == c.passed[i].fixedPrefix
    ensures PrefixChain(next)
  {
  }

  /** An edit of the current clause that leaves the passed clauses' places alone. */
  lemma InvEdited(c: Client, s: ServerState, next: Client, moved: ServerState)
    requires Inv(c, s)
    requires next.fixedPrefix == c.fixedPrefix && next.fixedPrefix <= next.preview && MarkOk(next.mark)
    requires |next.passed| == |c.passed|
    requires forall i :: 0 <= i < |c.passed| ==>
      next.passed[i].preview == c.passed[i].preview && next.passed[i].fixedPrefix == c.passed[i].fixedPrefix
      && next.passed[i].count == c.passed[i].count && next.passed[i].mark == c.passed[i].mark
    requires moved.snapshots == s.snapshots && moved.text.input == s.text.input
    ensures Inv(next, moved)
  {
  }

  /* ----- the steps ----- */

  lemma PassingInv(env: Env, c: Client, s: ServerState)
    requires Inv(c, s)
    requires ShrinkRpc(env, Push(s), c.count).Some?
    ensures var r := ShrinkRpc(env, Push(s), c.count).value;
            var next := Passing(c, r.candidates);
            Aligned(next, r.server) && Grouped(next) && next.fixedPrefix == c.preview
  {
  }

  lemma EnterCachedInv(env: Env, c: Client, next: Client, s: ServerState)
    requires PrefixChain(c) && next.passed == c.passed + [SnapshotOf(c)] && next.fixedPrefix == c.preview
    requires Aligned(next, s) && Grouped(next) && next.future != []
    ensures var m := EnterCached(env, next, s); Inv(m.client, m.server)
  {
    var f := next.future[|next.future| - 1];
    var m := EnterCached(env, next, s);
    SteerKeeps(env, next.candidates, s, f.rawHiragana, f.selectedSubText, f.count,
               StepsFor(next.candidates), None);
    MergePreview(next.fixedPrefix, f.clausePreview);
    AlignedSame(next, s, m.client, m.server);
    PrefixChainPush(c, m.client);
  }

  lemma EnterFreshInv(env: Env, c: Client, next: Client, s: ServerState, back: ServerState)
    requires Inv(c, back) && next.passed == c.passed + [SnapshotOf(c)] && next.fixedPrefix == c.preview
    requires Aligned(next, s) && Grouped(next) && Pop(s) == back
    ensures var m := EnterFresh(env, next, s); Inv(m.client, m.server)
  {
  }

  lemma MoveRightInv(env: Env, c: Client, s: ServerState)
    requires Inv(c, s)
    ensures var m := MoveRight(env, c, s);
            m.Step? && !m.effect.ServerReset? ==> Inv(m.client, m.server)
  {
    if c.suffix != "" && ShrinkRpc(env, Push(s), c.count).Some? {
      var r := ShrinkRpc(env, Push(s), c.count).value;
      if !r.candidates.IsEmptyComposition() {
        var next := Passing(c, r.candidates);
        PassingInv(env, c, s);
        if FutureMatches(next.future, next.candidates) {
          EnterCachedInv(env, c, next, r.server);
        } else {
          PushPop(s);
          assert r.server.snapshots == Push(s).snapshots;
          EnterFreshInv(env, c, next, r.server, s);
        }
      }
    }
  }

  lemma MoveLeftInv(c: Client, s: ServerState)
    requires Inv(c, s)
    ensures var m := MoveLeft(c, s); m.Step? && Inv(m.client, m.server)
  {
    if c.passed != [] {
      var m := MoveLeft(c, s);
      AlignedPop(c, s, m.client);
      PrefixChainPop(c, m.client);
    }
  }

  lemma {:induction false} MoveToLastInv(env: Env, c: Client, s: ServerState, moved: bool)
    requires env.Contract() && Inv(c, s)
    ensures var m := MoveToLastFrom(env, c, s, moved);
            m.Step? && !m.effect.ServerReset? ==> Inv(m.client, m.server)
    decreases InputLeft(s), |c.future|, StuckCount(c)
  {
    MoveRightInv(env, c, s);
    var m := MoveRight(env, c, s);
    if m.Step? && m.effect.Applied? && !SameProgress(c, m.client) && m.client.suffix != "" {
      MoveRightMeasure(env, c, s);
      MoveToLastInv(env, m.client, m.server, true);
    }
  }

  /* ----- the look-ahead is invisible ----- */

  /** The server as it stands after a scratch walk that started in `home`: popping the scratch
      clauses' snapshots leads back there. */
  ghost predicate Away(home: ServerState, s: ServerState, height: nat) {
    && |s.snapshots| == |home.snapshots| + height
    && s.snapshots[..|home.snapshots|] == home.snapshots
    && (if height == 0 then s == home else s.snapshots[|home.snapshots|] == home.text)
  }

  lemma {:induction false} PopManyHome(home: ServerState, s: ServerState, height: nat)
    requires Away(home, s, height)
    ensures PopMany(s, height) == home
    decreases height
  {
    if height > 0 {
      var p := Pop(s);
      assert p.snapshots[..|home.snapshots|] == s.snapshots[..|home.snapshots|];
      if height == 1 {
        assert p.snapshots == home.snapshots;
      }
      PopManyHome(home, p, height - 1);
    }
  }

  /** A right move saves one text and adds one passed clause, or neither and leaves the server as it was;
      a cached clause only moves the cursor. */
  lemma MoveRightStacks(env: Env, c: Client, s: ServerState)
    ensures var m := MoveRight(env, c, s);
            m.Step? ==>
              || (m.client.passed == c.passed + [SnapshotOf(c)] && m.server.snapshots == s.snapshots + [s.text])
              || (m.client.passed == c.passed && m.server == s)
  {
    if c.suffix != "" && ShrinkRpc(env, Push(s), c.count).Some? {
      var r := ShrinkRpc(env, Push(s), c.count).value;
      var next := Passing(c, r.candidates);
      if !r.candidates.IsEmptyComposition() {
        if FutureMatches(next.future, next.candidates) {
          var f := next.future[|next.future| - 1];
          SteerKeeps(env, next.candidates, r.server, f.rawHiragana, f.selectedSubText, f.count,
                     StepsFor(next.candidates), None);
        } else {
          PushPop(s);
          assert next.passed[..|next.passed| - 1] == c.passed;
        }
      }
    }
  }

  lemma AwayStep(home: ServerState, env: Env, c: Client, s: ServerState)
    requires Away(home, s, |c.passed|)
    ensures var m := MoveRight(env, c, s);
            m.Step? ==> Away(home, m.server, |m.client.passed|)
  {
    MoveRightStacks(env, c, s);
    var m := MoveRight(env, c, s);
    if m.Step? && m.client.passed != c.passed {
      assert m.server.snapshots[..|home.snapshots|] == s.snapshots[..|home.snapshots|];
    }
  }

  lemma {:induction false} WalkAway(home: ServerState, env: Env, start: Client, c: Client, s: ServerState,
                                    collected: seq<FutureSnapshot>)
    requires env.Contract() && Away(home, s, |c.passed|)
    ensures var w := WalkFrom(env, start, c, s, collected);
            w.Some? ==> Away(home, w.value.server, |w.value.client.passed|)
    decreases InputLeft(s), |c.future|, StuckCount(c)
  {
    AwayStep(home, env, c, s);
    var m := MoveRight(env, c, s);
    if m.Step? && m.effect.Applied? && !SameProgress(c, m.client) && m.client.suffix != "" {
      MoveRightMeasure(env, c, s);
      WalkAway(home, env, start, m.client, m.server, collected + [Collected(start, m.client, collected == [])]);
    }
  }

  /** Rebuilding the future cache walks the server through all remaining clauses, yet its text, cursor and
      snapshots are as before, and of the client only the cache itself changes. */
  lemma RebuildInvisible(env: Env, c: Client, s: ServerState)
    requires env.Contract()
    ensures var r := Rebuild(env, c, s);
            r.Some? ==> r.value.1 == s && r.value.0 == c.(future := r.value.0.future)
  {
    if c.suffix != "" {
      var scratch := c.(passed := [], future := []);
      assert s.snapshots[..|s.snapshots|] == s.snapshots;
      WalkAway(s, env, c, scratch, s, []);
      var w := WalkFrom(env, c, scratch, s, []);
      if w.Some? {
        PopManyHome(s, w.value.server, |w.value.client.passed|);
      }
    }
  }

  lemma StartNavigationInv(env: Env, c: Client, s: ServerState)
    requires env.Contract() && Inv(c, s)
    ensures var m := StartNavigation(env, c, s);
            m.Step? ==> Inv(m.client, m.server) && m.server == s && m.client.passed == c.passed
  {
    var m := StartNavigation(env, c, s);
    if m.Step? && m.effect.Applied? {
      var nav := env.prefix(s.text);
      var sel := SelectForPreview(nav, c.preview, c.fixedPrefix, c.selection).value;
      var first := FirstClause(c, nav, sel);
      RebuildInvisible(env, first, s);
      MergePreview(c.fixedPrefix, sel.text);
      var kind := DisplayOverride(env.render, c.preview, c.fixedPrefix, c.rawInput, c.rawHiragana);
      if kind.Some? {
        var rebuilt := Rebuild(env, first, s).value.0;
        var parts := OverrideSplit(env.render, kind.value, rebuilt.rawInput, rebuilt.rawHiragana, rebuilt.count,
                                   Last(rebuilt.future));
        MergePreview(c.fixedPrefix, parts.0);
      }
      InvEdited(c, s, m.client, s);
    }
  }

  /* ----- edits of the current clause ----- */

  lemma SyncKeepsPlaces(c: Client)
    ensures var n := WithSyncedSnapshots(c);
            |n.passed| == |c.passed| && forall i :: 0 <= i < |c.passed| ==>
              n.passed[i].preview == c.passed[i].preview && n.passed[i].fixedPrefix == c.passed[i].fixedPrefix
              && n.passed[i].count == c.passed[i].count && n.passed[i].mark == c.passed[i].mark
  {
  }

  lemma SetSelectionInv(c: Client, s: ServerState, kind: SetSelectionType)
    requires Inv(c, s)
    ensures Inv(SetSelection(c, kind).0, s)
  {
    var desired := match kind
      case Up => c.selection - 1
      case Down => c.selection + 1
      case Number(i) => i;
    var sel := SelectCandidate(c.candidates, desired);
    if sel.Some? {
      MergePreview(c.fixedPrefix, sel.value.text);
      SyncKeepsPlaces(WithSyncedSuffix(Chosen(c, sel.value)));
      InvEdited(c, s, SetSelection(c, kind).0, s);
    }
  }

  lemma BoundarySelectionInv(c: Client, s: ServerState, sel: Selection, moved: ServerState)
    requires Inv(c, s) && moved.snapshots == s.snapshots && moved.text.input == s.text.input
    ensures Inv(ApplyBoundarySelection(c, sel), moved)
  {
    MergePreview(c.fixedPrefix, sel.text);
    SyncKeepsPlaces(WithSyncedSuffix(BoundaryEdited(c, sel)));
    InvEdited(c, s, ApplyBoundarySelection(c, sel), moved);
  }

  lemma AtBoundaryInv(env: Env, c: Client, home: ServerState, s: ServerState, direction: int, fallback: Candidates)
    requires Inv(c, home) && s.snapshots == home.snapshots && s.text.input == home.text.input
    ensures var m := AtBoundary(env, c, s, direction, fallback);
            m.Step? && Inv(m.client, m.server)
            && m.server.snapshots == home.snapshots && m.server.text.input == home.text.input
  {
    var boundary := env.prefix(s.text);
    var selected := SplitLeftCandidate(fallback, c.count);
    var m := AtBoundary(env, c, s, direction, fallback);
    if boundary.texts != [] {
      InvEdited(c, home, c.(candidates := boundary), home);
      BoundarySelectionInv(c.(candidates := boundary), home, SelectCandidate(boundary, 0).value, s);
    } else if direction < 0 && selected.Some? {
      InvEdited(c, home, c.(candidates := fallback), home);
      BoundarySelectionInv(c.(candidates := fallback), home, selected.value, MoveWithin(env, s, 1));
    } else {
      InvEdited(c, home, m.client, m.server);
    }
  }

  lemma AdjustBoundaryInv(env: Env, c: Client, s: ServerState, direction: int)
    requires Inv(c, s) && -1 <= direction <= 1
    ensures var m := AdjustBoundary(env, c, s, direction);
            m.Step? && Inv(m.client, m.server)
            && m.server.snapshots == s.snapshots && m.server.text.input == s.text.input
  {
    if direction != 0 {
      var steered := if c.suffix != "" || c.future != []
                     then Steer(env, c.candidates, s, c.rawHiragana, c.suffix, c.count)
                     else Reply(c.candidates, s);
      SteerKeeps(env, c.candidates, s, c.rawHiragana, c.suffix, c.count,
                 StepsFor(c.candidates), None);
      var at := MoveRpc(env, steered.server, direction).value.server;
      InvEdited(c, s, c.(candidates := steered.candidates), s);
      AtBoundaryInv(env, c.(candidates := steered.candidates), s, at, direction, c.candidates);
    }
  }
}
