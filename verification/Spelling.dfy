/** Whether the client's raw input spells the input the server holds: where the two sides' bookkeeping of one
    clause boundary meets the clause moves. */
module Spelling {
  import opened Text
  import opened DelayedN
  import opened Clauses
  import opened ConversionServer
  import opened ClauseTransitions
  import opened ClauseInvariants
  import opened ClauseTheorems
  import opened Selecting

  /** The current clause's raw input spells the server's input, and each passed clause's the text saved beside it. */
  ghost predicate Spelled(c: Client, s: ServerState) {
    && Spells(c.rawInput, s.text.input)
    && |c.passed| == |s.snapshots|
    && forall i :: 0 <= i < |c.passed| ==> Spells(c.passed[i].rawInput, s.snapshots[i].input)
  }

  /** The raw input left after an adjusted count spells what the server keeps exactly when the client does not
      move the boundary on its own. */
  lemma SuffixSpells(raw: string, input: seq<InputElement>, count: int)
    requires Spells(raw, input) && ServerSplit(input, count) == count
    ensures Spells(RawInputSuffix(raw, count), Skip(input, count)) <==> !OnlyClientMoves(raw, input, count)
  {
    SplitAgreement(raw, input, count);
    if RawInputSuffix(raw, count) == Skip(raw, count) {
      assert Spells(Skip(raw, count), Skip(input, count));
    } else if |RawInputSuffix(raw, count)| == |Skip(raw, count)| {
      assert false;
    }
  }

  lemma PushedSpelled(c: Client, s: ServerState, next: Client, text: ComposingText)
    requires Spelled(c, s) && next.passed == c.passed + [SnapshotOf(c)]
    ensures Spelled(next, ServerState(text, s.snapshots + [s.text])) <==> Spells(next.rawInput, text.input)
  {
  }

  /** Same texts on both sides. */
  lemma SameSpelled(c: Client, s: ServerState, next: Client, moved: ServerState)
    requires Spelled(c, s) && next.rawInput == c.rawInput && |next.passed| == |c.passed|
    requires forall i :: 0 <= i < |c.passed| ==> next.passed[i].rawInput == c.passed[i].rawInput
    requires moved.text.input == s.text.input && moved.snapshots == s.snapshots
    ensures Spelled(next, moved)
  {
  }

  lemma LeftSpelled(c: Client, s: ServerState)
    requires Spelled(c, s)
    ensures Spelled(MoveLeft(c, s).client, MoveLeft(c, s).server)
  {
  }

  lemma SelectionSpelled(c: Client, s: ServerState, kind: SetSelectionType)
    requires Spelled(c, s)
    ensures Spelled(SetSelection(c, kind).0, s)
  {
    SameSpelled(c, s, SetSelection(c, kind).0, s);
  }

  lemma BoundarySpelled(env: Env, c: Client, s: ServerState, direction: int)
    requires Spelled(c, s) && Inv(c, s) && -1 <= direction <= 1
    ensures var m := AdjustBoundary(env, c, s, direction); Spelled(m.client, m.server)
  {
    AdjustBoundaryInv(env, c, s, direction);
    var m := AdjustBoundary(env, c, s, direction);
    if direction != 0 {
      var steered := if c.suffix != "" || c.future != []
                     then Steer(env, c.candidates, s, c.rawHiragana, c.suffix, c.count)
                     else Reply(c.candidates, s);
      var at := MoveRpc(env, steered.server, direction).value.server;
      AtBoundaryRaw(env, c.(candidates := steered.candidates), at, direction, c.candidates);
    }
    SameSpelled(c, s, m.client, m.server);
  }

  lemma BoundaryRaw(c: Client, sel: Selection)
    ensures var n := ApplyBoundarySelection(c, sel);
            n.rawInput == c.rawInput && |n.passed| == |c.passed|
            && forall i :: 0 <= i < |c.passed| ==> n.passed[i].rawInput == c.passed[i].rawInput
  {
  }

  lemma AtBoundaryRaw(env: Env, c: Client, s: ServerState, direction: int, fallback: Candidates)
    ensures var m := AtBoundary(env, c, s, direction, fallback);
            m.client.rawInput == c.rawInput && |m.client.passed| == |c.passed|
            && forall i :: 0 <= i < |c.passed| ==> m.client.passed[i].rawInput == c.passed[i].rawInput
  {
    var boundary := env.prefix(s.text);
    var selected := SplitLeftCandidate(fallback, c.count);
    if boundary.texts != [] {
      BoundaryRaw(c.(candidates := boundary), SelectCandidate(boundary, 0).value);
    } else if direction < 0 && selected.Some? {
      BoundaryRaw(c.(candidates := fallback), selected.value);
    }
  }

  lemma NavigationSpelled(env: Env, c: Client, s: ServerState)
    requires env.Contract() && Spelled(c, s)
    ensures var m := StartNavigation(env, c, s); m.Step? ==> Spelled(m.client, m.server)
  {
    var nav := env.prefix(s.text);
    var sel := SelectForPreview(nav, c.preview, c.fixedPrefix, c.selection);
    if sel.Some? {
      RebuildInvisible(env, FirstClause(c, nav, sel.value), s);
    }
    var m := StartNavigation(env, c, s);
    if m.Step? {
      SameSpelled(c, s, m.client, m.server);
    }
  }

  /** The next clause comes from the cache. */
  predicate EntersCached(env: Env, c: Client, s: ServerState) {
    c.future != [] && ShrinkRpc(env, Push(s), c.count).Some?
    && FutureMatches(c.future, ShrinkRpc(env, Push(s), c.count).value.candidates)
  }

  lemma CachedSpelled(env: Env, c: Client, s: ServerState, next: Client, at: ServerState)
    requires Spelled(c, s) && next.passed == c.passed + [SnapshotOf(c)] && next.future != []
    requires at.snapshots == s.snapshots + [s.text]
    ensures var m := EnterCached(env, next, at);
            Spelled(m.client, m.server) <==> Spells(next.future[|next.future| - 1].rawInput, at.text.input)
  {
    var f := next.future[|next.future| - 1];
    SteerKeeps(env, next.candidates, at, f.rawHiragana, f.selectedSubText, f.count, StepsFor(next.candidates), None);
    var m := EnterCached(env, next, at);
    PushedSpelled(c, s, m.client, m.server.text);
  }

  lemma FreshSpelled(env: Env, c: Client, s: ServerState, next: Client, at: ServerState)
    requires Spelled(c, s) && next.passed == c.passed + [SnapshotOf(c)] && at.snapshots == s.snapshots + [s.text]
    ensures var m := EnterFresh(env, next, at);
            if |m.client.passed| == |c.passed| then Spelled(m.client, m.server)
            else Spelled(m.client, m.server) <==> Spells(next.rawInput, at.text.input)
  {
    var m := EnterFresh(env, next, at);
    if |m.client.passed| == |c.passed| {
      assert next.passed[..|next.passed| - 1] == c.passed && at.snapshots[..|at.snapshots| - 1] == s.snapshots;
    } else {
      PushedSpelled(c, s, m.client, m.server.text);
    }
  }

  /** A right move over an adjusted count keeps the spelling exactly when it is undone, or the next clause is
      fresh and the client does not move the boundary on its own, or it is cached and its raw input still
      spells what the server keeps. */
  lemma RightSpelled(env: Env, c: Client, s: ServerState)
    requires Spelled(c, s) && ServerSplit(s.text.input, c.count) == c.count
    requires MoveRight(env, c, s).Step? && MoveRight(env, c, s).effect.Applied?
    ensures var m := MoveRight(env, c, s);
            Spelled(m.client, m.server) <==>
              if |m.client.passed| == |c.passed| then true
              else if EntersCached(env, c, s)
              then Spells(c.future[|c.future| - 1].rawInput, Skip(s.text.input, c.count))
              else !OnlyClientMoves(c.rawInput, s.text.input, c.count)
  {
    var r := ShrinkRpc(env, Push(s), c.count).value;
    var next := Passing(c, r.candidates);
    SuffixSpells(c.rawInput, s.text.input, c.count);
    if EntersCached(env, c, s) {
      CachedSpelled(env, c, s, next, r.server);
    } else {
      FreshSpelled(env, c, s, next, r.server);
    }
  }

  predicate OnLetters(raw: string, input: seq<InputElement>) {
    |raw| == |input| && forall i :: 0 <= i < |raw| ==> IsLetter(raw[i]) && !input[i].direct
  }

  /** On letters typed through romaji conversion a right move into a fresh clause always keeps it. */
  lemma RightSpelledOnLetters(env: Env, c: Client, s: ServerState)
    requires Spelled(c, s) && ServerSplit(s.text.input, c.count) == c.count && !EntersCached(env, c, s)
    requires OnLetters(c.rawInput, s.text.input)
    ensures var m := MoveRight(env, c, s); m.Step? && m.effect.Applied? ==> Spelled(m.client, m.server)
  {
    var m := MoveRight(env, c, s);
    if m.Step? && m.effect.Applied? {
      RightSpelled(env, c, s);
    }
  }

  /* ----- a cached clause that no longer fits ----- */

  function Letter(c: char): InputElement {
    InputElement(Some(c), false)
  }

  const HOME := ServerState(ComposingText([Letter('a'), Letter('b'), Letter('c'), Letter('d')], 0), [])
  const CUTS := Candidates(["a", "A"], ["cd", "bcd"], "abcd", [2, 1])
  const REST := Candidates(["Z"], [""], "cd", [2])

  /** A converter that offers two first clauses, of two inputs and of one. */
  function TwoCuts(): Env {
    Env((t: ComposingText) => if |t.input| == 2 then REST else if t.input == [] then NO_CANDIDATES
                              else Candidates(["Y"], [""], "bcd", [|t.input|]),
        (t: ComposingText) => if |t.input| == 4 then CUTS else NO_CANDIDATES,
        (t: ComposingText, i: int) => i, (t: ComposingText, n: nat) => n,
        (t: ComposingText, text: string, direct: bool) => t, (t: ComposingText) => t,
        (k: SetTextType, a: string, b: string) => "?", (before: string, text: string) => text)
  }

  const WHOLE := Client("acd", "", "abcd", "abcd", "", 4, 0, Candidates(["acd"], [""], "abcd", [4]), [], [], NO_SPLIT,
                        0)
  const CUT := Client("a", "cd", "abcd", "abcd", "", 2, 0, CUTS, [], [], SplitMark(true, false, false, None), 0)
  const LAST := Client("aZ", "", "cd", "cd", "a", 2, 0, REST, [SnapshotOf(CUT)], [], NO_SPLIT, 0)
  const CACHED := FutureSnapshot("Z", "", "cd", "cd", false, 2, 0, SplitMark(true, true, true, None), "Z", "", REST)

  lemma CutFirst()
    ensures SelectForPreview(CUTS, WHOLE.preview, WHOLE.fixedPrefix, 0) == Some(Selection(0, "a", "cd", "abcd", 2))
    ensures FirstClause(WHOLE, CUTS, Selection(0, "a", "cd", "abcd", 2)) == CUT
  {
    assert FirstExactSplit(CUTS, "acd", 0) == Some(0);
    assert CUTS.(subTexts := SetAt(CUTS.subTexts, 0, "cd")) == CUTS;
  }

  lemma CutRight()
    ensures MoveRight(TwoCuts(), CUT, HOME)
         == Step(LAST, ServerState(ComposingText([Letter('c'), Letter('d')], 2), [HOME.text]), Applied(true))
  {
    var r := ShrinkRpc(TwoCuts(), Push(HOME), 2).value;
    assert Skip(HOME.text.input, 2) == [Letter('c'), Letter('d')];
    assert [] + [HOME.text] == [HOME.text];
    assert r == Reply(REST, ServerState(ComposingText([Letter('c'), Letter('d')], 2), [HOME.text]));
    var next := Passing(CUT, REST);
    assert RawInputSuffix("abcd", 2) == "cd";
    assert "" + "a" == "a" && [] + [SnapshotOf(CUT)] == [SnapshotOf(CUT)];
    assert next == Client("a", "cd", "cd", "abcd", "a", 2, 0, REST, [SnapshotOf(CUT)], [], CUT.mark, 0);
    assert Entered(next, Selection(0, "Z", "", "cd", 2)) == LAST;
  }

  lemma CutCollected()
    ensures Collected(CUT, LAST, true) == CACHED
  {
    RecoveredExactly("abcd", "cd");
    assert ClausePreview("aZ", "a") == "Z";
  }

  lemma CutContract()
    ensures TwoCuts().Contract()
  {
  }

  lemma CutWalk()
    ensures TwoCuts().Contract()
    ensures Rebuild(TwoCuts(), CUT, HOME) == Some((CUT.(future := [CACHED]), HOME))
  {
    CutContract();
    CutRight();
    CutCollected();
    WalkEnds(TwoCuts(), CUT, CUT, HOME, []);
    var at := ServerState(ComposingText([Letter('c'), Letter('d')], 2), [HOME.text]);
    assert [] + [CACHED] == [CACHED] && Reversed([CACHED]) == [CACHED];
    assert PopMany(at, 1) == PopMany(Pop(at), 0) && Pop(at) == HOME;
    assert CUT.(passed := [], future := []) == CUT;
  }

  /** Navigation started, and then the shorter of the two first clauses chosen. */
  const NAVIGATED := WithSyncedSuffix(CUT.(future := [CACHED]))
  const SHORTER := SetSelection(NAVIGATED, Down).0

  lemma NavigatedFrom()
    ensures TwoCuts().Contract()
    ensures StartNavigation(TwoCuts(), WHOLE, HOME) == Step(NAVIGATED, HOME, Applied(true))
  {
    CutFirst();
    CutWalk();
    StartsWith(TwoCuts(), WHOLE, HOME, Selection(0, "a", "cd", "abcd", 2), CUT.(future := [CACHED]));
  }

  lemma NotEmptied(subText: string, f: FutureSnapshot)
    requires Display(f) != "" && subText != ""
    ensures ReplaceFutureSuffix(subText, f).GetOr(subText) != ""
  {
  }

  lemma ShorterIs()
    ensures SetSelection(NAVIGATED, Down).1.Applied?
    ensures SHORTER.rawInput == "abcd" && SHORTER.count == 1 && SHORTER.future == [CACHED]
    ensures SHORTER.passed == [] && SHORTER.suffix != ""
  {
    var c := NAVIGATED;
    NotEmptied("bcd", CACHED);
    assert c.candidates.subTexts[1] == ReplaceFutureSuffix("bcd", CACHED).GetOr("bcd");
    NotEmptied(c.candidates.subTexts[1], CACHED);
    var d := Chosen(c, SelectCandidate(c.candidates, 1).value);
    assert WithSyncedSuffix(d).suffix
        == ReplaceFutureSuffix(c.candidates.subTexts[1], CACHED).GetOr(c.candidates.subTexts[1]);
  }

  lemma ShorterEnters(c: Client)
    requires c.future == [CACHED] && c.count == 1
    ensures EntersCached(TwoCuts(), c, HOME)
    ensures !ShrinkRpc(TwoCuts(), Push(HOME), c.count).value.candidates.IsEmptyComposition()
  {
    var r := ShrinkRpc(TwoCuts(), Push(HOME), 1).value;
    assert Skip(HOME.text.input, 1) == [Letter('b'), Letter('c'), Letter('d')];
    assert r.candidates == Candidates(["Y"], [""], "bcd", [3]);
    assert "bcd"[1..] == "cd" && EndsWith("bcd", "cd");
  }

  /** A right move that applies and after which the client's raw input no longer spells the server's. */
  ghost predicate LosesSpelling(env: Env, c: Client, s: ServerState) {
    var m := MoveRight(env, c, s);
    Spelled(c, s) && m.Step? && m.effect.Applied? && !Spelled(m.client, m.server)
  }

  lemma StaleInput(env: Env, c: Client)
    requires c.rawInput == "abcd" && c.count == 1 && c.future == [CACHED] && c.passed == [] && c.suffix != ""
    requires EntersCached(env, c, HOME) && !ShrinkRpc(env, Push(HOME), c.count).value.candidates.IsEmptyComposition()
    ensures LosesSpelling(env, c, HOME)
  {
    RightEntersCached(env, c, HOME);
    RightSpelled(env, c, HOME);
    MoveRightStacks(env, c, HOME);
  }

  /** Letters only, counts that are already adjusted, and yet after choosing a shorter first clause and moving
      right into the cached next one the client's raw input does not spell the server's. */
  lemma CachedInputStale()
    ensures TwoCuts().Contract()
    ensures var c := SetSelection(NAVIGATED, Down).0;
            && StartNavigation(TwoCuts(), WHOLE, HOME) == Step(NAVIGATED, HOME, Applied(true))
            && c.rawInput == "abcd" && OnLetters("abcd", HOME.text.input)
            && ServerSplit(HOME.text.input, c.count) == c.count && LosesSpelling(TwoCuts(), c, HOME)
  {
    NavigatedFrom();
    ShorterIs();
    HomeLetters();
    StaleAfter(SHORTER);
  }

  lemma StaleAfter(c: Client)
    requires c.rawInput == "abcd" && c.count == 1 && c.future == [CACHED] && c.passed == [] && c.suffix != ""
    ensures LosesSpelling(TwoCuts(), c, HOME)
  {
    ShorterEnters(c);
    StaleInput(TwoCuts(), c);
  }

  lemma HomeLetters()
    ensures OnLetters("abcd", HOME.text.input) && ServerSplit(HOME.text.input, 1) == 1
  {
  }
}
