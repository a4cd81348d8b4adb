/** What the rules that pick a candidate guarantee: the pick is the best of its kind, and showing it keeps
    the sentence on display whenever any candidate can. */
module Selecting {
  import opened Text
  import opened Clauses
  import opened DelayedN
  import opened ConversionServer
  import opened ClauseInvariants
  import opened ClauseTransitions
  import opened ClauseTheorems

  function CountAt(c: Candidates, i: nat): int {
    At(c.counts, i, 0)
  }

  /* ----- the longest candidate that begins the shown text ----- */

  predicate Begins(c: Candidates, target: string, i: nat) {
    i < |c.texts| && c.texts[i] != "" && c.texts[i] <= target
  }

  /** More inputs, then more text, then later in the list. */
  predicate Beats(c: Candidates, i: nat, j: nat)
    requires i < |c.texts| && j < |c.texts|
  {
    CountAt(c, i) > CountAt(c, j)
    || (CountAt(c, i) == CountAt(c, j) && (|c.texts[i]| > |c.texts[j]| || (|c.texts[i]| == |c.texts[j]| && i > j)))
  }

  /** `r` is the best among the first `n` candidates that begin the shown text. */
  ghost predicate LongestOf(r: Option<nat>, c: Candidates, target: string, n: nat)
    requires n <= |c.texts|
  {
    if r.None? then forall j :: 0 <= j < n ==> !Begins(c, target, j)
    else
      r.value < n && Begins(c, target, r.value)
      && forall j :: 0 <= j < n && Begins(c, target, j) && j != r.value ==> Beats(c, r.value, j)
  }

  lemma {:induction false} LongestFrom(c: Candidates, target: string, i: nat, best: Option<nat>)
    requires i <= |c.texts| && LongestOf(best, c, target, i)
    ensures LongestOf(LongestBeginning(c, target, i, best), c, target, |c.texts|)
    decreases |c.texts| - i
  {
    if i < |c.texts| {
      var next := if Begins(c, target, i) && (best.None? || Beats(c, i, best.value)) then Some(i) else best;
      assert LongestOf(next, c, target, i + 1);
      LongestFrom(c, target, i + 1, next);
    }
  }

  lemma {:induction false} FirstExact(c: Candidates, target: string, i: nat)
    requires i <= |c.texts|
    ensures var r := FirstExactSplit(c, target, i);
            if r.None? then forall j :: i <= j < |c.texts| ==> c.texts[j] + At(c.subTexts, j, "") != target
            else c.texts[r.value] + At(c.subTexts, r.value, "") == target
                 && forall j :: i <= j < r.value ==> c.texts[j] + At(c.subTexts, j, "") != target
    decreases |c.texts| - i
  {
    if i < |c.texts| {
      FirstExact(c, target, i + 1);
    }
  }

  /** Candidate `j` and its remainder together are the shown text. */
  predicate Splits(c: Candidates, target: string, j: nat) {
    j < |c.texts| && c.texts[j] + At(c.subTexts, j, "") == target
  }

  /** The candidate picked for the text on display: the first that splits it exactly, else the best that
      begins it; only when there is neither does the old selection decide. */
  lemma PreviewPick(c: Candidates, preview: string, fixedPrefix: string, selection: int)
    ensures var target, r := ClausePreview(preview, fixedPrefix), SelectForPreview(c, preview, fixedPrefix, selection);
            var exact, longest := FirstExactSplit(c, target, 0), LongestBeginning(c, target, 0, None);
            && (if exact.None? then forall j: nat :: !Splits(c, target, j)
                else Splits(c, target, exact.value) && forall j: nat :: j < exact.value ==> !Splits(c, target, j))
            && LongestOf(longest, c, target, |c.texts|)
            && r == SelectCandidate(c, if exact.Some? then exact.value
                                       else if longest.Some? then longest.value else selection)
            && ((exists j :: Begins(c, target, j)) ==> r.Some? && r.value.text <= target)
  {
    var target := ClausePreview(preview, fixedPrefix);
    LongestFrom(c, target, 0, None);
    FirstExact(c, target, 0);
  }

  /* ----- starting navigation ----- */

  /** The remainder of the picked candidate as it is displayed once the clauses ahead are cached. */
  function ShownRest(nav: Candidates, s: Selection, rest: string, future: seq<FutureSnapshot>): string {
    if 0 <= s.index < |nav.subTexts|
    then if future == [] then rest else ReplaceFutureSuffix(rest, future[|future| - 1]).GetOr(rest)
    else if future == [] then "" else RawSuffix(nav.hiragana, s.count)
  }

  /** Displaying the remainder leaves it as it is: there is nothing cached, or the remainder does not end in the
      reading of the next cached clause, or that clause is displayed as it is read. */
  predicate KeepsRest(nav: Candidates, s: Selection, rest: string, future: seq<FutureSnapshot>) {
    if 0 <= s.index < |nav.subTexts| then
      future == [] || !EndsWith(rest, future[|future| - 1].rawHiragana)
      || Display(future[|future| - 1]) == future[|future| - 1].rawHiragana
    else rest == if future == [] then "" else RawSuffix(nav.hiragana, s.count)
  }

  lemma KeepsRestMeaning(nav: Candidates, s: Selection, rest: string, future: seq<FutureSnapshot>)
    ensures ShownRest(nav, s, rest, future) == rest <==> KeepsRest(nav, s, rest, future)
  {
    if future != [] && EndsWith(rest, future[|future| - 1].rawHiragana) {
      var f := future[|future| - 1];
      var head := StripSuffix(rest, f.rawHiragana).value;
      assert (head + Display(f))[|head|..] == Display(f) && (head + f.rawHiragana)[|head|..] == f.rawHiragana;
    }
  }

  /** The two parts the text on display is taken apart into: the picked candidate and what it leaves, or with a
      function-key rendering the renderings of their inputs. */
  function Parts(env: Env, c: Client, s: Selection, future: seq<FutureSnapshot>): (string, string) {
    var kind := DisplayOverride(env.render, c.preview, c.fixedPrefix, c.rawInput, c.rawHiragana);
    if kind.None? then (s.text, SuffixAfterSelected(c.preview, c.fixedPrefix, c.suffix, s))
    else OverrideSplit(env.render, kind.value, c.rawInput, s.hiragana, s.count, Last(future))
  }

  /** What is on display once navigation has started. */
  lemma StartDisplays(env: Env, c: Client, s: ServerState)
    requires env.Contract() && StartNavigation(env, c, s).Step? && StartNavigation(env, c, s).effect.Applied?
    ensures var nav := env.prefix(s.text);
            var sel := SelectForPreview(nav, c.preview, c.fixedPrefix, c.selection);
            var m := StartNavigation(env, c, s).client;
            && sel.Some? && c.suffix == ""
            && var parts := Parts(env, c, sel.value, m.future);
               m.preview == c.fixedPrefix + parts.0 && m.suffix == ShownRest(nav, sel.value, parts.1, m.future)
  {
    var nav := env.prefix(s.text);
    var sel := SelectForPreview(nav, c.preview, c.fixedPrefix, c.selection).value;
    var first := FirstClause(c, nav, sel);
    RebuildInvisible(env, first, s);
    MergePreview(c.fixedPrefix, sel.text);
    var kind := DisplayOverride(env.render, c.preview, c.fixedPrefix, c.rawInput, c.rawHiragana);
    var rebuilt := Rebuild(env, first, s).value.0;
    if kind.Some? {
      MergePreview(c.fixedPrefix, Parts(env, c, sel, rebuilt.future).0);
    }
  }

  lemma SameSentence(c: Client, head: string, rest: string, shown: string)
    requires c.fixedPrefix <= c.preview && c.suffix == ""
    ensures var text := ClausePreview(c.preview, c.fixedPrefix);
            && (c.fixedPrefix + head + shown == Displayed(c) <==> head + shown == text)
            && (head + rest == text ==> (head + shown == text <==> shown == rest))
            && (!(head <= text) ==> head + shown != text)
  {
    SplitPreview(c.preview, c.fixedPrefix);
    var n := |c.fixedPrefix|;
    assert (c.fixedPrefix + head + shown)[n..] == head + shown;
    assert Displayed(c)[n..] == ClausePreview(c.preview, c.fixedPrefix);
    assert c.fixedPrefix + head + shown == c.fixedPrefix + (head + shown);
    assert (head + shown)[|head|..] == shown && (head + rest)[|head|..] == rest;
    assert head <= head + shown;
  }

  /** Starting navigation keeps the sentence on display exactly when the two parts put together are the text it
      is taken from and displaying the second part leaves it as it is. */
  lemma NavigationKeepsSentence(env: Env, c: Client, s: ServerState)
    requires env.Contract() && c.fixedPrefix <= c.preview
    ensures var nav := env.prefix(s.text);
            var sel := SelectForPreview(nav, c.preview, c.fixedPrefix, c.selection);
            var text := ClausePreview(c.preview, c.fixedPrefix);
            var kind := DisplayOverride(env.render, c.preview, c.fixedPrefix, c.rawInput, c.rawHiragana);
            var m := StartNavigation(env, c, s);
            m.Step? && m.effect.Applied? ==>
              (&& sel.Some?
               && var parts := Parts(env, c, sel.value, m.client.future);
                  var kept := Displayed(m.client) == Displayed(c);
                  && (kind.None? ==>
                        (kept <==> sel.value.text <= text && KeepsRest(nav, sel.value, parts.1, m.client.future)))
                  && (parts.0 + parts.1 == text ==> (kept <==> KeepsRest(nav, sel.value, parts.1, m.client.future)))
                  && (!(parts.0 <= text) ==> !kept))
  {
    var nav := env.prefix(s.text);
    var m := StartNavigation(env, c, s);
    if m.Step? && m.effect.Applied? {
      StartDisplays(env, c, s);
      var sel := SelectForPreview(nav, c.preview, c.fixedPrefix, c.selection).value;
      var parts := Parts(env, c, sel, m.client.future);
      var shown := ShownRest(nav, sel, parts.1, m.client.future);
      SameSentence(c, parts.0, parts.1, shown);
      KeepsRestMeaning(nav, sel, parts.1, m.client.future);
    }
  }

  /** A converter that offers "a" for the first two of four inputs and, once asked again, "Z" for the rest. */
  function Fickle(): Env {
    Env((t: ComposingText) => if |t.input| == 2 then Candidates(["Z"], [""], "b", [2])
                              else if t.input == [] then NO_CANDIDATES else Candidates(["ab"], [""], "ab", [|t.input|]),
        (t: ComposingText) => if |t.input| == 4 then Candidates(["a"], ["b"], "ab", [2]) else NO_CANDIDATES,
        (t: ComposingText, i: int) => i, (t: ComposingText, n: nat) => n,
        (t: ComposingText, text: string, direct: bool) => t, (t: ComposingText) => t,
        (k: SetTextType, a: string, b: string) => "?", (before: string, text: string) => text)
  }

  const FOUR := InputElement(None, false)

  const OFFERED := Candidates(["a"], ["b"], "ab", [2])
  const LATER := Candidates(["Z"], [""], "b", [2])
  const AT_HOME := ServerState(ComposingText([FOUR, FOUR, FOUR, FOUR], 0), [])

  /** "ab" is on display for four inputs. */
  const BEFORE := Client("ab", "", "abcd", "ab", "", 4, 0, Candidates(["ab"], [""], "ab", [4]), [], [], NO_SPLIT, 0)

  const FIRST := Client("a", "b", "abcd", "ab", "", 2, 0, OFFERED, [], [], SplitMark(true, false, false, None), 0)

  /** The clause the look-ahead enters. */
  const ENTERED := Client("aZ", "", "cd", "b", "a", 2, 0, LATER, [SnapshotOf(FIRST)], [], NO_SPLIT, 0)

  lemma FickleFirst()
    ensures SelectForPreview(OFFERED, BEFORE.preview, BEFORE.fixedPrefix, 0) == Some(Selection(0, "a", "b", "ab", 2))
    ensures FirstClause(BEFORE, OFFERED, Selection(0, "a", "b", "ab", 2)) == FIRST
  {
    assert FirstExactSplit(OFFERED, "ab", 0) == Some(0);
    assert OFFERED.(subTexts := SetAt(OFFERED.subTexts, 0, "b")) == OFFERED;
  }

  lemma FickleRight()
    ensures MoveRight(Fickle(), FIRST, AT_HOME)
         == Step(ENTERED, ServerState(ComposingText([FOUR, FOUR], 2), [AT_HOME.text]), Applied(true))
  {
    var r := ShrinkRpc(Fickle(), Push(AT_HOME), 2).value;
    assert Skip(AT_HOME.text.input, 2) == [FOUR, FOUR];
    assert [] + [AT_HOME.text] == [AT_HOME.text];
    assert r == Reply(LATER, ServerState(ComposingText([FOUR, FOUR], 2), [AT_HOME.text]));
    var next := Passing(FIRST, LATER);
    assert RawInputSuffix("abcd", 2) == "cd";
    assert "" + "a" == "a" && [] + [SnapshotOf(FIRST)] == [SnapshotOf(FIRST)];
    assert next == Client("a", "b", "cd", "ab", "a", 2, 0, LATER, [SnapshotOf(FIRST)], [], FIRST.mark, 0);
    assert Entered(next, Selection(0, "Z", "", "b", 2)) == ENTERED;
  }

  const AHEAD := FutureSnapshot("Z", "", "cd", "b", false, 2, 0, SplitMark(true, true, true, None), "Z", "", LATER)

  lemma FickleCollected()
    ensures Collected(FIRST, ENTERED, true) == AHEAD
  {
    RecoveredExactly("ab", "b");
    assert ClausePreview("aZ", "a") == "Z";
  }

  lemma FickleContract()
    ensures Fickle().Contract()
  {
  }

  lemma FickleWalk()
    ensures Fickle().Contract()
    ensures WalkFrom(Fickle(), FIRST, FIRST, AT_HOME, [])
         == Some(Walked(ENTERED, ServerState(ComposingText([FOUR, FOUR], 2), [AT_HOME.text]), [AHEAD]))
  {
    FickleContract();
    FickleRight();
    FickleCollected();
    WalkEnds(Fickle(), FIRST, FIRST, AT_HOME, []);
    assert [] + [AHEAD] == [AHEAD];
  }

  /** A walk is over once a move has left nothing to go on to. */
  lemma WalkEnds(env: Env, start: Client, c: Client, s: ServerState, collected: seq<FutureSnapshot>)
    requires env.Contract()
    requires var m := MoveRight(env, c, s);
             m.Step? && m.effect.Applied? && !SameProgress(c, m.client) && m.client.suffix == ""
    ensures var m := MoveRight(env, c, s);
            WalkFrom(env, start, c, s, collected)
              == Some(Walked(m.client, m.server, collected + [Collected(start, m.client, collected == [])]))
  {
  }

  lemma FickleAhead()
    ensures Fickle().Contract()
    ensures Rebuild(Fickle(), FIRST, AT_HOME) == Some((FIRST.(future := [AHEAD]), AT_HOME))
  {
    FickleWalk();
    var at := ServerState(ComposingText([FOUR, FOUR], 2), [AT_HOME.text]);
    assert PopMany(at, 1) == PopMany(Pop(at), 0) && Pop(at) == AT_HOME;
    assert Reversed([AHEAD]) == [AHEAD];
    assert FIRST.(passed := [], future := []) == FIRST;
  }

  lemma FickleReplaced()
    ensures ReplaceFutureSuffix("b", AHEAD) == Some("Z")
  {
    assert EndsWith("b", "b") && "b"[..0] == "";
    assert Display(AHEAD) == "Z" && "" + "Z" == "Z";
  }

  lemma FickleShown()
    ensures WithSyncedSuffix(FIRST.(future := [AHEAD])).suffix == "Z"
  {
    FickleReplaced();
    assert SyncedCandidates(OFFERED, [AHEAD]).subTexts[0] == ReplaceFutureSuffix("b", AHEAD).GetOr("b");
  }

  /** Starting navigation can change the sentence: "ab" is on display before, "aZ" after. */
  lemma NavigationChangesSentence()
    ensures Fickle().Contract()
    ensures var m := StartNavigation(Fickle(), BEFORE, AT_HOME);
            && m.Step? && m.effect.Applied? && Inv(BEFORE, AT_HOME)
            && Displayed(BEFORE) == "ab" && Displayed(m.client) == "aZ"
  {
    FickleFirst();
    FickleAhead();
    FickleShown();
    StartsWith(Fickle(), BEFORE, AT_HOME, Selection(0, "a", "b", "ab", 2), FIRST.(future := [AHEAD]));
  }

  /** Starting navigation without a function-key rendering. */
  lemma StartsWith(env: Env, c: Client, s: ServerState, sel: Selection, rebuilt: Client)
    requires env.Contract() && !Active(c) && c.candidates.texts != [] && c.rawHiragana != "" && c.suffix == ""
    requires var nav := env.prefix(s.text);
             !nav.IsEmptyComposition() && SelectForPreview(nav, c.preview, c.fixedPrefix, c.selection) == Some(sel)
             && Rebuild(env, FirstClause(c, nav, sel), s) == Some((rebuilt, s))
    requires SplitsRawInput(sel, c.rawInput)
    requires DisplayOverride(env.render, c.preview, c.fixedPrefix, c.rawInput, c.rawHiragana) == None
    ensures StartNavigation(env, c, s) == Step(WithSyncedSuffix(rebuilt), s, Applied(true))
  {
  }

  /** Entering the next clause keeps the sentence exactly when the selected text begins the remainder on
      display, or the candidate's own remainder makes up the same text. */
  lemma EnteringKeepsSentence(c: Client, shrunk: Candidates, s: Selection)
    requires c.fixedPrefix <= c.preview && s.text != ""
    ensures var e := Entered(Passing(c, shrunk), s);
            && e.fixedPrefix == c.preview && c.preview <= e.preview
            && (Displayed(e) == Displayed(c) <==> s.text <= c.suffix || s.text + s.subText == c.suffix)
  {
    SplitPreview(c.preview, c.fixedPrefix);
    MergePreview(c.preview, s.text);
    var next := Passing(c, shrunk);
    assert ClausePreview(next.preview, next.fixedPrefix) == "";
    var e := Entered(next, s);
    assert Displayed(e) == c.preview + (s.text + e.suffix);
    assert Displayed(e)[|c.preview|..] == s.text + e.suffix && Displayed(c)[|c.preview|..] == c.suffix;
  }

  /** The remainder of a cached clause as the rest of the cache displays it. */
  function CachedRest(future: seq<FutureSnapshot>): string
    requires future != []
  {
    var f := future[|future| - 1];
    SyncedSuffix(f.candidates, ResolveSelection(f), f.count, future[..|future| - 1])
  }

  lemma EnterCachedShows(env: Env, c: Client, s: ServerState)
    requires c.future != []
    ensures var f := c.future[|c.future| - 1];
            var m := EnterCached(env, c, s).client;
            m.fixedPrefix == c.fixedPrefix && m.preview == Merge(c.fixedPrefix, f.clausePreview)
            && m.suffix == CachedRest(c.future)
  {
  }

  lemma SameAfterPrefix(prefix: string, a: string, b: string)
    ensures prefix + a == prefix + b <==> a == b
  {
    assert (prefix + a)[|prefix|..] == a && (prefix + b)[|prefix|..] == b;
  }

  lemma RightEntersCached(env: Env, c: Client, s: ServerState)
    requires c.suffix != "" && c.future != []
    requires var r := ShrinkRpc(env, Push(s), c.count);
             r.Some? && !r.value.candidates.IsEmptyComposition() && FutureMatches(c.future, r.value.candidates)
    ensures var r := ShrinkRpc(env, Push(s), c.count).value;
            MoveRight(env, c, s) == EnterCached(env, Passing(c, r.candidates), r.server)
  {
  }

  lemma CachedDisplays(c: Client, m: Client, f: FutureSnapshot)
    requires m.preview == Merge(c.preview, f.clausePreview)
    ensures m.preview == c.preview + f.clausePreview
    ensures Displayed(m) == Displayed(c) <==> f.clausePreview + m.suffix == c.suffix
  {
    MergePreview(c.preview, f.clausePreview);
    assert Displayed(m) == c.preview + (f.clausePreview + m.suffix);
    SameAfterPrefix(c.preview, f.clausePreview + m.suffix, c.suffix);
  }

  /** Entering a cached clause keeps the sentence exactly when its text and its remainder, as the rest of the
      cache displays it, are the remainder on display before. */
  lemma CachedKeepsSentence(env: Env, c: Client, s: ServerState)
    requires c.fixedPrefix <= c.preview && c.suffix != "" && c.future != []
    requires var r := ShrinkRpc(env, Push(s), c.count);
             r.Some? && !r.value.candidates.IsEmptyComposition() && FutureMatches(c.future, r.value.candidates)
    ensures var f := c.future[|c.future| - 1];
            var m := MoveRight(env, c, s);
            && m.Step? && m.client.fixedPrefix == c.preview && m.client.preview == c.preview + f.clausePreview
            && m.client.suffix == CachedRest(c.future)
            && (Displayed(m.client) == Displayed(c) <==> f.clausePreview + CachedRest(c.future) == c.suffix)
  {
    var r := ShrinkRpc(env, Push(s), c.count).value;
    RightEntersCached(env, c, s);
    SplitPreview(c.preview, c.fixedPrefix);
    EnterCachedShows(env, Passing(c, r.candidates), r.server);
    CachedDisplays(c, EnterCached(env, Passing(c, r.candidates), r.server).client, c.future[|c.future| - 1]);
  }

  /* ----- the boundary left of the current one ----- */

  ghost predicate GreatestBelow(r: Option<Selection>, c: Candidates, limit: int, n: nat)
    requires n <= |c.texts|
  {
    if r.None? then forall j :: 0 <= j < n ==> CountAt(c, j) >= limit
    else
      0 <= r.value.index < n && r == SelectCandidate(c, r.value.index) && r.value.count < limit
      && forall j :: 0 <= j < n && CountAt(c, j) < limit ==>
           CountAt(c, j) < r.value.count || (CountAt(c, j) == r.value.count && j <= r.value.index)
  }

  lemma {:induction false} SplitLeftIsGreatest(c: Candidates, limit: int, i: nat, best: Option<Selection>)
    requires i <= |c.texts| && GreatestBelow(best, c, limit, i)
    ensures GreatestBelow(SplitLeftFrom(c, limit, i, best), c, limit, |c.texts|)
    decreases |c.texts| - i
  {
    if i < |c.texts| {
      var s := SelectCandidate(c, i).value;
      var next := if s.count < limit && (best.None? || best.value.count <= s.count) then Some(s) else best;
      assert GreatestBelow(next, c, limit, i + 1);
      SplitLeftIsGreatest(c, limit, i + 1, next);
    }
  }

  /* ----- the clause entered ----- */

  /** The candidates of the next clause: those up to the cursor when the first of them splits what is left or they
      are more and read as an end of what the server offered, else what the server offered. */
  function NextCandidates(env: Env, t: ComposingText, rawInput: string): Candidates {
    var full, prefix := env.full(t), env.prefix(t);
    if prefix.texts != []
       && ((0 < At(prefix.counts, 0, 0) < |rawInput| && At(prefix.subTexts, 0, "") != "")
           || (|prefix.texts| > |full.texts| && (full.hiragana == "" || EndsWith(full.hiragana, prefix.hiragana))))
    then prefix else full
  }

  lemma NavigationTakes(env: Env, c: Client, s: ServerState)
    requires c.candidates == env.full(s.text) && c.selection == 0
    ensures var n := WithNavigation(env, c, s);
            n == c.(candidates := NextCandidates(env, s.text, c.rawInput))
  {
  }

  /** A right move without a fitting cached clause enters the first candidate of the next clause, behind all text
      passed, with the raw input and the server's input cut at the count of the clause left. */
  lemma FreshTakesFirst(env: Env, c: Client, s: ServerState)
    requires c.fixedPrefix <= c.preview && c.suffix != "" && 0 <= c.count <= 127
    requires var t := ShrunkText(env, s.text, c.count);
             && !env.full(t).IsEmptyComposition() && !FutureMatches(c.future, env.full(t))
             && NextCandidates(env, t, RawInputSuffix(c.rawInput, c.count)).texts != []
    ensures var t := ShrunkText(env, s.text, c.count);
            var r := NextCandidates(env, t, RawInputSuffix(c.rawInput, c.count));
            var m := MoveRight(env, c, s);
            && m.Step? && m.effect == Applied(true) && m.server == ServerState(t, s.snapshots + [s.text])
            && m.client.candidates == r && m.client.selection == 0 && m.client.count == At(r.counts, 0, 0)
            && m.client.rawHiragana == r.hiragana && m.client.fixedPrefix == c.preview
            && m.client.preview == c.preview + r.texts[0] && m.client.future == [] && m.client.mark == NO_SPLIT
            && m.client.rawInput == RawInputSuffix(c.rawInput, c.count) && m.client.passed == c.passed + [SnapshotOf(c)]
  {
    var t := ShrunkText(env, s.text, c.count);
    var at := ServerState(t, s.snapshots + [s.text]);
    SplitPreview(c.preview, c.fixedPrefix);
    var next := Passing(c, env.full(t)).(future := []);
    NavigationTakes(env, next, at);
    MergePreview(c.preview, NextCandidates(env, t, next.rawInput).texts[0]);
  }

  /** Navigation starts with the picked candidate's count and reading as a split-derived clause, on the same input
      and the same server text, with nothing passed. */
  lemma StartTakes(env: Env, c: Client, s: ServerState)
    requires env.Contract() && StartNavigation(env, c, s).Step? && StartNavigation(env, c, s).effect.Applied?
    ensures var nav := env.prefix(s.text);
            var sel := SelectForPreview(nav, c.preview, c.fixedPrefix, c.selection);
            var m := StartNavigation(env, c, s);
            && sel.Some? && 0 < sel.value.count < |c.rawInput| && sel.value.subText != ""
            && m.client.count == sel.value.count && m.client.selection == sel.value.index
            && m.client.rawHiragana == nav.hiragana && m.client.rawInput == c.rawInput
            && m.client.candidates.counts == nav.counts && |m.client.candidates.texts| == |nav.texts|
            && m.client.mark == SplitMark(true, false, false, None) && m.client.passed == c.passed == []
            && m.server == s
  {
    var nav := env.prefix(s.text);
    var sel := SelectForPreview(nav, c.preview, c.fixedPrefix, c.selection).value;
    RebuildInvisible(env, FirstClause(c, nav, sel), s);
  }

  /** Navigation starts exactly when there is text with candidates and a reading, nothing is navigated, and the
      server offers a candidate, the one for the text on display, that splits the input. */
  lemma StartsWhen(env: Env, c: Client, s: ServerState)
    requires env.Contract()
    ensures var nav := env.prefix(s.text);
            var sel := SelectForPreview(nav, c.preview, c.fixedPrefix, c.selection);
            var m := StartNavigation(env, c, s);
            m.Failed? || m.effect.Applied? <==>
              && c.passed == [] && c.future == [] && !c.mark.derived && c.mark.group.None? && c.suffix == ""
              && c.candidates.texts != [] && c.rawHiragana != "" && nav.texts != [] && sel.Some?
              && 0 < sel.value.count < |c.rawInput| && sel.value.subText != ""
  {
  }
}
