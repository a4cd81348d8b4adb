/** What the rules for display, restoring and matching come to, said of the texts alone. */
module ClauseMeaning {
  import opened Text
  import opened DelayedN
  import opened Clauses
  import opened FutureCache
  import opened ConversionServer
  import opened ClauseTransitions

  /* ----- function-key renderings ----- */

  function Rank(kind: SetTextType): nat {
    match kind
    case Hiragana => 0
    case Katakana => 1
    case HalfKatakana => 2
    case FullLatin => 3
    case HalfLatin => 4
  }

  /** A rendering is carried over exactly when the clause shows one, and then it is the first that is shown. */
  lemma OverrideMeaning(render: Render, preview: string, fixedPrefix: string, rawInput: string, rawHiragana: string)
    ensures var o := DisplayOverride(render, preview, fixedPrefix, rawInput, rawHiragana);
            var shown := ClausePreview(preview, fixedPrefix);
            && (o.Some? <==> exists kind :: render(kind, rawInput, rawHiragana) == shown)
            && (o.Some? ==>
                  render(o.value, rawInput, rawHiragana) == shown
                  && forall kind :: render(kind, rawInput, rawHiragana) == shown ==> Rank(o.value) <= Rank(kind))
  {
    var shown := ClausePreview(preview, fixedPrefix);
    var o := DisplayOverride(render, preview, fixedPrefix, rawInput, rawHiragana);
    forall kind | render(kind, rawInput, rawHiragana) == shown ensures o.Some? && Rank(o.value) <= Rank(kind) {
      match kind {
        case Hiragana =>
        case Katakana =>
        case HalfKatakana =>
        case FullLatin =>
        case HalfLatin =>
      }
    }
  }

  lemma HeadAndTail(head: string, tail: string, count: int)
    ensures CutBefore(head + tail, Some(tail), count) == (head, tail)
  {
    assert StripSuffix(head + tail, tail) == Some(head);
  }

  /** When navigation starts on text shown in a rendering of its own, the first clause shows that rendering of its own
      input and reading, and the rest that of the clauses behind it. */
  lemma StartRendered(env: Env, c: Client, s: ServerState, kind: SetTextType, input: string, head: string)
    requires env.Contract() && StartNavigation(env, c, s).Step? && StartNavigation(env, c, s).effect.Applied?
    requires DisplayOverride(env.render, c.preview, c.fixedPrefix, c.rawInput, c.rawHiragana) == Some(kind)
    requires var m := StartNavigation(env, c, s).client;
             && m.future != [] && 0 <= m.selection < |m.candidates.subTexts|
             && c.rawInput == input + m.future[|m.future| - 1].rawInput
             && m.rawHiragana == head + m.future[|m.future| - 1].rawHiragana
    ensures var m := StartNavigation(env, c, s).client;
            var f := m.future[|m.future| - 1];
            var rest := env.render(kind, f.rawInput, f.rawHiragana);
            && m.preview == c.fixedPrefix + env.render(kind, input, head)
            && m.suffix == if EndsWith(rest, f.rawHiragana)
                           then rest[..|rest| - |f.rawHiragana|] + Display(f) else rest
  {
    var nav := env.prefix(s.text);
    var sel := SelectForPreview(nav, c.preview, c.fixedPrefix, c.selection).value;
    var first := FirstClause(c, nav, sel);
    var rebuilt := Rebuild(env, first, s).value.0;
    RebuildKeeps(env, first, s);
    StartOverridden(env, c, s, sel, kind);
    OverriddenKeeps(env.render, rebuilt, kind);
    RenderedDisplays(env.render, rebuilt, kind, input, head);
  }

  lemma RebuildKeeps(env: Env, c: Client, s: ServerState)
    requires env.Contract() && Rebuild(env, c, s).Some?
    ensures var r := Rebuild(env, c, s).value.0; r == c.(future := r.future)
  {
  }

  lemma OverriddenKeeps(render: Render, c: Client, kind: SetTextType)
    ensures var m := WithSyncedSuffix(WithOverride(render, c, kind));
            && m.future == c.future && m.rawHiragana == c.rawHiragana && m.selection == c.selection
            && |m.candidates.subTexts| == |c.candidates.subTexts|
  {
  }

  lemma StartOverridden(env: Env, c: Client, s: ServerState, sel: Selection, kind: SetTextType)
    requires env.Contract() && StartNavigation(env, c, s).Step? && StartNavigation(env, c, s).effect.Applied?
    requires SelectForPreview(env.prefix(s.text), c.preview, c.fixedPrefix, c.selection) == Some(sel)
    requires DisplayOverride(env.render, c.preview, c.fixedPrefix, c.rawInput, c.rawHiragana) == Some(kind)
    ensures var rebuilt := Rebuild(env, FirstClause(c, env.prefix(s.text), sel), s);
            rebuilt.Some?
            && StartNavigation(env, c, s).client == WithSyncedSuffix(WithOverride(env.render, rebuilt.value.0, kind))
  {
  }

  lemma RenderedDisplays(render: Render, c: Client, kind: SetTextType, input: string, head: string)
    requires c.future != [] && 0 <= c.selection < |c.candidates.subTexts|
    requires c.rawInput == input + c.future[|c.future| - 1].rawInput
    requires c.rawHiragana == head + c.future[|c.future| - 1].rawHiragana
    ensures var m := WithSyncedSuffix(WithOverride(render, c, kind));
            var f := c.future[|c.future| - 1];
            var rest := render(kind, f.rawInput, f.rawHiragana);
            && m.preview == c.fixedPrefix + render(kind, input, head)
            && m.suffix == if EndsWith(rest, f.rawHiragana)
                           then rest[..|rest| - |f.rawHiragana|] + Display(f) else rest
  {
    var f := c.future[|c.future| - 1];
    HeadAndTail(input, f.rawInput, c.count);
    HeadAndTail(head, f.rawHiragana, c.count);
    MergePreview(c.fixedPrefix, render(kind, input, head));
  }

  /* ----- the remainder on display ----- */

  /** Behind the clause stands `rest`, its reading of the next cached clause replaced by that clause as displayed. */
  ghost predicate ShowsRest(m: Client, rest: string) {
    m.suffix ==
    if m.future == [] then rest
    else
      var f := m.future[|m.future| - 1];
      if EndsWith(rest, f.rawHiragana) then rest[..|rest| - |f.rawHiragana|] + f.clausePreview + f.suffix else rest
  }

  lemma SyncedShowsRest(c: Client, k: nat)
    requires k < |c.candidates.subTexts| && k == if c.selection < 0 then 0 else c.selection
    ensures ShowsRest(WithSyncedSuffix(c), c.candidates.subTexts[k])
  {
  }

  lemma ChosenShowsRest(c: Client, s: Selection)
    requires 0 <= s.index < |c.candidates.subTexts|
    ensures var d := WithSyncedSnapshots(WithSyncedSuffix(Chosen(c, s)));
            d.selection == s.index && |d.candidates.subTexts| == |c.candidates.subTexts|
            && ShowsRest(d, c.candidates.subTexts[s.index])
  {
    SyncedShowsRest(Chosen(c, s), s.index);
  }

  /** A selected candidate's remainder is shown with the next cached clause as that is displayed. */
  lemma SelectionShowsRest(c: Client, kind: SetSelectionType)
    requires c.candidates.texts != [] && |c.candidates.subTexts| >= |c.candidates.texts|
    ensures var d := ClauseTransitions.SetSelection(c, kind).0;
            0 <= d.selection < |c.candidates.subTexts| && ShowsRest(d, c.candidates.subTexts[d.selection])
  {
    var desired := match kind
      case Up => c.selection - 1
      case Down => c.selection + 1
      case Number(i) => i;
    ChosenShowsRest(c, SelectCandidate(c.candidates, desired).value);
  }

  /** And so is the remainder of the clause a boundary edit gives. */
  lemma BoundaryShowsRest(c: Client, sel: Selection)
    requires 0 <= sel.index < |c.candidates.subTexts|
    ensures ShowsRest(ApplyBoundarySelection(c, sel), c.candidates.subTexts[sel.index])
  {
    SyncedShowsRest(BoundaryEdited(c, sel), sel.index);
  }

  /* ----- snapshots that follow an edit ----- */

  /** The place of the first candidate with the clause's count. */
  ghost predicate OwnPlace(k: nat, s: ClauseSnapshot) {
    && k < |s.candidates.subTexts| && k < |s.candidates.counts| && s.candidates.counts[k] == s.count
    && forall j :: 0 <= j < k ==> s.candidates.counts[j] != s.count
  }

  lemma {:induction false} FirstPlace(subs: seq<string>, counts: seq<int>, count: int, i: nat)
    ensures var k := FirstWithCount(subs, counts, count, i);
            if k.Some?
            then k.value < |counts| && counts[k.value] == count && forall j :: i <= j < k.value ==> counts[j] != count
            else forall j :: i <= j < |subs| && j < |counts| ==> counts[j] != count
    decreases |subs| - i
  {
    if i < |subs| && i < |counts| && counts[i] != count {
      FirstPlace(subs, counts, count, i + 1);
    }
  }

  /** A passed clause that begins the sentence on display shows the rest of it behind its own text.  Its own candidate
      gets exactly that rest; every other one that had the old rest at its end gets the new one there instead. */
  lemma SnapshotFollows(s: ClauseSnapshot, full: string)
    requires s.preview <= full
    ensures var r := SyncSnapshot(s, full);
            && r.preview + r.suffix == full && |r.candidates.subTexts| == |s.candidates.subTexts|
            && r == s.(suffix := r.suffix, candidates := s.candidates.(subTexts := r.candidates.subTexts))
            && forall i :: 0 <= i < |s.candidates.subTexts| ==>
                 if OwnPlace(i, s) then r.candidates.subTexts[i] == r.suffix
                 else if EndsWith(s.candidates.subTexts[i], s.suffix)
                   then r.candidates.subTexts[i]
                          == s.candidates.subTexts[i][..|s.candidates.subTexts[i]| - |s.suffix|] + r.suffix
                 else r.candidates.subTexts[i] == s.candidates.subTexts[i]
  {
    FirstPlace(SyncSnapshot(s, full).candidates.subTexts, s.candidates.counts, s.count, 0);
    var rest := full[|s.preview|..];
    var subs := seq(|s.candidates.subTexts|, i requires 0 <= i < |s.candidates.subTexts| =>
      var head := StripSuffix(s.candidates.subTexts[i], s.suffix);
      if head.Some? then head.value + rest else s.candidates.subTexts[i]);
    FirstPlace(subs, s.candidates.counts, s.count, 0);
  }

  /* ----- steering ----- */

  /** The first candidate ends before the clause does, or where it does, with its remainder or its reading. */
  ghost predicate AtTarget(c: Candidates, reading: string, subText: string, count: int) {
    var n := At(c.counts, 0, 0);
    c.texts != [] &&
    (n < count || (n == count && (At(c.subTexts, 0, "") == subText || c.hiragana == reading
                                  || Skip(c.hiragana, n) == Skip(reading, n))))
  }

  /** `k` steps to the left there are candidates all the way, no two neighbours give the same first candidate, and the
      `k`-th position is the first at the clause's end. */
  ghost predicate Within(env: Env, c: Candidates, s: ServerState, reading: string, subText: string, count: int,
                         k: nat) {
    && AtTarget(SeenAt(env, c, s, k), reading, subText, count)
    && (forall j :: 0 <= j < k ==> !AtTarget(SeenAt(env, c, s, j), reading, subText, count))
    && (forall j :: 0 < j <= k ==> SeenAt(env, c, s, j).texts != [])
    && (forall j :: 1 < j <= k ==> SignatureOf(SeenAt(env, c, s, j)) != SignatureOf(SeenAt(env, c, s, j - 1)))
  }

  lemma {:induction false} SteerArrivesFrom(env: Env, c: Candidates, s: ServerState, reading: string, subText: string,
                                            count: int, steps: nat, last: Option<Signature>, k: nat)
    requires Within(env, c, s, reading, subText, count, k) && k <= steps
    requires k > 0 && last.Some? ==> SignatureOf(SeenAt(env, c, s, 1)) != last.value
    ensures SteerFrom(env, c, s, reading, subText, count, steps, last)
         == Reply(SeenAt(env, c, s, k), LeftMoves(env, s, k))
    decreases steps
  {
    assert Settled(c, reading, subText, count) <==> AtTarget(SeenAt(env, c, s, 0), reading, subText, count);
    if k > 0 {
      var left := MoveWithin(env, s, -1);
      var next := env.prefix(left.text);
      assert LeftMoves(env, s, 1) == LeftMoves(env, left, 0);
      assert forall j {:trigger SeenAt(env, c, s, j)} :: 0 < j <= k ==>
        SeenAt(env, c, s, j) == SeenAt(env, next, left, j - 1);
      assert SeenAt(env, c, s, 1) == next;
      forall j | 0 <= j < k ensures SeenAt(env, next, left, j) == SeenAt(env, c, s, j + 1) {
      }
      SteerArrivesFrom(env, next, left, reading, subText, count, steps - 1, Some(SignatureOf(next)), k - 1);
    }
  }

  /** A clause's end that lies within as many steps to the left as the reading has characters is reached, and the
      cursor stops there and not before. */
  lemma SteerArrives(env: Env, c: Candidates, s: ServerState, reading: string, subText: string, count: int, k: nat)
    requires Within(env, c, s, reading, subText, count, k) && k <= (if c.hiragana == "" then 1 else |c.hiragana|)
    ensures Steer(env, c, s, reading, subText, count) == Reply(SeenAt(env, c, s, k), LeftMoves(env, s, k))
  {
    SteerArrivesFrom(env, c, s, reading, subText, count, StepsFor(c), None, k);
  }

  /* ----- cached clauses ----- */

  /** Candidate `k` is the one that was cached. */
  predicate Recalls(f: FutureSnapshot, k: nat) {
    && k < |f.candidates.texts| && k < |f.candidates.subTexts| && k < |f.candidates.counts|
    && f.candidates.texts[k] == f.selectedText && f.candidates.subTexts[k] == f.selectedSubText
    && f.candidates.counts[k] == f.count
  }

  lemma {:induction false} FirstRecalled(f: FutureSnapshot, i: nat)
    ensures var r := FirstCached(f.candidates, f.selectedText, f.selectedSubText, f.count, i);
            if r.Some? then Recalls(f, r.value) && forall j :: i <= j < r.value ==> !Recalls(f, j)
            else forall j :: i <= j ==> !Recalls(f, j)
    decreases |f.candidates.texts| - i
  {
    if i < |f.candidates.texts| && i < |f.candidates.subTexts| && i < |f.candidates.counts| && !Recalls(f, i) {
      FirstRecalled(f, i + 1);
    }
  }

  /** Going back to a cached clause selects the first candidate with the text, remainder and count it was left with,
      and when there is none the one nearest to the place it had. */
  lemma SelectionRecalled(f: FutureSnapshot)
    ensures var k := ResolveSelection(f);
            && (f.candidates.texts != [] ==> 0 <= k < |f.candidates.texts|)
            && ((exists i :: Recalls(f, i)) ==> k >= 0 && Recalls(f, k) && forall j: nat :: j < k ==> !Recalls(f, j))
            && ((forall i :: !Recalls(f, i)) && f.candidates.texts != [] ==>
                  forall i :: 0 <= i < |f.candidates.texts| ==> Distance(f.selection, k) <= Distance(f.selection, i))
  {
    FirstRecalled(f, 0);
  }

  /** The cached clause is entered exactly when its reading begins the server's, ends it or is ended by it, or differs
      from it in the first character alone. */
  lemma MatchMeaning(future: seq<FutureSnapshot>, server: Candidates)
    ensures FutureMatches(future, server) <==>
              (future != [] &&
               var cached, read := future[|future| - 1].rawHiragana, server.hiragana;
               || (|cached| <= |read| && (read[..|cached|] == cached || read[|read| - |cached|..] == cached))
               || (|read| <= |cached| && cached[|cached| - |read|..] == read)
               || (read != "" && |read| == |cached| && read[1..] == cached[1..]))
  {
    if future != [] {
      OneLetterOff(server.hiragana, future[|future| - 1].rawHiragana);
    }
  }

  lemma OneLetterOff(read: string, cached: string)
    ensures RecoverableReading(read, cached)
        <==> read != "" && |read| == |cached| && read[1..] == cached[1..] && read[0] != cached[0]
  {
    var n := CommonSuffixLength(read, cached);
    if read != "" && |read| == |cached| {
      if read[1..] == cached[1..] {
        CommonSuffixIsGreatest(read, cached, |read| - 1);
        if read[0] == cached[0] {
          assert read == [read[0]] + read[1..] && cached == [cached[0]] + cached[1..];
          CommonSuffixIsGreatest(read, cached, |read|);
        } else if n == |read| {
          assert read[|read| - n..][0] == read[0] && cached[|cached| - n..][0] == cached[0];
        }
      }
      if n + 1 == |cached| {
        assert read[|read| - n..] == read[1..] && cached[|cached| - n..] == cached[1..];
      }
    }
  }
}
