/** Counts never become negative and split-group numbers are always taken from those given out, whatever the
    server answers: a right move can only be refused for too large a count, and a new split group is new. */
module Ranges {
  import opened Text
  import opened DelayedN
  import opened Clauses
  import opened FutureCache
  import opened ConversionServer
  import opened ClauseTransitions
  import opened ClauseTheorems
  import opened Actions
  import opened Interpreter
  import opened Runs

  predicate CountsOk(c: Candidates) {
    forall i {:trigger At(c.counts, i, 0)} :: 0 <= i < |c.texts| ==> At(c.counts, i, 0) >= 0
  }

  predicate MarkFits(m: SplitMark, next: nat) {
    m.group.Some? ==> m.group.value < next
  }

  predicate PassedFits(s: ClauseSnapshot, next: nat) {
    s.count >= 0 && CountsOk(s.candidates) && MarkFits(s.mark, next)
  }

  predicate FutureFits(f: FutureSnapshot, next: nat) {
    f.count >= 0 && CountsOk(f.candidates) && MarkFits(f.mark, next)
  }

  ghost predicate AllPassedFit(passed: seq<ClauseSnapshot>, next: nat) {
    forall i :: 0 <= i < |passed| ==> PassedFits(passed[i], next)
  }

  ghost predicate AllFutureFit(future: seq<FutureSnapshot>, next: nat) {
    forall i :: 0 <= i < |future| ==> FutureFits(future[i], next)
  }

  ghost predicate ClauseFits(c: Client) {
    c.count >= 0 && CountsOk(c.candidates) && MarkFits(c.mark, c.nextGroup)
  }

  ghost predicate InRange(c: Client) {
    ClauseFits(c) && AllPassedFit(c.passed, c.nextGroup) && AllFutureFit(c.future, c.nextGroup)
  }

  /** The group number a boundary edit takes when none is under way belongs to no clause. */
  lemma NewGroupIsNew(c: Client)
    requires InRange(c)
    ensures c.mark.group != Some(c.nextGroup)
    ensures forall i :: 0 <= i < |c.passed| ==> c.passed[i].mark.group != Some(c.nextGroup)
    ensures forall i :: 0 <= i < |c.future| ==> c.future[i].mark.group != Some(c.nextGroup)
  {
    assert forall i :: 0 <= i < |c.passed| ==> PassedFits(c.passed[i], c.nextGroup);
    assert forall i :: 0 <= i < |c.future| ==> FutureFits(c.future[i], c.nextGroup);
  }

  /* ----- candidates ----- */

  lemma OffersOk(env: Env, t: ComposingText)
    requires env.Contract()
    ensures CountsOk(env.full(t)) && CountsOk(env.prefix(t))
  {
    forall i | 0 <= i < |env.full(t).texts| ensures At(env.full(t).counts, i, 0) >= 0 {
    }
    forall i | 0 <= i < |env.prefix(t).texts| ensures At(env.prefix(t).counts, i, 0) >= 0 {
    }
  }

  lemma SelectedOk(c: Candidates, desired: int)
    requires CountsOk(c)
    ensures SelectCandidate(c, desired).Some? ==> SelectCandidate(c, desired).value.count >= 0
  {
  }

  lemma PreviewSelectedOk(c: Candidates, preview: string, fixedPrefix: string, selection: int)
    requires CountsOk(c)
    ensures var r := SelectForPreview(c, preview, fixedPrefix, selection); r.Some? ==> r.value.count >= 0
  {
  }

  lemma {:induction false} SplitLeftOk(c: Candidates, limit: int, i: nat, best: Option<Selection>)
    requires CountsOk(c) && i <= |c.texts| && (best.Some? ==> best.value.count >= 0)
    ensures var r := SplitLeftFrom(c, limit, i, best); r.Some? ==> r.value.count >= 0
    decreases |c.texts| - i
  {
    if i < |c.texts| {
      var s := SelectCandidate(c, i).value;
      SelectedOk(c, i);
      SplitLeftOk(c, limit, i + 1,
                  if s.count < limit && (best.None? || best.value.count <= s.count) then Some(s) else best);
    }
  }

  lemma {:induction false} SteeredOk(env: Env, c: Candidates, s: ServerState, reading: string, subText: string,
                                     count: int,
                                     steps: nat, last: Option<Signature>)
    requires env.Contract() && CountsOk(c)
    ensures CountsOk(SteerFrom(env, c, s, reading, subText, count, steps, last).candidates)
    decreases steps
  {
    if steps > 0 {
      var left := MoveWithin(env, s, -1);
      OffersOk(env, left.text);
      SteeredOk(env, env.prefix(left.text), left, reading, subText, count, steps - 1,
                Some(SignatureOf(env.prefix(left.text))));
    }
  }

  /** Replacing texts one for one leaves the counts alone. */
  lemma SameCounts(c: Candidates, d: Candidates)
    requires CountsOk(c) && |d.texts| == |c.texts| && d.counts == c.counts
    ensures CountsOk(d)
  {
  }

  lemma SyncedInRange(c: Client)
    requires InRange(c)
    ensures InRange(WithSyncedSuffix(c)) && WithSyncedSuffix(c).nextGroup == c.nextGroup
  {
    SameCounts(c.candidates, SyncedCandidates(c.candidates, c.future));
  }

  lemma SnapshotFits(s: ClauseSnapshot, full: string, next: nat)
    requires PassedFits(s, next)
    ensures PassedFits(SyncSnapshot(s, full), next)
  {
    SameCounts(s.candidates, SyncSnapshot(s, full).candidates);
  }

  lemma SyncedSnapshotsInRange(c: Client)
    requires InRange(c)
    ensures InRange(WithSyncedSnapshots(c)) && WithSyncedSnapshots(c).nextGroup == c.nextGroup
  {
    var n := WithSyncedSnapshots(c);
    forall i | 0 <= i < |n.passed| ensures PassedFits(n.passed[i], n.nextGroup) {
      assert PassedFits(c.passed[i], c.nextGroup);
      SnapshotFits(c.passed[i], c.preview + c.suffix, c.nextGroup);
    }
  }

  lemma FutureOfFits(c: Client)
    requires ClauseFits(c)
    ensures FutureFits(FutureOf(c), c.nextGroup)
  {
  }

  /* ----- moves ----- */

  lemma PassingInRange(c: Client, shrunk: Candidates)
    requires InRange(c) && CountsOk(shrunk)
    ensures InRange(Passing(c, shrunk)) && Passing(c, shrunk).nextGroup == c.nextGroup
  {
    assert PassedFits(SnapshotOf(c), c.nextGroup);
  }

  lemma EnterCachedInRange(env: Env, c: Client, s: ServerState)
    requires env.Contract() && InRange(c) && c.future != []
    ensures InRange(EnterCached(env, c, s).client) && EnterCached(env, c, s).client.nextGroup == c.nextGroup
  {
    var f := c.future[|c.future| - 1];
    assert FutureFits(f, c.nextGroup);
    SyncedInRange(RestoredFuture(c.(future := c.future[..|c.future| - 1]), f));
  }

  lemma NavigationInRange(env: Env, c: Client, s: ServerState)
    requires env.Contract() && InRange(c)
    ensures InRange(WithNavigation(env, c, s)) && WithNavigation(env, c, s).nextGroup == c.nextGroup
    ensures WithNavigation(env, c, s).passed == c.passed
  {
    OffersOk(env, s.text);
  }

  lemma EnterFreshInRange(env: Env, c: Client, s: ServerState)
    requires env.Contract() && InRange(c) && c.passed != []
    ensures InRange(EnterFresh(env, c, s).client) && EnterFresh(env, c, s).client.nextGroup == c.nextGroup
  {
    var nav := WithNavigation(env, c.(future := []), s);
    NavigationInRange(env, c.(future := []), s);
    SelectedOk(nav.candidates, nav.selection);
    assert PassedFits(c.passed[|c.passed| - 1], c.nextGroup);
  }

  lemma MoveRightInRange(env: Env, c: Client, s: ServerState)
    requires env.Contract() && InRange(c)
    ensures var m := MoveRight(env, c, s);
            m.Step? && !m.effect.ServerReset? ==> InRange(m.client) && m.client.nextGroup == c.nextGroup
  {
    var shrunk := ShrinkRpc(env, Push(s), c.count);
    if shrunk.Some? {
      OffersOk(env, shrunk.value.server.text);
      var next := Passing(c, shrunk.value.candidates);
      PassingInRange(c, shrunk.value.candidates);
      if FutureMatches(next.future, next.candidates) {
        EnterCachedInRange(env, next, shrunk.value.server);
      } else {
        EnterFreshInRange(env, next, shrunk.value.server);
      }
    }
  }

  lemma MoveLeftInRange(c: Client, s: ServerState)
    requires InRange(c)
    ensures InRange(MoveLeft(c, s).client)
  {
    if c.passed != [] {
      assert PassedFits(c.passed[|c.passed| - 1], c.nextGroup);
      FutureOfFits(c);
    }
  }

  lemma {:induction false} MoveToLastInRange(env: Env, c: Client, s: ServerState, moved: bool)
    requires env.Contract() && InRange(c)
    ensures var m := MoveToLastFrom(env, c, s, moved);
            m.Step? && !m.effect.ServerReset? ==> InRange(m.client)
    decreases InputLeft(s), |c.future|, StuckCount(c)
  {
    MoveRightInRange(env, c, s);
    var m := MoveRight(env, c, s);
    if m.Step? && m.effect.Applied? && !SameProgress(c, m.client) && m.client.suffix != "" {
      MoveRightMeasure(env, c, s);
      MoveToLastInRange(env, m.client, m.server, true);
    }
  }

  /* ----- starting navigation ----- */

  lemma CollectedFits(start: Client, at: Client, first: bool)
    requires ClauseFits(at) && at.nextGroup == start.nextGroup && MarkFits(start.mark, start.nextGroup)
    ensures FutureFits(Collected(start, at, first), start.nextGroup)
  {
    FutureOfFits(at);
  }

  lemma {:induction false} WalkInRange(env: Env, start: Client, c: Client, s: ServerState,
                                       collected: seq<FutureSnapshot>)
    requires env.Contract() && InRange(c) && c.nextGroup == start.nextGroup && MarkFits(start.mark, start.nextGroup)
    requires AllFutureFit(collected, start.nextGroup)
    ensures var w := WalkFrom(env, start, c, s, collected);
            w.Some? ==> AllFutureFit(w.value.collected, start.nextGroup)
    decreases InputLeft(s), |c.future|, StuckCount(c)
  {
    MoveRightInRange(env, c, s);
    var m := MoveRight(env, c, s);
    if m.Step? && m.effect.Applied? && !SameProgress(c, m.client) {
      CollectedFits(start, m.client, collected == []);
      if m.client.suffix != "" {
        MoveRightMeasure(env, c, s);
        WalkInRange(env, start, m.client, m.server, collected + [Collected(start, m.client, collected == [])]);
      }
    }
  }

  lemma RebuildInRange(env: Env, c: Client, s: ServerState)
    requires env.Contract() && InRange(c)
    ensures var r := Rebuild(env, c, s); r.Some? ==> InRange(r.value.0)
  {
    if c.suffix != "" {
      var scratch := c.(passed := [], future := []);
      WalkInRange(env, c, scratch, s, []);
    }
  }

  lemma FirstClauseInRange(c: Client, nav: Candidates, s: Selection)
    requires InRange(c) && CountsOk(nav) && s.count >= 0
    ensures InRange(FirstClause(c, nav, s))
  {
    SameCounts(nav, FirstClause(c, nav, s).candidates);
  }

  lemma OverrideInRange(render: Render, c: Client, kind: SetTextType)
    requires InRange(c)
    ensures InRange(WithOverride(render, c, kind))
  {
    SameCounts(c.candidates, WithOverride(render, c, kind).candidates);
  }

  lemma StartNavigationInRange(env: Env, c: Client, s: ServerState)
    requires env.Contract() && InRange(c)
    ensures var m := StartNavigation(env, c, s); m.Step? ==> InRange(m.client)
  {
    var nav := env.prefix(s.text);
    var sel := SelectForPreview(nav, c.preview, c.fixedPrefix, c.selection);
    OffersOk(env, s.text);
    if sel.Some? {
      PreviewSelectedOk(nav, c.preview, c.fixedPrefix, c.selection);
      var first := FirstClause(c, nav, sel.value);
      FirstClauseInRange(c, nav, sel.value);
      RebuildInRange(env, first, s);
      var rebuilt := Rebuild(env, first, s);
      if rebuilt.Some? {
        SyncedInRange(rebuilt.value.0);
        var kind := DisplayOverride(env.render, c.preview, c.fixedPrefix, c.rawInput, c.rawHiragana);
        if kind.Some? {
          OverrideInRange(env.render, rebuilt.value.0, kind.value);
          SyncedInRange(WithOverride(env.render, rebuilt.value.0, kind.value));
        }
      }
    }
  }

  /* ----- edits of the current clause ----- */

  lemma SplitTopFits(kept: seq<FutureSnapshot>, rawInputSuffix: string, reading: string, group: nat, next: nat)
    requires kept != [] && AllFutureFit(kept, next) && group < next
    ensures AllFutureFit(SplitTop(kept, rawInputSuffix, reading, Some(group)), next)
  {
    var after := SplitTop(kept, rawInputSuffix, reading, Some(group));
    forall i | 0 <= i < |after| ensures FutureFits(after[i], next) {
      if i < |kept| && after[i] == kept[i] {
        assert FutureFits(kept[i], next);
      }
    }
  }

  lemma SplitFutureFits(future: seq<FutureSnapshot>, rawInput: string, rawHiragana: string, count: int, hint: string,
                        allow: bool, group: nat, next: nat)
    requires AllFutureFit(future, next) && group < next
    ensures AllFutureFit(SplitFuture(future, rawInput, rawHiragana, count, hint, allow, Some(group)), next)
  {
    var rawInputSuffix := RawInputSuffix(rawInput, count);
    var first := SplitReading(future, rawInputSuffix, rawHiragana, count, hint, allow);
    var kept := TrimStale(future, first);
    assert forall i :: 0 <= i < |kept| ==> kept[i] == future[i];
    if future != [] && kept != [] {
      SplitTopFits(kept, rawInputSuffix, RefinedReading(first, hint, kept[|kept| - 1]), group, next);
    }
  }

  lemma LaterGroups(c: Client, next: nat)
    requires InRange(c) && c.nextGroup <= next
    ensures InRange(c.(nextGroup := next))
  {
    assert forall i :: 0 <= i < |c.passed| ==> PassedFits(c.passed[i], c.nextGroup);
    assert forall i :: 0 <= i < |c.future| ==> FutureFits(c.future[i], c.nextGroup);
  }

  lemma OpenGroupFits(c: Client)
    requires InRange(c)
    ensures OpenGroup(c).Some? ==> OpenGroup(c).value < c.nextGroup
  {
    if c.future != [] {
      assert FutureFits(c.future[|c.future| - 1], c.nextGroup);
    }
  }

  lemma BoundaryEditedInRange(c: Client, s: Selection)
    requires InRange(c) && s.count >= 0
    ensures InRange(BoundaryEdited(c, s))
  {
    var open := OpenGroup(c);
    OpenGroupFits(c);
    var group := open.GetOr(c.nextGroup);
    var next := if open.Some? then c.nextGroup else c.nextGroup + 1;
    LaterGroups(c, next);
    var allow := c.future == [] && c.passed != [] && RawSuffix(s.hiragana, s.count) == "";
    SplitFutureFits(c.future, c.rawInput, s.hiragana, s.count, s.subText, allow, group, next);
  }

  lemma BoundarySelectionInRange(c: Client, s: Selection)
    requires InRange(c) && s.count >= 0
    ensures InRange(ApplyBoundarySelection(c, s))
  {
    BoundaryEditedInRange(c, s);
    SyncedInRange(BoundaryEdited(c, s));
    SyncedSnapshotsInRange(WithSyncedSuffix(BoundaryEdited(c, s)));
  }

  lemma AtBoundaryInRange(env: Env, c: Client, s: ServerState, direction: int, fallback: Candidates)
    requires env.Contract() && InRange(c) && CountsOk(fallback)
    ensures var m := AtBoundary(env, c, s, direction, fallback); m.Step? && InRange(m.client)
  {
    var boundary := env.prefix(s.text);
    OffersOk(env, s.text);
    SelectedOk(boundary, 0);
    SplitLeftOk(fallback, c.count, 0, None);
    var selected := SplitLeftCandidate(fallback, c.count);
    if boundary.texts != [] {
      BoundarySelectionInRange(c.(candidates := boundary), SelectCandidate(boundary, 0).value);
    } else if direction < 0 && selected.Some? {
      BoundarySelectionInRange(c.(candidates := fallback), selected.value);
    }
  }

  lemma AdjustBoundaryInRange(env: Env, c: Client, s: ServerState, direction: int)
    requires env.Contract() && InRange(c)
    ensures var m := ClauseTransitions.AdjustBoundary(env, c, s, direction); m.Step? ==> InRange(m.client)
  {
    SteeredOk(env, c.candidates, s, c.rawHiragana, c.suffix, c.count, StepsFor(c.candidates), None);
    if direction != 0 {
      var steered := if c.suffix != "" || c.future != []
                     then Steer(env, c.candidates, s, c.rawHiragana, c.suffix, c.count)
                     else Reply(c.candidates, s);
      var moved := MoveRpc(env, steered.server, direction);
      if moved.Some? {
        AtBoundaryInRange(env, c.(candidates := steered.candidates), moved.value.server, direction, c.candidates);
      }
    }
  }

  lemma ChosenInRange(c: Client, s: Selection)
    requires InRange(c) && s.count >= 0
    ensures InRange(WithSyncedSnapshots(WithSyncedSuffix(Chosen(c, s))))
  {
    SyncedInRange(Chosen(c, s));
    SyncedSnapshotsInRange(WithSyncedSuffix(Chosen(c, s)));
  }

  lemma SetSelectionInRange(c: Client, kind: SetSelectionType)
    requires InRange(c)
    ensures InRange(ClauseTransitions.SetSelection(c, kind).0)
  {
    var desired := match kind
      case Up => c.selection - 1
      case Down => c.selection + 1
      case Number(i) => i;
    var s := SelectCandidate(c.candidates, desired);
    SelectedOk(c.candidates, desired);
    if s.Some? {
      ChosenInRange(c, s.value);
    }
  }

  /* ----- actions ----- */

  lemma AdoptedInRange(c: Client, s: Selection, prefix: string)
    requires InRange(c) && s.count >= 0
    ensures InRange(Adopted(c, s, prefix))
  {
  }

  lemma ReceivedInRange(x: Session, typed: string, candidates: Candidates)
    requires InRange(x.client) && CountsOk(candidates)
    ensures InRange(Received(x, typed, candidates).client)
  {
    var c := x.client.(rawInput := x.client.rawInput + typed, candidates := candidates);
    var s := SelectCandidate(candidates, x.client.selection);
    SelectedOk(candidates, x.client.selection);
    if s.Some? {
      AdoptedInRange(c, s.value, c.fixedPrefix);
    }
  }

  lemma AppendInRange(env: Env, x: Session, text: string, style: Style, sig: Signal)
    requires env.Contract() && InRange(x.client)
    ensures InRange(DoAppend(env, x, text, style, sig).client)
  {
    var cleared := ClearedCaches(x);
    var typed := TextOf(env, x, x.client.rawInput, text, style);
    var reply := AppendRpc(env, cleared.server, typed, style == Direct);
    OffersOk(env, reply.server.text);
    var y := Renewed(cleared, Stale(cleared, typed, reply.candidates, sig));
    ReceivedInRange(y.(server := reply.server), typed, reply.candidates);
  }

  lemma DeletedInRange(x: Session, sig: Signal)
    requires InRange(x.client)
    ensures InRange(Deleted(x, sig).client)
  {
    var s := SelectCandidate(x.client.candidates, x.client.selection);
    SelectedOk(x.client.candidates, x.client.selection);
    if s.Some? {
      AdoptedInRange(x.client, s.value, x.client.fixedPrefix);
    }
  }

  lemma RemoveInRange(env: Env, x: Session, sig: Signal)
    requires env.Contract() && InRange(x.client)
    ensures InRange(DoRemove(env, x, sig).client)
  {
    var y := Removing(env, ClearedCaches(x));
    OffersOk(env, y.server.text);
    DeletedInRange(y, sig);
  }

  lemma RegrownInRange(x: Session, shrunkRaw: string, text: string, typed: string, restart: bool, reply: Reply)
    requires InRange(x.client) && CountsOk(reply.candidates)
    ensures InRange(Regrown(x, shrunkRaw, text, typed, restart, reply).client)
  {
    var y := (if restart then ResetStale(x) else x).(server := reply.server);
    var c := y.client.(rawInput := if restart then typed else shrunkRaw + text, selection := 0,
                       candidates := reply.candidates);
    var s := SelectCandidate(c.candidates, 0);
    SelectedOk(c.candidates, 0);
    if s.Some? {
      AdoptedInRange(c, s.value, "");
    }
  }

  lemma ShrinkInRange(env: Env, x: Session, text: string, style: Style, sig: Signal)
    requires env.Contract() && InRange(x.client)
    ensures var y := DoShrink(env, x, text, style, sig); y.Some? ==> InRange(y.value.client)
  {
    var cleared := PrefixForgotten(x);
    var cut := CutOff(env, cleared, sig);
    if cut.Some? {
      var shrunkRaw := RawInputSuffix(cleared.client.rawInput, cleared.client.count);
      var typed := TextOf(env, x, shrunkRaw, text, style);
      var y := cleared.(server := cut.value.1);
      var reply := AppendRpc(env, y.server, typed, style == Direct);
      OffersOk(env, reply.server.text);
      RegrownInRange(y, shrunkRaw, text, typed, cut.value.0, reply);
    }
  }

  lemma TextInRange(env: Env, e: Exec, a: ClientAction, next: Option<ClientAction>, sig: Signal)
    requires env.Contract() && InRange(e.session.client)
    requires EditsText(a)
    ensures var r := Execute(env, e, a, next, sig); r.Ran? ==> InRange(r.exec.session.client)
  {
    match a {
      case AppendText(text, style) => AppendInRange(env, e.session, text, style, sig);
      case RemoveText => RemoveInRange(env, e.session, sig);
      case ShrinkText(text, style) => ShrinkInRange(env, e.session, text, style, sig);
      case SetTextWithType(kind) => SetTextInRange(env, e.session, kind);
    }
  }

  lemma SetTextInRange(env: Env, x: Session, kind: SetTextType)
    requires InRange(x.client)
    ensures InRange(DoSetText(env, x, kind).client)
  {
    var c, next := x.client, Last(x.client.future);
    var input := ClausePart(c.rawInput, if next.Some? then Some(next.value.rawInput) else None, c.count);
    var reading := ClausePart(c.rawHiragana, if next.Some? then Some(next.value.rawHiragana) else None, c.count);
    SyncedSnapshotsInRange(c.(preview := Merge(c.fixedPrefix, env.render(kind, input, reading))));
  }

  lemma AfterStepInRange(x: Session, m: Step, next: Option<ClientAction>, deferred: bool, sig: Signal)
    requires m.Step? && !m.effect.ServerReset? ==> InRange(m.client)
    ensures AfterEnsure(x, m, next, deferred).Some? ==> InRange(AfterEnsure(x, m, next, deferred).value.session.client)
    ensures AfterMove(x, m, deferred).Some? ==> InRange(AfterMove(x, m, deferred).value.session.client)
    ensures AfterAdjust(x, m, sig).Some? ==> InRange(AfterAdjust(x, m, sig).value.client)
  {
  }

  lemma MoveInRange(env: Env, x: Session, d: Direction, deferred: bool, sig: Signal)
    requires env.Contract() && InRange(x.client)
    ensures var y := DoMove(env, x, d, deferred, sig); y.Some? ==> InRange(y.value.session.client)
  {
    match d {
      case Left => MoveLeftInRange(x.client, x.server);
      case Right => MoveRightInRange(env, x.client, x.server);
      case ToLast => MoveToLastInRange(env, x.client, x.server, false);
    }
    AfterStepInRange(x, MoveStep(env, x.client, x.server, d), None, deferred, sig);
  }

  lemma EnsureInRange(env: Env, x: Session, next: Option<ClientAction>, deferred: bool, sig: Signal)
    requires env.Contract() && InRange(x.client)
    ensures var y := DoEnsure(env, x, next, deferred, sig); y.Some? ==> InRange(y.value.session.client)
  {
    StartNavigationInRange(env, x.client, x.server);
    AfterStepInRange(x, StartNavigation(env, x.client, x.server), next, deferred, sig);
  }

  lemma AdjustInRange(env: Env, x: Session, step: int, sig: Signal)
    requires env.Contract() && InRange(x.client)
    ensures var y := DoAdjust(env, x, step, sig); y.Some? ==> InRange(y.value.client)
  {
    AdjustBoundaryInRange(env, x.client, x.server, step);
    AfterStepInRange(x, ClauseTransitions.AdjustBoundary(env, x.client, x.server, step), None, false, sig);
  }

  lemma ClausesInRange(env: Env, e: Exec, a: ClientAction, next: Option<ClientAction>, sig: Signal)
    requires env.Contract() && InRange(e.session.client)
    requires EditsClauses(a)
    ensures var r := Execute(env, e, a, next, sig); r.Ran? ==> InRange(r.exec.session.client)
  {
    match a {
      case EnsureClauseNavigationReady => EnsureInRange(env, e.session, next, e.deferred, sig);
      case MoveClause(d) => MoveInRange(env, e.session, d, e.deferred, sig);
      case AdjustBoundary(step) => AdjustInRange(env, e.session, step, sig);
      case SetSelection(kind) => SetSelectionInRange(e.session.client, kind);
    }
  }

  lemma ExecuteInRange(env: Env, e: Exec, a: ClientAction, next: Option<ClientAction>, sig: Signal)
    requires env.Contract() && InRange(e.session.client)
    ensures var r := Execute(env, e, a, next, sig); r.Ran? ==> InRange(r.exec.session.client)
  {
    if EditsText(a) {
      TextInRange(env, e, a, next, sig);
    } else if EditsClauses(a) {
      ClausesInRange(env, e, a, next, sig);
    }
  }

  /* ----- runs ----- */

  lemma {:induction false} ExecuteFromInRange(env: Env, e: Exec, actions: seq<ClientAction>, i: nat, sigs: Signals)
    requires env.Contract() && InRange(e.session.client) && i <= |actions|
    ensures var r := ExecuteFrom(env, e, actions, i, sigs); r.Ran? ==> InRange(r.exec.session.client)
    decreases |actions| - i
  {
    if i < |actions| {
      ExecuteInRange(env, e, actions[i], if i + 1 < |actions| then Some(actions[i + 1]) else None, sigs(i));
      var r := ExecuteAt(env, e, actions, i, sigs);
      if r.Ran? {
        ExecuteFromInRange(env, r.exec, actions, i + 1, sigs);
      }
    }
  }

  lemma PlanInRange(env: Env, x: Session, p: Plan, sigs: Signals)
    requires env.Contract() && InRange(x.client)
    ensures InRange(HandleActions(env, x, p, sigs).client)
  {
    ExecuteFromInRange(env, Exec(x.(phase := p.phase), false), p.actions, 0, sigs);
  }

  lemma HandleInRange(env: Env, x: Session, ev: Event, s: Settings, sigs: Signals)
    requires env.Contract() && InRange(x.client)
    ensures InRange(Handle(env, x, ev, s, sigs).client)
  {
    ExecuteInRange(env, Exec(x.(phase := Idle), false), EndComposition, None, QUIET);
    ExecuteInRange(env, Exec(x.(phase := Idle), false), SetIMEMode(OtherMode(x.mode)), None, QUIET);
    var p := PlanOf(x, ev, s);
    if p.Some? {
      PlanInRange(env, x, p.value, sigs);
    }
  }

  lemma {:induction false} RunInRange(env: Env, x: Session, run: seq<Occurrence>)
    requires env.Contract() && InRange(x.client)
    ensures InRange(AfterRun(env, x, run).client)
  {
    if run != [] {
      RunInRange(env, x, run[..|run| - 1]);
      var o := run[|run| - 1];
      HandleInRange(env, AfterRun(env, x, run[..|run| - 1]), o.event, o.settings, o.signals);
    }
  }

  /** In every reachable state no count is negative, so a right move is refused exactly when the count is above
      127 and something follows, and the next group number belongs to no clause. */
  lemma ReachableRanges(env: Env, run: seq<Occurrence>)
    requires env.Contract()
    ensures var x := AfterRun(env, FRESH, run);
            && x.client.count >= 0
            && (forall i :: 0 <= i < |x.client.passed| ==> x.client.passed[i].count >= 0)
            && (MoveRight(env, x.client, x.server).Failed? <==> x.client.suffix != "" && x.client.count > 127)
            && (forall i :: 0 <= i < |x.client.future| ==> x.client.future[i].mark.group != Some(x.client.nextGroup))
  {
    RunInRange(env, FRESH, run);
    var x := AfterRun(env, FRESH, run);
    RightRefused(env, x.client, x.server);
    NewGroupIsNew(x.client);
    forall i | 0 <= i < |x.client.passed| ensures x.client.passed[i].count >= 0 {
      assert PassedFits(x.client.passed[i], x.client.nextGroup);
    }
  }
}
