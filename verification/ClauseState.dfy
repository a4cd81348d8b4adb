/** The client's clause state, updated in place while it drives the conversion server. */
module ClauseState {
  import opened Text
  import opened DelayedN
  import opened Clauses
  import opened FutureCache
  import opened ConversionServer
  import T = ClauseTransitions

  class ClauseState {
    const server: Server
    var preview: string
    var suffix: string
    var rawInput: string
    var rawHiragana: string
    var fixedPrefix: string
    var count: int
    var selection: int
    var candidates: Candidates
    var passed: seq<ClauseSnapshot>
    var future: seq<FutureSnapshot>
    var mark: SplitMark
    var nextGroup: nat

    ghost function View(): T.Client
      reads this
    {
      T.Client(preview, suffix, rawInput, rawHiragana, fixedPrefix, count, selection, candidates,
               passed, future, mark, nextGroup)
    }

    /** The call ended as the transition says; after a refused call the state is not used again. */
    ghost predicate Did(step: T.Step, r: Option<T.Effect>)
      reads this, server
    {
      if r.None? then step.Failed? else step == T.Step(View(), server.State(), r.value)
    }

    constructor (server: Server)
      ensures this.server == server && View() == T.EMPTY_CLIENT
    {
      this.server := server;
      preview, suffix, rawInput, rawHiragana, fixedPrefix := "", "", "", "", "";
      count, selection, candidates := 0, 0, NO_CANDIDATES;
      passed, future, mark, nextGroup := [], [], NO_SPLIT, 0;
    }

    /** A scratch copy that shares the server but has no clauses on either side. */
    constructor Scratch(c: ClauseState)
      ensures server == c.server && View() == c.View().(passed := [], future := [])
    {
      server := c.server;
      preview, suffix, rawInput, rawHiragana, fixedPrefix :=
        c.preview, c.suffix, c.rawInput, c.rawHiragana, c.fixedPrefix;
      count, selection, candidates := c.count, c.selection, c.candidates;
      passed, future, mark, nextGroup := [], [], c.mark, c.nextGroup;
    }

    method SetTexts(preview: string, suffix: string, rawInput: string, rawHiragana: string)
      modifies this
      ensures View() == old(View()).(preview := preview, suffix := suffix, rawInput := rawInput,
                                     rawHiragana := rawHiragana)
    {
      this.preview, this.suffix, this.rawInput, this.rawHiragana := preview, suffix, rawInput, rawHiragana;
    }

    method SetChoice(count: int, selection: int, mark: SplitMark, candidates: Candidates)
      modifies this
      ensures View() == old(View()).(count := count, selection := selection, mark := mark, candidates := candidates)
    {
      this.count, this.selection, this.mark, this.candidates := count, selection, mark, candidates;
    }

    method Restore(s: ClauseSnapshot)
      modifies this
      ensures View() == T.Restored(old(View()), s, old(passed))
    {
      SetTexts(s.preview, s.suffix, s.rawInput, s.rawHiragana);
      SetChoice(s.count, s.selection, s.mark, s.candidates);
      fixedPrefix := s.fixedPrefix;
    }

    method RestoreFuture(f: FutureSnapshot)
      modifies this
      ensures View() == T.RestoredFuture(old(View()), f)
    {
      SetTexts(Merge(fixedPrefix, f.clausePreview), f.suffix, f.rawInput, f.rawHiragana);
      SetChoice(f.count, ResolveSelection(f), f.mark.(group := if f.mark.derived then f.mark.group else None),
                f.candidates);
    }

    /** The displayed remainders follow the cached next clause. */
    method SyncFutureSuffix()
      modifies this
      ensures View() == T.WithSyncedSuffix(old(View()))
    {
      if future != [] {
        var f := future[|future| - 1];
        var subs := candidates.subTexts;
        var i := 0;
        while i < |subs|
          invariant 0 <= i <= |subs| == |candidates.subTexts|
          invariant subs[..i] == SyncedCandidates(candidates, future).subTexts[..i]
          invariant subs[i..] == candidates.subTexts[i..]
        {
          var replaced := ReplaceFutureSuffix(subs[i], f);
          assert subs[i] == subs[i..][0] == candidates.subTexts[i];
          ghost var before := subs;
          if replaced.Some? {
            subs := subs[i := replaced.value];
          }
          assert subs[..i + 1] == subs[..i] + [subs[i]];
          assert SyncedCandidates(candidates, future).subTexts[..i + 1]
              == SyncedCandidates(candidates,
                                  future).subTexts[..i] + [SyncedCandidates(candidates, future).subTexts[i]];
          assert subs[i + 1..] == before[i..][1..];
          i := i + 1;
        }
        assert subs == subs[..i];
        var synced := candidates.(subTexts := subs);
        assert synced == SyncedCandidates(candidates, future);
        suffix := if 0 <= (if selection < 0 then 0 else selection) < |subs|
                  then subs[if selection < 0 then 0 else selection]
                  else RawSuffix(candidates.hiragana, count);
        candidates := synced;
      } else {
        suffix := At(candidates.subTexts, if selection < 0 then 0 else selection, "");
      }
    }

    /** Every passed clause's displayed remainder follows an edit of the current one. */
    method SyncPassedSuffixes()
      modifies this
      ensures View() == T.WithSyncedSnapshots(old(View()))
    {
      var full := preview + suffix;
      var i := 0;
      while i < |passed|
        invariant 0 <= i <= |passed| == |old(passed)|
        invariant View() == old(View()).(passed := passed) && full == preview + suffix
        invariant forall k :: 0 <= k < i ==> passed[k] == SyncSnapshot(old(passed)[k], full)
        invariant forall k :: i <= k < |passed| ==> passed[k] == old(passed)[k]
      {
        passed := passed[i := SyncSnapshot(passed[i], full)];
        i := i + 1;
      }
      assert passed == SyncSnapshots(old(passed), full);
    }

    /** The server's cursor walks left until its first candidate ends where the target clause does. */
    method Steer(start: Candidates, reading: string, subText: string, target: int) returns (r: Candidates)
      modifies server
      ensures Reply(r, server.State())
           == T.Steer(server.env, start, old(server.State()), reading, subText, target)
    {
      r := start;
      var last: Option<T.Signature> := None;
      var steps := if |start.hiragana| == 0 then 1 else |start.hiragana|;
      while steps > 0
        invariant 0 <= steps
        invariant T.SteerFrom(server.env, r, server.State(), reading, subText, target, steps, last)
               == T.Steer(server.env, start, old(server.State()), reading, subText, target)
      {
        if T.Settled(r, reading, subText, target) {
          return;
        }
        var _ := server.MoveCursor(-1);
        var next := server.MoveCursor(0);
        if next.value.texts == [] {
          var _ := server.MoveCursor(1);
          return;
        }
        if last == Some(T.SignatureOf(next.value)) {
          r := next.value;
          return;
        }
        r, last, steps := next.value, Some(T.SignatureOf(next.value)), steps - 1;
      }
    }

    method MoveRight() returns (r: Option<T.Effect>)
      modifies this, server
      ensures Did(T.MoveRight(server.env, old(View()), old(server.State())), r)
    {
      if suffix == "" {
        return Some(T.Skipped);
      }
      var snapshot := ClauseSnapshot(preview, suffix, rawInput, rawHiragana, fixedPrefix, count, selection,
                                     mark, candidates);
      var clause := ClausePreview(preview, fixedPrefix);
      var _ := server.MoveCursor(PUSH_SNAPSHOT);
      passed := passed + [snapshot];
      var shrunk := server.ShrinkText(count);
      if shrunk.None? {
        return None;
      }
      candidates := shrunk.value;
      if candidates.IsEmptyComposition() {
        return Some(T.ServerReset);
      }
      selection := 0;
      rawInput := RawInputSuffix(rawInput, count);
      fixedPrefix := fixedPrefix + clause;
      assert View() == T.Passing(old(View()), shrunk.value);
      r := EnterNext();
    }

    method EnterNext() returns (r: Option<T.Effect>)
      requires passed != []
      modifies this, server
      ensures Did(T.EnterNext(server.env, old(View()), old(server.State())), r)
    {
      if FutureMatches(future, candidates) {
        r := EnterCached();
      } else {
        r := EnterFresh();
      }
    }

    method EnterCached() returns (r: Option<T.Effect>)
      requires future != []
      modifies this, server
      ensures Did(T.EnterCached(server.env, old(View()), old(server.State())), r)
    {
      var f := future[|future| - 1];
      future := future[..|future| - 1];
      candidates := Steer(candidates, f.rawHiragana, f.selectedSubText, f.count);
      RestoreFuture(f);
      SyncFutureSuffix();
      r := Some(T.Applied(true));
    }

    /** The cursor-prefix candidates are taken when they split the clause or are richer. */
    method AdoptNavigation()
      modifies this, server
      ensures View() == T.WithNavigation(server.env, old(View()), old(server.State()))
      ensures server.State() == old(server.State())
    {
      var nav := server.MoveCursor(0);
      var selected := SelectCandidate(nav.value, selection);
      if selected.Some? {
        var richer := |nav.value.texts| > |candidates.texts| && T.ReadingCompatible(candidates, nav.value);
        if SplitsRawInput(selected.value, rawInput) || richer {
          candidates := nav.value;
          selection := selected.value.index;
        }
      }
    }

    method Enter(s: Selection)
      modifies this
      ensures View() == T.Entered(old(View()), s)
    {
      mark := NO_SPLIT;
      selection, count := s.index, s.count;
      var rest := SuffixAfterSelected(preview, fixedPrefix, suffix, s);
      preview := Merge(fixedPrefix, s.text);
      suffix := rest;
      rawHiragana := s.hiragana;
    }

    method EnterFresh() returns (r: Option<T.Effect>)
      requires passed != []
      modifies this, server
      ensures Did(T.EnterFresh(server.env, old(View()), old(server.State())), r)
    {
      future := [];
      AdoptNavigation();
      var selected := SelectCandidate(candidates, selection);
      if selected.None? {
        var _ := server.MoveCursor(POP_SNAPSHOT);
        var restored := passed[|passed| - 1];
        passed := passed[..|passed| - 1];
        Restore(restored);
      } else {
        Enter(selected.value);
      }
      r := Some(T.Applied(true));
    }

    method MoveLeft() returns (r: Option<T.Effect>)
      modifies this, server
      ensures Did(T.MoveLeft(old(View()), old(server.State())), r)
    {
      if passed == [] {
        return Some(T.Skipped);
      }
      var restored := passed[|passed| - 1];
      passed := passed[..|passed| - 1];
      future := future + [BuildFuture(preview, suffix, rawInput, rawHiragana, fixedPrefix, count, selection,
                                      candidates, mark)];
      var _ := server.MoveCursor(POP_SNAPSHOT);
      Restore(restored);
      r := Some(T.Applied(true));
    }

    /** Right moves until the remainder is empty, nothing applies or nothing changes. */
    method MoveToLast() returns (r: Option<T.Effect>)
      requires server.env.Contract()
      modifies this, server
      ensures Did(T.MoveToLast(server.env, old(View()), old(server.State())), r)
    {
      var moved := false;
      while true
        invariant T.MoveToLastFrom(server.env, View(), server.State(), moved)
               == T.MoveToLast(server.env, old(View()), old(server.State()))
        decreases T.InputLeft(server.State()), |future|, T.StuckCount(View())
      {
        ghost var before := View();
        var beforeSnapshot := (preview, suffix, rawInput, rawHiragana, fixedPrefix, count, selection,
                               |passed|, |future|, mark);
        ghost var beforeServer := server.State();
        r := MoveRight();
        if r.None? || r.value.ServerReset? {
          return;
        }
        if r.value.Skipped? {
          break;
        }
        if beforeSnapshot == (preview, suffix, rawInput, rawHiragana, fixedPrefix, count, selection,
                              |passed|, |future|, mark) {
          assert T.SameProgress(before, View());
          break;
        }
        T.MoveRightMeasure(server.env, before, beforeServer);
        moved := true;
        if suffix == "" {
          break;
        }
      }
      r := Some(if moved then T.Applied(true) else T.Skipped);
    }

    /** The future cache rebuilt by sending a scratch copy to the last clause, with the server's
        snapshots popped again afterwards. */
    method Rebuild() returns (ok: bool)
      requires server.env.Contract()
      modifies this, server
      ensures var rebuilt := T.Rebuild(server.env, old(View()), old(server.State()));
              ok == rebuilt.Some? && (ok ==> rebuilt.value == (View(), server.State()))
    {
      if suffix == "" {
        future := [];
        return true;
      }
      var walked, collected, scratch := Walk();
      if !walked {
        return false;
      }
      PopServer(|scratch.passed|);
      future := T.Reversed(collected);
      ok := true;
    }

    method PopServer(times: nat)
      modifies server
      ensures server.State() == T.PopMany(old(server.State()), times)
    {
      var n := times;
      while n > 0
        invariant 0 <= n
        invariant T.PopMany(server.State(), n) == T.PopMany(old(server.State()), times)
      {
        var _ := server.MoveCursor(POP_SNAPSHOT);
        n := n - 1;
      }
    }

    method Walk() returns (ok: bool, collected: seq<FutureSnapshot>, scratch: ClauseState)
      requires server.env.Contract()
      modifies server
      ensures fresh(scratch)
      ensures var walked := T.WalkFrom(server.env, View(), View().(passed := [], future := []), old(server.State()),
                                       []);
              ok == walked.Some? && (ok ==> walked.value == T.Walked(scratch.View(), server.State(), collected))
    {
      scratch := new ClauseState.Scratch(this);
      collected := [];
      while true
        invariant fresh(scratch) && scratch.server == server
        invariant T.WalkFrom(server.env, View(), scratch.View(), server.State(), collected)
               == T.WalkFrom(server.env, View(), View().(passed := [], future := []), old(server.State()), [])
        decreases T.InputLeft(server.State()), |scratch.future|, T.StuckCount(scratch.View())
      {
        ghost var before, beforeServer := scratch.View(), server.State();
        var beforeMarker := (scratch.preview, scratch.suffix, scratch.rawInput, scratch.rawHiragana,
                             scratch.fixedPrefix,
                             scratch.count, scratch.selection, |scratch.passed|, |scratch.future|, scratch.mark);
        var effect := scratch.MoveRight();
        if effect.None? {
          return false, collected, scratch;
        }
        var madeProgress := beforeMarker !=
          (scratch.preview, scratch.suffix, scratch.rawInput, scratch.rawHiragana, scratch.fixedPrefix,
           scratch.count, scratch.selection, |scratch.passed|, |scratch.future|, scratch.mark);
        assert madeProgress <==> !T.SameProgress(before, scratch.View());
        if !effect.value.Applied? || !madeProgress {
          return true, collected, scratch;
        }
        T.MoveRightMeasure(server.env, before, beforeServer);
        var f := Collect(scratch, collected == []);
        collected := collected + [f];
        if scratch.suffix == "" {
          return true, collected, scratch;
        }
      }
    }

    method Collect(at: ClauseState, first: bool) returns (f: FutureSnapshot)
      ensures f == T.Collected(View(), at.View(), first)
    {
      f := BuildFuture(at.preview, at.suffix, at.rawInput, at.rawHiragana, at.fixedPrefix, at.count, at.selection,
                       at.candidates, at.mark);
      if first {
        var splitMark := SplitMark(true, true, true, mark.group);
        f := f.(mark := splitMark);
        var inputSuffix := RawInputSuffix(rawInput, count);
        if at.suffix == "" && suffix != "" && inputSuffix != "" && at.rawInput == inputSuffix {
          var reading := RecoverReading(rawHiragana, f.rawHiragana);
          if reading.Some? {
            f := Conservative(suffix, "", inputSuffix, reading.value, |inputSuffix|, splitMark);
          }
        }
      }
    }

    method EnsureClauseNavigationReady() returns (r: Option<T.Effect>)
      requires server.env.Contract()
      modifies this, server
      ensures Did(T.StartNavigation(server.env, old(View()), old(server.State())), r)
    {
      if passed != [] || future != [] || mark.derived || mark.group.Some?
         || candidates.texts == [] || rawHiragana == "" || suffix != "" {
        return Some(T.Skipped);
      }
      var nav := server.MoveCursor(0);
      if nav.value.IsEmptyComposition() {
        return Some(T.ServerReset);
      }
      var selected := SelectForPreview(nav.value, preview, fixedPrefix, selection);
      if selected.None? || !SplitsRawInput(selected.value, rawInput) {
        return Some(T.Skipped);
      }
      var kind := DisplayOverride(server.env.render, preview, fixedPrefix, rawInput, rawHiragana);
      TakeFirstClause(nav.value, selected.value);
      var ok := Rebuild();
      if !ok {
        return None;
      }
      if kind.Some? {
        CarryOverride(kind.value);
      }
      SyncFutureSuffix();
      r := Some(T.Applied(true));
    }

    method TakeFirstClause(nav: Candidates, s: Selection)
      modifies this
      ensures View() == T.FirstClause(old(View()), nav, s)
    {
      var rest := SuffixAfterSelected(preview, fixedPrefix, suffix, s);
      candidates := nav.(subTexts := T.SetAt(nav.subTexts, s.index, rest));
      selection, count := s.index, s.count;
      preview, suffix := Merge(fixedPrefix, s.text), rest;
      rawHiragana := s.hiragana;
      mark := SplitMark(true, false, false, None);
    }

    method CarryOverride(kind: SetTextType)
      modifies this
      ensures View() == T.WithOverride(server.env.render, old(View()), kind)
    {
      var parts := OverrideSplit(server.env.render, kind, rawInput, rawHiragana, count, Last(future));
      candidates := candidates.(texts := T.SetAt(candidates.texts, selection, parts.0),
                                subTexts := T.SetAt(candidates.subTexts, selection, parts.1));
      preview := Merge(fixedPrefix, parts.0);
    }

    /** Stale cached clauses are popped until one ends the new reading. */
    method TrimStaleFuture(reading: string)
      modifies this`future
      ensures future == TrimStale(old(future), reading)
    {
      while future != [] && !MatchesReading(future[|future| - 1], reading)
        invariant TrimStale(future, reading) == TrimStale(old(future), reading)
        decreases |future|
      {
        future := future[..|future| - 1];
      }
    }

    method MaybePushSplitFuture(hint: string, allow: bool, group: Option<nat>)
      modifies this`future
      ensures future == SplitFuture(old(future), rawInput, rawHiragana, count, hint, allow, group)
    {
      var rawInputSuffix := RawInputSuffix(rawInput, count);
      var reading := SplitReading(future, rawInputSuffix, rawHiragana, count, hint, allow);
      if reading == "" {
        return;
      }
      if future == [] {
        if allow {
          future := [Bootstrap(rawInputSuffix, reading, hint, group)];
        }
        return;
      }
      SplitKeptFuture(rawInputSuffix, reading, hint, group);
    }

    method SplitKeptFuture(rawInputSuffix: string, first: string, hint: string, group: Option<nat>)
      modifies this`future
      ensures future == SplitKept(old(future), rawInputSuffix, first, hint, group)
    {
      TrimStaleFuture(first);
      if future != [] {
        SplitTopFuture(rawInputSuffix, RefinedReading(first, hint, future[|future| - 1]), group);
      }
    }

    method SplitTopFuture(rawInputSuffix: string, reading: string, group: Option<nat>)
      requires future != []
      modifies this`future
      ensures future == SplitTop(old(future), rawInputSuffix, reading, group)
    {
      var top := future[|future| - 1];
      var trailing := if |future| >= 2 then Some(future[|future| - 2]) else None;
      assert trailing == Last(future[..|future| - 1]);
      if top.conservative || (top.mark.remainder && top.mark.group == group && trailing.Some?) {
        var joined := Remainder(top, trailing, rawInputSuffix, reading,
                                SplitMark(!top.conservative || group.Some?, true, true, group));
        future := future[..|future| - 1];
        future := future + [joined];
        return;
      }
      var head := StripSuffix(reading, top.rawHiragana);
      if head.None? || head.value == "" {
        return;
      }
      var before := StripSuffix(rawInputSuffix, top.rawInput);
      future := future + [Conservative(head.value, Display(top), rawInputSuffix, reading,
                                       if before.Some? then |before.value| else |head.value|,
                                       SplitMark(group.Some?, true, true, group))];
    }

    /** The split group this edit belongs to, a new one if none is open. */
    method TakeGroup() returns (group: nat)
      modifies this`nextGroup
      ensures group == T.OpenGroup(old(View())).GetOr(old(nextGroup))
      ensures nextGroup == if T.OpenGroup(old(View())).Some? then old(nextGroup) else old(nextGroup) + 1
    {
      var open := mark.group;
      if open.None? && future != [] {
        var top := future[|future| - 1];
        if top.conservative || top.mark.leftNeighbor {
          open := top.mark.group;
        }
      }
      group := open.GetOr(nextGroup);
      if open.None? {
        nextGroup := nextGroup + 1;
      }
    }

    method EditClause(s: Selection)
      modifies this
      ensures View() == T.BoundaryEdited(old(View()), s)
    {
      var group := TakeGroup();
      var allow := future == [] && passed != [] && RawSuffix(s.hiragana, s.count) == "";
      ResizeClause(s, allow, group);
      MarkSplit(group);
    }

    method ResizeClause(s: Selection, allow: bool, group: nat)
      modifies this
      ensures View() == T.Resized(old(View()), s, allow, group)
    {
      Choose(s);
      MaybePushSplitFuture(s.subText, allow, Some(group));
    }

    method MarkSplit(group: nat)
      modifies this`mark
      ensures View() == T.Marked(old(View()), group)
    {
      var derived := mark.leftNeighbor || T.InGroup(future, group);
      mark := SplitMark(derived, false, mark.leftNeighbor, if derived then Some(group) else None);
    }

    method ApplyBoundarySelection(s: Selection)
      modifies this
      ensures View() == T.ApplyBoundarySelection(old(View()), s)
    {
      EditClause(s);
      SyncFutureSuffix();
      SyncPassedSuffixes();
    }

    method AdjustBoundary(direction: int) returns (r: Option<T.Effect>)
      modifies this, server
      ensures Did(T.AdjustBoundary(server.env, old(View()), old(server.State()), direction), r)
    {
      if direction == 0 {
        return Some(T.Skipped);
      }
      var fallback := candidates;
      if suffix != "" || future != [] {
        candidates := Steer(candidates, rawHiragana, suffix, count);
      }
      var moved := server.MoveCursor(direction);
      if moved.None? {
        return None;
      }
      var effect := AtBoundary(direction, fallback);
      r := Some(effect);
    }

    /** The candidates at the new boundary; with none, the server's cursor goes back and a shorter
        candidate of the old list may take the clause's place. */
    method AtBoundary(direction: int, fallback: Candidates) returns (r: T.Effect)
      modifies this, server
      ensures T.Step(View(), server.State(), r)
           == T.AtBoundary(server.env, old(View()), old(server.State()), direction, fallback)
    {
      var boundary := server.MoveCursor(0);
      if boundary.value.texts != [] {
        candidates := boundary.value;
        var selected := SelectCandidate(candidates, 0);
        ApplyBoundarySelection(selected.value);
        return T.Applied(true);
      }
      if direction < 0 {
        var _ := server.MoveCursor(1);
        var selected := SplitLeftCandidate(fallback, count);
        if selected.Some? {
          candidates := fallback;
          ApplyBoundarySelection(selected.value);
          return T.Applied(true);
        }
      }
      r := T.Skipped;
    }

    method SetSelection(kind: T.SetSelectionType) returns (r: T.Effect)
      modifies this
      ensures (View(), r) == T.SetSelection(old(View()), kind)
    {
      var desired := match kind
        case Up => selection - 1
        case Down => selection + 1
        case Number(i) => i;
      var selected := SelectCandidate(candidates, desired);
      if selected.None? {
        return T.Skipped;
      }
      Choose(selected.value);
      SyncFutureSuffix();
      SyncPassedSuffixes();
      r := T.Applied(false);
    }

    method Choose(s: Selection)
      modifies this
      ensures View() == T.Chosen(old(View()), s)
    {
      selection, count := s.index, s.count;
      preview := Merge(fixedPrefix, s.text);
      rawHiragana := s.hiragana;
    }

    method TransitionWithBackend(command: T.Command) returns (r: Option<T.Effect>)
      requires server.env.Contract()
      modifies this, server
      ensures Did(T.Transition(server.env, old(View()), old(server.State()), command), r)
    {
      match command {
        case StartClauseNavigation => r := EnsureClauseNavigationReady();
        case GoLeft => r := MoveLeft();
        case GoRight => r := MoveRight();
        case GoToLast => r := MoveToLast();
        case MoveBoundary(direction) => r := AdjustBoundary(direction);
        case Choose(selection) =>
          var effect := SetSelection(selection);
          r := Some(effect);
        case Commit => r := Some(T.Skipped);
      }
    }
  }
}
