/** The clause state machine as functions on the client's clause state and the server's text.
    The methods of `ClauseState` are proved to compute these, and the theorems are about these. */
module ClauseTransitions {
  import opened Text
  import opened DelayedN
  import opened Clauses
  import opened FutureCache
  import opened ConversionServer

  datatype Client = Client(
    preview: string, suffix: string, rawInput: string, rawHiragana: string, fixedPrefix: string,
    count: int, selection: int, candidates: Candidates,
    passed: seq<ClauseSnapshot>, future: seq<FutureSnapshot>, mark: SplitMark, nextGroup: nat)

  const EMPTY_CLIENT := Client("", "", "", "", "", 0, 0, NO_CANDIDATES, [], [], NO_SPLIT, 0)

  datatype Effect = Skipped | Applied(updatePos: bool) | ServerReset

  /** `Failed` is a refused call; the caller then throws client and server state away. */
  datatype Step = Failed | Step(client: Client, server: ServerState, effect: Effect)

  /* ----- progress ----- */

  predicate SameProgress(a: Client, b: Client) {
    && a.preview == b.preview && a.suffix == b.suffix && a.rawInput == b.rawInput
    && a.rawHiragana == b.rawHiragana && a.fixedPrefix == b.fixedPrefix
    && a.count == b.count && a.selection == b.selection
    && |a.passed| == |b.passed| && |a.future| == |b.future| && a.mark == b.mark
  }

  predicate Active(c: Client) {
    c.passed != [] || c.future != [] || c.mark.derived || c.mark.group.Some?
  }

  /* ----- snapshots of the current clause ----- */

  function SnapshotOf(c: Client): ClauseSnapshot {
    ClauseSnapshot(c.preview, c.suffix, c.rawInput, c.rawHiragana, c.fixedPrefix, c.count, c.selection,
                   c.mark, c.candidates)
  }

  function FutureOf(c: Client): FutureSnapshot {
    BuildFuture(c.preview, c.suffix, c.rawInput, c.rawHiragana, c.fixedPrefix, c.count, c.selection,
                c.candidates, c.mark)
  }

  /** The current clause is again the one the snapshot was taken of. */
  function Restored(c: Client, s: ClauseSnapshot, passed: seq<ClauseSnapshot>): Client {
    Client(s.preview, s.suffix, s.rawInput, s.rawHiragana, s.fixedPrefix, s.count, s.selection, s.candidates,
           passed, c.future, s.mark, c.nextGroup)
  }

  /** The displayed remainder refreshed from the cached next clause. */
  function WithSyncedSuffix(c: Client): Client {
    c.(suffix := SyncedSuffix(c.candidates, c.selection, c.count, c.future),
       candidates := SyncedCandidates(c.candidates, c.future))
  }

  function WithSyncedSnapshots(c: Client): Client {
    c.(passed := SyncSnapshots(c.passed, c.preview + c.suffix))
  }

  /* ----- steering the server's cursor to a clause boundary ----- */

  predicate Settled(c: Candidates, reading: string, subText: string, count: int) {
    var s := SelectCandidate(c, 0);
    s.Some? &&
    (s.value.count < count
     || (s.value.count == count
         && (s.value.subText == subText || c.hiragana == reading
             || RawSuffix(c.hiragana, s.value.count) == RawSuffix(reading, count))))
  }

  type Signature = (string, int, string)

  function SignatureOf(c: Candidates): Signature {
    (c.hiragana, At(c.counts, 0, 0), At(c.subTexts, 0, ""))
  }

  /** At most `steps` moves left, until the server's first candidate ends where the target does. */
  function SteerFrom(env: Env, c: Candidates, s: ServerState, reading: string, subText: string, count: int,
                     steps: nat, last: Option<Signature>): Reply
    decreases steps
  {
    if steps == 0 || Settled(c, reading, subText, count) then Reply(c, s)
    else
      var left := MoveWithin(env, s, -1);
      var next := env.prefix(left.text);
      if next.texts == [] then Reply(c, MoveWithin(env, left, 1))
      else if last == Some(SignatureOf(next)) then Reply(next, left)
      else SteerFrom(env, next, left, reading, subText, count, steps - 1, Some(SignatureOf(next)))
  }

  function StepsFor(c: Candidates): nat {
    if |c.hiragana| == 0 then 1 else |c.hiragana|
  }

  function Steer(env: Env, c: Candidates, s: ServerState, reading: string, subText: string, count: int): Reply {
    SteerFrom(env, c, s, reading, subText, count, StepsFor(c), None)
  }

  function LeftMoves(env: Env, s: ServerState, k: nat): ServerState
    decreases k
  {
    if k == 0 then s else LeftMoves(env, MoveWithin(env, s, -1), k - 1)
  }

  /** The candidates known once the cursor has moved left `k` times. */
  function SeenAt(env: Env, c: Candidates, s: ServerState, k: nat): Candidates {
    if k == 0 then c else env.prefix(LeftMoves(env, s, k).text)
  }

  /** No candidates at all one move further left; the cursor has gone there and come back. */
  predicate Bounced(env: Env, c: Candidates, s: ServerState, k: nat, r: Reply) {
    SeenAt(env, c, s, k + 1).texts == [] && r.server == MoveWithin(env, LeftMoves(env, s, k + 1), 1)
  }

  predicate Repeats(env: Env, c: Candidates, s: ServerState, k: nat, last: Option<Signature>) {
    k > 0
    && (if k == 1 then last else Some(SignatureOf(SeenAt(env, c, s, k - 1)))) == Some(SignatureOf(SeenAt(env, c, s, k)))
  }

  /** `r` is the answer after `k` moves left, and there was a reason to stop there and none before. */
  ghost predicate SteeredBy(env: Env, c: Candidates, s: ServerState, reading: string, subText: string, count: int,
                            steps: nat, last: Option<Signature>, k: nat, r: Reply)
  {
    && k <= steps && r.candidates == SeenAt(env, c, s, k)
    && (forall j :: 0 <= j < k ==> !Settled(SeenAt(env, c, s, j), reading, subText, count))
    && (|| (r.server == LeftMoves(env, s, k)
            && (k == steps || Settled(r.candidates, reading, subText, count) || Repeats(env, c, s, k, last)))
        || (k < steps && Bounced(env, c, s, k, r)))
  }

  /** The cursor stops at the first position that settles the target clause, or where moving on is no use:
      the allowed moves are used up, an answer repeats, or nothing is offered further left. */
  lemma {:induction false} SteerStops(env: Env, c: Candidates, s: ServerState, reading: string, subText: string,
                                      count: int, steps: nat, last: Option<Signature>) returns (k: nat)
    ensures SteeredBy(env, c, s, reading, subText, count, steps, last, k,
                      SteerFrom(env, c, s, reading, subText, count, steps, last))
    decreases steps
  {
    var left := MoveWithin(env, s, -1);
    var next := env.prefix(left.text);
    assert LeftMoves(env, s, 1) == LeftMoves(env, left, 0);
    if steps == 0 || Settled(c, reading, subText, count) || next.texts == [] {
      k := 0;
    } else if last == Some(SignatureOf(next)) {
      k := 1;
    } else {
      var rest := SteerStops(env, next, left, reading, subText, count, steps - 1, Some(SignatureOf(next)));
      k := rest + 1;
      assert forall j {:trigger SeenAt(env, c, s, j)} :: 0 < j <= k + 1 ==>
        SeenAt(env, c, s, j) == SeenAt(env, next, left, j - 1);
      assert LeftMoves(env, s, k) == LeftMoves(env, left, rest);
      assert LeftMoves(env, s, k + 1) == LeftMoves(env, left, rest + 1);
    }
  }

  lemma SteerSettles(env: Env, c: Candidates, s: ServerState, reading: string, subText: string, count: int)
    ensures exists k :: SteeredBy(env, c, s, reading, subText, count, StepsFor(c), None, k,
                                  Steer(env, c, s, reading, subText, count))
  {
    var k := SteerStops(env, c, s, reading, subText, count, StepsFor(c), None);
    assert SteeredBy(env, c, s, reading, subText, count, StepsFor(c), None, k,
                     Steer(env, c, s, reading, subText, count));
  }

  /* ----- moving right ----- */

  function RestoredFuture(c: Client, f: FutureSnapshot): Client {
    c.(preview := Merge(c.fixedPrefix, f.clausePreview), suffix := f.suffix, rawInput := f.rawInput,
       rawHiragana := f.rawHiragana, count := f.count,
       mark := f.mark.(group := if f.mark.derived then f.mark.group else None),
       selection := ResolveSelection(f), candidates := f.candidates)
  }

  /** The next clause comes from the cache. */
  function EnterCached(env: Env, c: Client, s: ServerState): Step
    requires c.future != []
  {
    var f := c.future[|c.future| - 1];
    var steered := Steer(env, c.candidates, s, f.rawHiragana, f.selectedSubText, f.count);
    var popped := c.(future := c.future[..|c.future| - 1]);
    Step(WithSyncedSuffix(RestoredFuture(popped, f)), steered.server, Applied(true))
  }

  predicate ReadingCompatible(current: Candidates, next: Candidates) {
    current.hiragana == "" || EndsWith(current.hiragana, next.hiragana)
  }

  /** The cursor-prefix candidates replace the current ones when they split the clause or are richer. */
  function WithNavigation(env: Env, c: Client, s: ServerState): Client {
    var nav := env.prefix(s.text);
    var sel := SelectCandidate(nav, c.selection);
    if sel.Some? && (SplitsRawInput(sel.value, c.rawInput)
                     || (|nav.texts| > |c.candidates.texts| && ReadingCompatible(c.candidates, nav)))
    then c.(candidates := nav, selection := sel.value.index)
    else c
  }

  function Entered(c: Client, s: Selection): Client {
    c.(mark := NO_SPLIT, selection := s.index, count := s.count,
       suffix := SuffixAfterSelected(c.preview, c.fixedPrefix, c.suffix, s),
       preview := Merge(c.fixedPrefix, s.text), rawHiragana := s.hiragana)
  }

  /** The next clause comes from the server; without any candidate the move is undone. */
  function EnterFresh(env: Env, c: Client, s: ServerState): Step
    requires c.passed != []
  {
    var nav := WithNavigation(env, c.(future := []), s);
    var sel := SelectCandidate(nav.candidates, nav.selection);
    if sel.Some? then Step(Entered(nav, sel.value), s, Applied(true))
    else Step(Restored(nav, c.passed[|c.passed| - 1], c.passed[..|c.passed| - 1]), Pop(s), Applied(true))
  }

  /** The client once the passed clause is saved and the server has dropped its inputs. */
  function Passing(c: Client, shrunk: Candidates): Client {
    c.(passed := c.passed + [SnapshotOf(c)], candidates := shrunk, selection := 0,
       rawInput := RawInputSuffix(c.rawInput, c.count),
       fixedPrefix := c.fixedPrefix + ClausePreview(c.preview, c.fixedPrefix))
  }

  function EnterNext(env: Env, c: Client, s: ServerState): Step
    requires c.passed != []
  {
    if FutureMatches(c.future, c.candidates) then EnterCached(env, c, s) else EnterFresh(env, c, s)
  }

  function MoveRight(env: Env, c: Client, s: ServerState): Step {
    if c.suffix == "" then Step(c, s, Skipped)
    else
      var shrunk := ShrinkRpc(env, Push(s), c.count);
      if shrunk.None? then Failed
      else if shrunk.value.candidates.IsEmptyComposition() then
        Step(c.(passed := c.passed + [SnapshotOf(c)], candidates := shrunk.value.candidates),
             shrunk.value.server, ServerReset)
      else
        EnterNext(env, Passing(c, shrunk.value.candidates), shrunk.value.server)
  }

  /* ----- moving left ----- */

  function MoveLeft(c: Client, s: ServerState): Step {
    if c.passed == [] then Step(c, s, Skipped)
    else
      Step(Restored(c.(future := c.future + [FutureOf(c)]), c.passed[|c.passed| - 1], c.passed[..|c.passed| - 1]),
           Pop(s), Applied(true))
  }

  /* ----- termination of repeated right moves ----- */

  /** What a right move that makes progress decreases, lexicographically. */
  function InputLeft(s: ServerState): nat { |s.text.input| }

  function StuckCount(c: Client): nat { if c.count <= 0 then 1 else 0 }

  lemma SteerKeeps(env: Env, c: Candidates, s: ServerState, reading: string, subText: string, count: int,
                   steps: nat, last: Option<Signature>)
    decreases steps
    ensures var r := SteerFrom(env, c, s, reading, subText, count, steps, last);
            r.server.text.input == s.text.input && r.server.snapshots == s.snapshots
  {
  }

  ghost predicate Offered(c: Candidates) {
    forall i :: 0 <= i < |c.texts| ==> At(c.counts, i, 0) >= 1
  }

  lemma NavigationOffered(env: Env, c: Client, s: ServerState)
    requires env.Contract() && Offered(c.candidates)
    ensures Offered(WithNavigation(env, c, s).candidates)
    ensures
      || |WithNavigation(env, c, s).candidates.texts| >= |c.candidates.texts|
      || WithNavigation(env, c, s).candidates.texts != []
  {
  }

  lemma MoveRightMeasure(env: Env, c: Client, s: ServerState)
    requires env.Contract()
    requires var m := MoveRight(env, c, s); m.Step? && m.effect.Applied? && !SameProgress(c, m.client)
    ensures var m := MoveRight(env, c, s);
            || InputLeft(m.server) < InputLeft(s)
            || (InputLeft(m.server) == InputLeft(s) && |m.client.future| < |c.future|)
            || (InputLeft(m.server) == InputLeft(s) && |m.client.future| == |c.future|
                && StuckCount(m.client) < StuckCount(c))
  {
    var shrunk := ShrinkRpc(env, Push(s), c.count).value;
    var next := Passing(c, shrunk.candidates);
    assert shrunk.server.text.input != [];
    if FutureMatches(next.future, next.candidates) {
      var f := next.future[|next.future| - 1];
      SteerKeeps(env, next.candidates, shrunk.server, f.rawHiragana, f.selectedSubText, f.count,
                 StepsFor(next.candidates), None);
    } else {
      var cleared := next.(future := []);
      NavigationOffered(env, cleared, shrunk.server);
      var nav := WithNavigation(env, cleared, shrunk.server);
      var sel := SelectCandidate(nav.candidates, nav.selection);
      if sel.None? {
        PushPop(s);
        assert next.passed[..|next.passed| - 1] == c.passed;
      }
    }
  }

  /* ----- moving to the last clause ----- */

  /** Right moves until the remainder is empty, nothing applies or nothing changes. */
  function MoveToLastFrom(env: Env, c: Client, s: ServerState, moved: bool): Step
    requires env.Contract()
    decreases InputLeft(s), |c.future|, StuckCount(c)
  {
    var m := MoveRight(env, c, s);
    if m.Failed? || m.effect.ServerReset? then m
    else if m.effect.Skipped? || SameProgress(c, m.client) then
      Step(m.client, m.server, if moved then Applied(true) else Skipped)
    else if m.client.suffix == "" then Step(m.client, m.server, Applied(true))
    else
      MoveRightMeasure(env, c, s);
      MoveToLastFrom(env, m.client, m.server, true)
  }

  function MoveToLast(env: Env, c: Client, s: ServerState): Step
    requires env.Contract()
  {
    MoveToLastFrom(env, c, s, false)
  }

  /* ----- looking ahead ----- */

  datatype Walked = Walked(client: Client, server: ServerState, collected: seq<FutureSnapshot>)

  /** What the look-ahead remembers of the clause it has just entered. */
  function Collected(start: Client, at: Client, first: bool): FutureSnapshot {
    var f := FutureOf(at);
    if !first then f
    else
      var mark := SplitMark(true, true, true, start.mark.group);
      var inputSuffix := RawInputSuffix(start.rawInput, start.count);
      var reading := RecoverReading(start.rawHiragana, f.rawHiragana);
      if at.suffix == "" && start.suffix != "" && inputSuffix != "" && at.rawInput == inputSuffix && reading.Some?
      then Conservative(start.suffix, "", inputSuffix, reading.value, |inputSuffix|, mark)
      else f.(mark := mark)
  }

  function WalkFrom(env: Env, start: Client, c: Client, s: ServerState, collected: seq<FutureSnapshot>): Option<Walked>
    requires env.Contract()
    decreases InputLeft(s), |c.future|, StuckCount(c)
  {
    var m := MoveRight(env, c, s);
    if m.Failed? then None
    else if !m.effect.Applied? || SameProgress(c, m.client) then Some(Walked(m.client, m.server, collected))
    else
      var more := collected + [Collected(start, m.client, collected == [])];
      if m.client.suffix == "" then Some(Walked(m.client, m.server, more))
      else
        MoveRightMeasure(env, c, s);
        WalkFrom(env, start, m.client, m.server, more)
  }

  function PopMany(s: ServerState, n: nat): ServerState
    decreases n
  {
    if n == 0 then s else PopMany(Pop(s), n - 1)
  }

  function Reversed<T>(s: seq<T>): (r: seq<T>)
    ensures |r| == |s|
    ensures forall i :: 0 <= i < |s| ==> r[i] == s[|s| - 1 - i]
  {
    if s == [] then [] else [s[|s| - 1]] + Reversed(s[..|s| - 1])
  }

  /** The future cache rebuilt by walking a scratch copy of the client to the end and back. */
  function Rebuild(env: Env, c: Client, s: ServerState): Option<(Client, ServerState)>
    requires env.Contract()
  {
    if c.suffix == "" then Some((c.(future := []), s))
    else
      var walked := WalkFrom(env, c, c.(passed := [], future := []), s, []);
      if walked.None? then None
      else Some((c.(future := Reversed(walked.value.collected)),
                 PopMany(walked.value.server, |walked.value.client.passed|)))
  }

  /* ----- starting clause navigation ----- */

  function SetAt(s: seq<string>, i: int, v: string): seq<string> {
    if 0 <= i < |s| then s[i := v] else s
  }

  /** The current clause becomes the first clause of the navigation candidates. */
  function FirstClause(c: Client, nav: Candidates, s: Selection): Client {
    var rest := SuffixAfterSelected(c.preview, c.fixedPrefix, c.suffix, s);
    c.(candidates := nav.(subTexts := SetAt(nav.subTexts, s.index, rest)), selection := s.index, count := s.count,
       preview := Merge(c.fixedPrefix, s.text), suffix := rest, rawHiragana := s.hiragana,
       mark := SplitMark(true, false, false, None))
  }

  /** A function-key rendering of the whole text carried over to its two parts. */
  function WithOverride(render: Render, c: Client, kind: SetTextType): Client {
    var parts := OverrideSplit(render, kind, c.rawInput, c.rawHiragana, c.count, Last(c.future));
    c.(candidates := c.candidates.(texts := SetAt(c.candidates.texts, c.selection, parts.0),
                                   subTexts := SetAt(c.candidates.subTexts, c.selection, parts.1)),
       preview := Merge(c.fixedPrefix, parts.0))
  }

  function StartNavigation(env: Env, c: Client, s: ServerState): Step
    requires env.Contract()
  {
    if Active(c) || c.candidates.texts == [] || c.rawHiragana == "" || c.suffix != "" then Step(c, s, Skipped)
    else
      var nav := env.prefix(s.text);
      var sel := SelectForPreview(nav, c.preview, c.fixedPrefix, c.selection);
      if nav.IsEmptyComposition() then Step(c, s, ServerReset)
      else if sel.None? || !SplitsRawInput(sel.value, c.rawInput) then Step(c, s, Skipped)
      else
        var kind := DisplayOverride(env.render, c.preview, c.fixedPrefix, c.rawInput, c.rawHiragana);
        var rebuilt := Rebuild(env, FirstClause(c, nav, sel.value), s);
        if rebuilt.None? then Failed
        else
          var ready := if kind.Some? then WithOverride(env.render, rebuilt.value.0, kind.value) else rebuilt.value.0;
          Step(WithSyncedSuffix(ready), rebuilt.value.1, Applied(true))
  }

  /* ----- editing the current clause ----- */

  /** The split group a boundary edit belongs to, if one is under way. */
  function OpenGroup(c: Client): Option<nat> {
    var top := Last(c.future);
    if c.mark.group.Some? then c.mark.group
    else if top.Some? && (top.value.conservative || top.value.mark.leftNeighbor) then top.value.mark.group
    else None
  }

  predicate InGroup(future: seq<FutureSnapshot>, group: nat) {
    exists i :: 0 <= i < |future| && future[i].mark.group == Some(group)
  }

  /** The clause now ends where `s` does, and the cache is split to match. */
  function Resized(c: Client, s: Selection, allow: bool, group: nat): Client {
    Chosen(c, s).(future := SplitFuture(c.future, c.rawInput, s.hiragana, s.count, s.subText, allow, Some(group)))
  }

  /** The clause stays in the split group while a clause of that group is left of it or cached. */
  function Marked(c: Client, group: nat): Client {
    var derived := c.mark.leftNeighbor || InGroup(c.future, group);
    c.(mark := SplitMark(derived, false, c.mark.leftNeighbor, if derived then Some(group) else None))
  }

  function BoundaryEdited(c: Client, s: Selection): Client {
    var open := OpenGroup(c);
    var group := open.GetOr(c.nextGroup);
    var allow := c.future == [] && c.passed != [] && RawSuffix(s.hiragana, s.count) == "";
    var numbered := c.(nextGroup := if open.Some? then c.nextGroup else c.nextGroup + 1);
    Marked(Resized(numbered, s, allow, group), group)
  }

  function ApplyBoundarySelection(c: Client, s: Selection): Client {
    WithSyncedSnapshots(WithSyncedSuffix(BoundaryEdited(c, s)))
  }

  function AtBoundary(env: Env, c: Client, s: ServerState, direction: int, fallback: Candidates): Step {
    var boundary := env.prefix(s.text);
    var selected := SplitLeftCandidate(fallback, c.count);
    if boundary.texts != [] then
      Step(ApplyBoundarySelection(c.(candidates := boundary), SelectCandidate(boundary, 0).value), s, Applied(true))
    else if direction >= 0 then Step(c, s, Skipped)
    else if selected.Some? then
      Step(ApplyBoundarySelection(c.(candidates := fallback), selected.value), MoveWithin(env, s, 1), Applied(true))
    else Step(c, MoveWithin(env, s, 1), Skipped)
  }

  function AdjustBoundary(env: Env, c: Client, s: ServerState, direction: int): Step {
    if direction == 0 then Step(c, s, Skipped)
    else
      var steered := if c.suffix != "" || c.future != []
                     then Steer(env, c.candidates, s, c.rawHiragana, c.suffix, c.count)
                     else Reply(c.candidates, s);
      var moved := MoveRpc(env, steered.server, direction);
      if moved.None? then Failed
      else AtBoundary(env, c.(candidates := steered.candidates), moved.value.server, direction, c.candidates)
  }

  datatype SetSelectionType = Up | Down | Number(index: int)

  /** Another candidate of the same clause. */
  function Chosen(c: Client, s: Selection): Client {
    c.(selection := s.index, count := s.count, preview := Merge(c.fixedPrefix, s.text), rawHiragana := s.hiragana)
  }

  function SetSelection(c: Client, kind: SetSelectionType): (Client, Effect) {
    var desired := match kind
      case Up => c.selection - 1
      case Down => c.selection + 1
      case Number(i) => i;
    var s := SelectCandidate(c.candidates, desired);
    if s.None? then (c, Skipped)
    else (WithSyncedSnapshots(WithSyncedSuffix(Chosen(c, s.value))), Applied(false))
  }

  /* ----- commands ----- */

  /** The commands for committing are left to the caller. */
  datatype Command =
    | StartClauseNavigation | GoLeft | GoRight | GoToLast | MoveBoundary(direction: int)
    | Choose(selection: SetSelectionType) | Commit

  function Transition(env: Env, c: Client, s: ServerState, command: Command): Step
    requires env.Contract()
  {
    match command
    case StartClauseNavigation => StartNavigation(env, c, s)
    case GoLeft => MoveLeft(c, s)
    case GoRight => MoveRight(env, c, s)
    case GoToLast => MoveToLast(env, c, s)
    case MoveBoundary(direction) => AdjustBoundary(env, c, s, direction)
    case Choose(selection) => var r := SetSelection(c, selection); Step(r.0, s, r.1)
    case Commit => Step(c, s, Skipped)
  }
}
