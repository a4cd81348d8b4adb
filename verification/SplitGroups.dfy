/** Many boundary edits in a row: however often the boundary of one clause is moved, at most one clause is added to
    those cached, and the clause and what was split off it belong to one split group. */
module SplitGroups {
  import opened Text
  import opened DelayedN
  import opened Clauses
  import opened FutureCache
  import opened ConversionServer
  import opened ClauseTransitions
  import opened Boundaries

  /* ----- at most one clause is added ----- */

  /** A lower part of `base`, or such a part with one clause that a split has made on top. */
  ghost predicate OneAhead(base: seq<FutureSnapshot>, f: seq<FutureSnapshot>) {
    f <= base || (f != [] && f[..|f| - 1] <= base && f[|f| - 1].conservative)
  }

  lemma TopStaysOne(base: seq<FutureSnapshot>, kept: seq<FutureSnapshot>, rawInputSuffix: string, reading: string,
                    group: Option<nat>)
    requires kept != [] && OneAhead(base, kept)
    ensures OneAhead(base, SplitTop(kept, rawInputSuffix, reading, group))
  {
    var rest := kept[..|kept| - 1];
    var after := SplitTop(kept, rawInputSuffix, reading, group);
    if !AbsorbsRemainder(kept, group) && |after| > |kept| {
      assert after[..|after| - 1] == kept;
    }
  }

  lemma LowerStaysOne(base: seq<FutureSnapshot>, f: seq<FutureSnapshot>, kept: seq<FutureSnapshot>)
    requires OneAhead(base, f) && kept <= f
    ensures OneAhead(base, kept)
  {
    if kept != f {
      assert kept <= f[..|f| - 1];
    }
  }

  lemma SplitStaysOne(base: seq<FutureSnapshot>, f: seq<FutureSnapshot>, rawInput: string, rawHiragana: string,
                      count: int, hint: string, allow: bool, group: Option<nat>)
    requires OneAhead(base, f)
    ensures OneAhead(base, SplitFuture(f, rawInput, rawHiragana, count, hint, allow, group))
  {
    var rawInputSuffix := RawInputSuffix(rawInput, count);
    var first := SplitReading(f, rawInputSuffix, rawHiragana, count, hint, allow);
    if first != "" && f != [] {
      var kept := TrimStale(f, first);
      LowerStaysOne(base, f, kept);
      if kept != [] {
        TopStaysOne(base, kept, rawInputSuffix, RefinedReading(first, hint, kept[|kept| - 1]), group);
      }
    }
  }

  lemma SelectionStaysOne(base: seq<FutureSnapshot>, c: Client, sel: Selection)
    requires OneAhead(base, c.future)
    ensures OneAhead(base, ApplyBoundarySelection(c, sel).future)
  {
    AppliedSplits(c, sel);
    SplitStaysOne(base, c.future, c.rawInput, sel.hiragana, sel.count, sel.subText,
                  c.future == [] && c.passed != [] && RawSuffix(sel.hiragana, sel.count) == "",
                  Some(OpenGroup(c).GetOr(c.nextGroup)));
  }

  lemma EditStaysOne(base: seq<FutureSnapshot>, env: Env, c: Client, s: ServerState, direction: int)
    requires OneAhead(base, c.future)
    ensures var m := AdjustBoundary(env, c, s, direction); m.Step? ==> OneAhead(base, m.client.future)
  {
    var steered := AtEnd(env, c, s);
    var moved := MoveRpc(env, steered.server, direction);
    if direction != 0 && moved.Some? {
      var boundary := env.prefix(moved.value.server.text);
      var selected := SplitLeftCandidate(c.candidates, c.count);
      if boundary.texts != [] {
        SelectionStaysOne(base, c.(candidates := boundary), SelectCandidate(boundary, 0).value);
      } else if direction < 0 && selected.Some? {
        SelectionStaysOne(base, c.(candidates := c.candidates), selected.value);
      }
    }
  }

  /** The boundary is moved once for each direction in turn. */
  function Edits(env: Env, c: Client, s: ServerState, directions: seq<int>): Step
    decreases |directions|
  {
    if directions == [] then Step(c, s, Skipped)
    else
      var m := AdjustBoundary(env, c, s, directions[0]);
      if m.Failed? then m else Edits(env, m.client, m.server, directions[1..])
  }

  lemma {:induction false} EditsStayOne(base: seq<FutureSnapshot>, env: Env, c: Client, s: ServerState,
                                        directions: seq<int>)
    requires OneAhead(base, c.future)
    ensures var m := Edits(env, c, s, directions); m.Step? ==> OneAhead(base, m.client.future)
    decreases |directions|
  {
    if directions != [] {
      EditStaysOne(base, env, c, s, directions[0]);
      var m := AdjustBoundary(env, c, s, directions[0]);
      if m.Step? {
        EditsStayOne(base, env, m.client, m.server, directions[1..]);
      }
    }
  }

  /** However often the boundary is moved, back and forth: the cache is a lower part of what it was, with at most one
      clause more on top. */
  lemma EditsAddOne(env: Env, c: Client, s: ServerState, directions: seq<int>)
    ensures var m := Edits(env, c, s, directions);
            m.Step? ==>
              var f := m.client.future;
              |f| <= |c.future| + 1 && (f <= c.future || f[..|f| - 1] <= c.future)
  {
    EditsStayOne(c.future, env, c, s, directions);
  }

  /* ----- what a top clause takes in ----- */

  /** The top takes in what the edit leaves: it was itself made by a split, or an edit of this very group left it
      with another clause behind it. */
  ghost predicate TakesIn(future: seq<FutureSnapshot>, group: Option<nat>)
    requires future != []
  {
    var top := future[|future| - 1];
    top.conservative || (top.mark.remainder && top.mark.group == group && |future| >= 2)
  }

  /** The clause `top` made anew over `below`: it reads `reading`, was typed as `input`, and what is shown behind it is
      what was shown behind the old one.  It stands for the inputs, and shows the kana, in front of the clause below. */
  ghost predicate Remade(p: FutureSnapshot, top: FutureSnapshot, below: Option<FutureSnapshot>, input: string,
                         reading: string)
  {
    && p.conservative && p.rawHiragana == reading && p.rawInput == input && p.suffix == top.suffix
    && p.selectedText == p.clausePreview && p.selectedSubText == p.suffix
    && p.candidates == Candidates([p.clausePreview], [p.suffix], reading, [p.count])
    && match below
       case None => p.clausePreview == reading && p.count == |input|
       case Some(f) =>
         && (EndsWith(reading, f.rawHiragana) ==> p.clausePreview + f.rawHiragana == reading)
         && (EndsWith(input, f.rawInput) ==> p.count == |input| - |f.rawInput|)
  }

  /** No clause more or less: the top is made anew and nothing below it is touched. */
  ghost predicate RemadeOn(after: seq<FutureSnapshot>, future: seq<FutureSnapshot>, input: string, reading: string)
    requires future != []
  {
    var rest := future[..|future| - 1];
    && |after| == |future| && after[..|future| - 1] == rest
    && Remade(after[|future| - 1], future[|future| - 1], Last(rest), input, reading)
  }

  lemma RemainderRemade(top: FutureSnapshot, below: Option<FutureSnapshot>, input: string, reading: string,
                        mark: SplitMark)
    ensures Remade(Remainder(top, below, input, reading, mark), top, below, input, reading)
  {
  }

  lemma TopTakesIn(future: seq<FutureSnapshot>, input: string, reading: string, group: Option<nat>)
    requires future != [] && TakesIn(future, group)
    ensures var after := SplitTop(future, input, reading, group);
            RemadeOn(after, future, input, reading) && after[|future| - 1].mark.group == group
  {
    assert AbsorbsRemainder(future, group);
    var top, rest := future[|future| - 1], future[..|future| - 1];
    RemainderRemade(top, Last(rest), input, reading, SplitMark(!top.conservative || group.Some?, true, true, group));
  }

  /** Then no clause is added: the top is made anew. */
  lemma SplitTakesIn(future: seq<FutureSnapshot>, rawInput: string, rawHiragana: string, count: int, hint: string,
                     allow: bool, group: Option<nat>, reading: string)
    requires future != [] && TakesIn(future, group) && NotTyped(future, RawInputSuffix(rawInput, count))
    requires reading != "" && EndsWith(rawHiragana, reading) && Hints(hint, reading, future)
    requires EndsWith(reading, future[|future| - 1].rawHiragana)
    ensures var after := SplitFuture(future, rawInput, rawHiragana, count, hint, allow, group);
            RemadeOn(after, future, RawInputSuffix(rawInput, count), reading) && after[|future| - 1].mark.group == group
  {
    WholeKept(future, rawInput, rawHiragana, count, hint, allow, group, reading);
    TopTakesIn(future, RawInputSuffix(rawInput, count), reading, group);
  }

  /** The edit offers a remainder that is understood as `reading` and ends in the next clause's. */
  ghost predicate Leaves(env: Env, c: Client, s: ServerState, direction: int, reading: string) {
    var b := env.prefix(NextText(env, c, s, direction));
    && b.texts != [] && c.future != [] && reading != "" && EndsWith(reading, c.future[|c.future| - 1].rawHiragana)
    && EndsWith(b.hiragana, reading) && Hints(At(b.subTexts, 0, ""), reading, c.future)
    && NotTyped(c.future, RawInputSuffix(c.rawInput, FirstCount(b)))
  }

  /** The raw input behind the new boundary. */
  function InputBehind(env: Env, c: Client, s: ServerState, direction: int): string {
    RawInputSuffix(c.rawInput, FirstCount(env.prefix(NextText(env, c, s, direction))))
  }

  lemma SplitIsTop(c: Client, b: Candidates, reading: string, allow: bool, group: Option<nat>)
    requires c.future != [] && reading != "" && EndsWith(reading, c.future[|c.future| - 1].rawHiragana)
    requires EndsWith(b.hiragana, reading) && Hints(At(b.subTexts, 0, ""), reading, c.future)
    requires NotTyped(c.future, RawInputSuffix(c.rawInput, FirstCount(b)))
    ensures SplitFuture(c.future, c.rawInput, b.hiragana, FirstCount(b), At(b.subTexts, 0, ""), allow, group)
         == SplitTop(c.future, RawInputSuffix(c.rawInput, FirstCount(b)), reading, group)
  {
    WholeKept(c.future, c.rawInput, b.hiragana, FirstCount(b), At(b.subTexts, 0, ""), allow, group, reading);
  }

  lemma EditSplitsTop(env: Env, c: Client, s: ServerState, direction: int, reading: string)
    requires (direction == 1 || direction == -1) && Leaves(env, c, s, direction, reading)
    ensures var m := AdjustBoundary(env, c, s, direction);
            && m.Step? && m.client.future == SplitTop(c.future, InputBehind(env, c, s, direction), reading,
                                                      Some(OpenGroup(c).GetOr(c.nextGroup)))
  {
    var b := env.prefix(NextText(env, c, s, direction));
    EditSplits(env, c, s, direction);
    var allow := c.future == [] && c.passed != [] && RawSuffix(b.hiragana, FirstCount(b)) == "";
    SplitIsTop(c, b, reading, allow, Some(OpenGroup(c).GetOr(c.nextGroup)));
  }

  /** And so for the edit itself: a split-off clause next in the cache grows or shrinks with the boundary. */
  lemma EditTakesIn(env: Env, c: Client, s: ServerState, direction: int, reading: string)
    requires (direction == 1 || direction == -1) && Leaves(env, c, s, direction, reading)
    requires TakesIn(c.future, Some(OpenGroup(c).GetOr(c.nextGroup)))
    ensures var m := AdjustBoundary(env, c, s, direction);
            m.Step? && RemadeOn(m.client.future, c.future, InputBehind(env, c, s, direction), reading)
  {
    EditSplitsTop(env, c, s, direction, reading);
    TopTakesIn(c.future, InputBehind(env, c, s, direction), reading, Some(OpenGroup(c).GetOr(c.nextGroup)));
  }

  /* ----- groups ----- */

  ghost predicate HoldsGroup(future: seq<FutureSnapshot>, group: nat) {
    exists f :: f in future && f.mark.group == Some(group)
  }

  /** A clause that was not cached before, or was made anew. */
  ghost predicate NewOnTop(after: seq<FutureSnapshot>, before: seq<FutureSnapshot>) {
    after != [] && !(after <= before)
  }

  /** The edit belongs to `group`: a clause it puts on the cache does, and the edited clause does while a clause to its
      left or one cached belongs to a split. */
  ghost predicate InGroupOf(m: Client, c: Client, group: nat) {
    && (NewOnTop(m.future, c.future) ==> m.future[|m.future| - 1].mark == SplitMark(true, true, true, Some(group)))
    && m.mark.group == (if c.mark.leftNeighbor || HoldsGroup(m.future, group) then Some(group) else None)
    && (m.mark.derived <==> m.mark.group.Some?) && m.mark.leftNeighbor == c.mark.leftNeighbor && !m.mark.remainder
  }

  lemma TopMarked(kept: seq<FutureSnapshot>, rawInputSuffix: string, reading: string, group: nat)
    requires kept != []
    ensures var after := SplitTop(kept, rawInputSuffix, reading, Some(group));
            after == kept || (after != [] && after[|after| - 1].mark == SplitMark(true, true, true, Some(group)))
  {
  }

  lemma SplitMarked(future: seq<FutureSnapshot>, rawInput: string, rawHiragana: string, count: int, hint: string,
                    allow: bool, group: nat)
    ensures var after := SplitFuture(future, rawInput, rawHiragana, count, hint, allow, Some(group));
            NewOnTop(after, future) ==> after[|after| - 1].mark == SplitMark(true, true, true, Some(group))
  {
    var rawInputSuffix := RawInputSuffix(rawInput, count);
    var first := SplitReading(future, rawInputSuffix, rawHiragana, count, hint, allow);
    if first != "" && future != [] {
      var kept := TrimStale(future, first);
      if kept != [] {
        TopMarked(kept, rawInputSuffix, RefinedReading(first, hint, kept[|kept| - 1]), group);
      }
    }
  }

  lemma GroupHeld(future: seq<FutureSnapshot>, group: nat)
    ensures InGroup(future, group) <==> HoldsGroup(future, group)
  {
    if InGroup(future, group) {
      var i :| 0 <= i < |future| && future[i].mark.group == Some(group);
      assert future[i] in future;
    }
  }

  /** The group a clause is in, or else that of a split-off clause next to it. */
  function GroupAt(c: Client): Option<nat> {
    if c.mark.group.Some? then c.mark.group
    else if c.future == [] then None
    else
      var top := c.future[|c.future| - 1];
      if top.conservative || top.mark.leftNeighbor then top.mark.group else None
  }

  /** An edit goes on with the group under way, and takes the next number only when there is none. */
  lemma EditGroups(c: Client, sel: Selection)
    ensures var m := ApplyBoundarySelection(c, sel);
            && InGroupOf(m, c, GroupAt(c).GetOr(c.nextGroup))
            && m.nextGroup == if GroupAt(c).Some? then c.nextGroup else c.nextGroup + 1
  {
    var group := OpenGroup(c).GetOr(c.nextGroup);
    assert OpenGroup(c) == GroupAt(c);
    AppliedMarks(c, sel, group);
    FutureMarked(c, sel, group);
    MarkedInGroup(ApplyBoundarySelection(c, sel), c, group);
  }

  lemma FutureMarked(c: Client, sel: Selection, group: nat)
    requires group == OpenGroup(c).GetOr(c.nextGroup)
    ensures var m := ApplyBoundarySelection(c, sel);
            NewOnTop(m.future, c.future) ==> m.future[|m.future| - 1].mark == SplitMark(true, true, true, Some(group))
  {
    AppliedSplits(c, sel);
    SplitMarked(c.future, c.rawInput, sel.hiragana, sel.count, sel.subText,
                c.future == [] && c.passed != [] && RawSuffix(sel.hiragana, sel.count) == "", group);
  }

  lemma AppliedMarks(c: Client, sel: Selection, group: nat)
    requires group == OpenGroup(c).GetOr(c.nextGroup)
    ensures var m := ApplyBoundarySelection(c, sel);
            var derived := c.mark.leftNeighbor || InGroup(m.future, group);
            && m.mark == SplitMark(derived, false, c.mark.leftNeighbor, if derived then Some(group) else None)
            && m.nextGroup == if OpenGroup(c).Some? then c.nextGroup else c.nextGroup + 1
  {
  }

  lemma MarkedInGroup(m: Client, c: Client, group: nat)
    requires var derived := c.mark.leftNeighbor || InGroup(m.future, group);
             m.mark == SplitMark(derived, false, c.mark.leftNeighbor, if derived then Some(group) else None)
    requires NewOnTop(m.future, c.future) ==> m.future[|m.future| - 1].mark == SplitMark(true, true, true, Some(group))
    ensures InGroupOf(m, c, group)
  {
    GroupHeld(m.future, group);
  }

  /** When an edit puts a clause on the cache, both halves are in one group, and any further edit of the clause, to
      whatever candidate, goes on with that group without taking a number. */
  lemma HalvesShareGroup(c: Client, sel: Selection, again: Candidates, next: Selection)
    requires NewOnTop(ApplyBoundarySelection(c, sel).future, c.future)
    ensures var m := ApplyBoundarySelection(c, sel);
            var n := ApplyBoundarySelection(m.(candidates := again), next);
            && m.mark.group.Some? && m.mark.derived && m.future[|m.future| - 1].mark.group == m.mark.group
            && InGroupOf(n, m, m.mark.group.value) && n.nextGroup == m.nextGroup
  {
    var m := ApplyBoundarySelection(c, sel);
    EditGroups(c, sel);
    assert m.future[|m.future| - 1] in m.future;
    EditGroups(m.(candidates := again), next);
  }

  /** The edit goes on with the group under way or takes the next number, and a clause it puts on the cache shares the
      group with the edited one. */
  ghost predicate GroupKept(m: Client, c: Client) {
    && InGroupOf(m, c, GroupAt(c).GetOr(c.nextGroup))
    && m.nextGroup == (if GroupAt(c).Some? then c.nextGroup else c.nextGroup + 1)
    && (NewOnTop(m.future, c.future) ==>
          m.mark.group.Some? && m.future[|m.future| - 1].mark.group == m.mark.group)
  }

  lemma SelectionKeepsGroup(c: Client, sel: Selection)
    ensures GroupKept(ApplyBoundarySelection(c, sel), c)
  {
    var m := ApplyBoundarySelection(c, sel);
    EditGroups(c, sel);
    if NewOnTop(m.future, c.future) {
      assert m.future[|m.future| - 1] in m.future;
    }
  }

  lemma SameGroups(m: Client, c: Client, d: Client)
    requires d.mark == c.mark && d.future == c.future && d.nextGroup == c.nextGroup && GroupKept(m, d)
    ensures GroupKept(m, c)
  {
    assert GroupAt(c) == GroupAt(d);
  }

  /** So it is for the edits themselves. */
  lemma EditKeepsGroup(env: Env, c: Client, s: ServerState, direction: int)
    requires direction == 1 || direction == -1
    requires env.prefix(NextText(env, c, s, direction)).texts != []
    ensures var m := AdjustBoundary(env, c, s, direction); m.Step? && GroupKept(m.client, c)
  {
    var b := env.prefix(NextText(env, c, s, direction));
    EditApplies(env, c, s, direction);
    SelectionKeepsGroup(c.(candidates := b), SelectCandidate(b, 0).value);
    SameGroups(AdjustBoundary(env, c, s, direction).client, c, c.(candidates := b));
  }
}
