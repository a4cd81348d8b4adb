/** Which boundary an edit gives the clause: the one the server offers one cursor step further, longer to the
    right and shorter to the left, undone by the opposite edit; and what then becomes of the clauses ahead. */
module Boundaries {
  import opened Text
  import opened DelayedN
  import opened Clauses
  import opened FutureCache
  import opened ConversionServer
  import opened ClauseTransitions

  function Shifted(env: Env, t: ComposingText, offset: int): ComposingText {
    t.(cursor := env.moved(t, offset))
  }

  /** The server's answer with its cursor brought to the end of the clause. */
  function AtEnd(env: Env, c: Client, s: ServerState): Reply {
    if c.suffix != "" || c.future != [] then Steer(env, c.candidates, s, c.rawHiragana, c.suffix, c.count)
    else Reply(c.candidates, s)
  }

  /** The text offered one step further. */
  function NextText(env: Env, c: Client, s: ServerState, direction: int): ComposingText {
    Shifted(env, AtEnd(env, c, s).server.text, direction)
  }

  /** The inputs the first candidate stands for. */
  function FirstCount(c: Candidates): int {
    At(c.counts, 0, 0)
  }

  /** The clause is the first candidate of `b`, put behind what was passed before. */
  ghost predicate Takes(m: Client, c: Client, b: Candidates)
    requires b.texts != []
  {
    && m.candidates.texts == b.texts && m.candidates.counts == b.counts && m.candidates.hiragana == b.hiragana
    && m.selection == 0 && m.count == FirstCount(b) && m.rawHiragana == b.hiragana
    && m.fixedPrefix == c.fixedPrefix && m.preview == c.fixedPrefix + b.texts[0] && m.rawInput == c.rawInput
  }

  lemma AppliedTakes(c: Client, b: Candidates)
    requires b.texts != [] && c.candidates == b
    ensures Takes(ApplyBoundarySelection(c, SelectCandidate(b, 0).value), c, b)
  {
    MergePreview(c.fixedPrefix, b.texts[0]);
  }

  /** The clause is the given candidate of those it had. */
  ghost predicate TakesShorter(m: Client, c: Client, sel: Selection) {
    && m.candidates.texts == c.candidates.texts && m.candidates.counts == c.candidates.counts
    && m.candidates.hiragana == c.candidates.hiragana && m.selection == sel.index && m.count == sel.count
    && m.rawHiragana == sel.hiragana && m.fixedPrefix == c.fixedPrefix && m.preview == c.fixedPrefix + sel.text
    && m.rawInput == c.rawInput
  }

  lemma AppliedTakesShorter(c: Client, sel: Selection)
    ensures TakesShorter(ApplyBoundarySelection(c, sel), c, sel)
  {
    MergePreview(c.fixedPrefix, sel.text);
  }

  /** The edit moves the cursor one step in its direction and takes the clause offered there.  With nothing
      offered a step right leaves the clause alone; a step left puts the cursor back and takes the longest shorter
      candidate there was. */
  lemma EditTakesBoundary(env: Env, c: Client, s: ServerState, direction: int)
    requires direction == 1 || direction == -1
    ensures var at, b := NextText(env, c, s, direction), env.prefix(NextText(env, c, s, direction));
            var m := AdjustBoundary(env, c, s, direction);
            && m.Step?
            && (b.texts != [] ==> m.effect == Applied(true) && m.server.text == at && Takes(m.client, c, b))
            && (b.texts == [] && direction == 1 ==>
                  (m.effect == Skipped && m.server.text == at
                   && m.client == c.(candidates := AtEnd(env, c, s).candidates)))
            && (b.texts == [] && direction == -1 ==>
                  (m.server.text == Shifted(env, at, 1)
                   && (m.effect == Skipped <==> SplitLeftCandidate(c.candidates, c.count).None?)
                   && (m.effect != Skipped ==>
                         TakesShorter(m.client, c, SplitLeftCandidate(c.candidates, c.count).value))
                   && (m.effect == Skipped ==> m.client == c.(candidates := AtEnd(env, c, s).candidates))))
  {
    var steered := AtEnd(env, c, s);
    var b := env.prefix(NextText(env, c, s, direction));
    if b.texts != [] {
      AppliedTakes(c.(candidates := b), b);
    } else if direction == -1 && SplitLeftCandidate(c.candidates, c.count).Some? {
      assert c.(candidates := c.candidates) == c;
      AppliedTakesShorter(c, SplitLeftCandidate(c.candidates, c.count).value);
    }
  }

  /* ----- longer and shorter ----- */

  /** Further right the first candidate stands for more inputs. */
  ghost predicate LongerFurther(env: Env) {
    forall t: ComposingText, i: int {:trigger env.prefix(t.(cursor := i))} ::
      i > t.cursor && env.prefix(t).texts != [] && env.prefix(t.(cursor := i)).texts != [] ==>
        FirstCount(env.prefix(t)) < FirstCount(env.prefix(t.(cursor := i)))
  }

  /** With the cursor at the end of the clause, an edit to the right gives a longer clause and one to the left a
      shorter one, whenever the cursor can move that way and something is offered there. */
  lemma EditLengthens(env: Env, c: Client, s: ServerState, direction: int)
    requires LongerFurther(env) && (direction == 1 || direction == -1)
    requires var t := AtEnd(env, c, s).server.text;
             && env.prefix(t).texts != [] && FirstCount(env.prefix(t)) == c.count
             && env.prefix(NextText(env, c, s, direction)).texts != []
    ensures var t := AtEnd(env, c, s).server.text;
            var m := AdjustBoundary(env, c, s, direction);
            && m.Step?
            && (env.moved(t, direction) > t.cursor ==> m.client.count > c.count)
            && (env.moved(t, direction) < t.cursor ==> m.client.count < c.count)
  {
    EditTakesBoundary(env, c, s, direction);
    var t := AtEnd(env, c, s).server.text;
    var at := NextText(env, c, s, direction);
    assert at == t.(cursor := at.cursor) && t == at.(cursor := t.cursor);
  }

  /* ----- undone ----- */

  /** The cursor stays where an edit has left it. */
  lemma EditSettled(env: Env, c: Client, s: ServerState, b: Candidates, before: Client)
    requires b.texts != [] && Takes(c, before, b)
    ensures AtEnd(env, c, s) == Reply(c.candidates, s)
  {
    assert Settled(c.candidates, c.rawHiragana, c.suffix, c.count);
  }

  lemma EditBack(env: Env, c: Client, s: ServerState, t: ComposingText, b: Candidates, before: Client, back: int)
    requires b.texts != [] && Takes(c, before, b) && (back == 1 || back == -1)
    requires s.text.input == t.input && env.moved(s.text, back) == t.cursor && env.prefix(t).texts != []
    ensures var n := AdjustBoundary(env, c, s, back);
            n.Step? && n.server.text == t && Takes(n.client, c, env.prefix(t))
  {
    EditSettled(env, c, s, b, before);
    assert NextText(env, c, s, back) == t;
    EditTakesBoundary(env, c, s, back);
  }

  /** An edit and the opposite one: the cursor is back, and the clause is the one first offered there; its count,
      text and reading are what they were when it was that clause before. */
  lemma EditUndone(env: Env, c: Client, s: ServerState, direction: int)
    requires direction == 1 || direction == -1
    requires var t, at := AtEnd(env, c, s).server.text, NextText(env, c, s, direction);
             && env.prefix(at).texts != [] && env.prefix(t).texts != [] && env.moved(at, -direction) == t.cursor
    ensures var t := AtEnd(env, c, s).server.text;
            var m := AdjustBoundary(env, c, s, direction);
            var n := AdjustBoundary(env, m.client, m.server, -direction);
            && n.Step? && n.server.text == t && Takes(n.client, c, env.prefix(t))
            && (c.count == FirstCount(env.prefix(t)) && c.preview == c.fixedPrefix + env.prefix(t).texts[0]
                && c.rawHiragana == env.prefix(t).hiragana ==>
                (n.client.count == c.count && n.client.preview == c.preview && n.client.rawHiragana == c.rawHiragana))
  {
    EditTakesBoundary(env, c, s, direction);
    var m := AdjustBoundary(env, c, s, direction);
    var t, at := AtEnd(env, c, s).server.text, NextText(env, c, s, direction);
    EditBack(env, m.client, m.server, t, env.prefix(at), c, -direction);
  }

  /* ----- the clauses ahead ----- */

  lemma AppliedSplits(c: Client, sel: Selection)
    ensures ApplyBoundarySelection(c, sel).future
         == SplitFuture(c.future, c.rawInput, sel.hiragana, sel.count, sel.subText,
                        c.future == [] && c.passed != [] && RawSuffix(sel.hiragana, sel.count) == "",
                        Some(OpenGroup(c).GetOr(c.nextGroup)))
  {
  }

  lemma AtBoundaryApplies(env: Env, c: Client, s: ServerState, direction: int, fallback: Candidates)
    requires env.prefix(s.text).texts != []
    ensures var b := env.prefix(s.text);
            AtBoundary(env, c, s, direction, fallback)
              == Step(ApplyBoundarySelection(c.(candidates := b), SelectCandidate(b, 0).value), s, Applied(true))
  {
  }

  lemma EditMoves(env: Env, c: Client, s: ServerState, direction: int)
    requires direction == 1 || direction == -1
    ensures var moved := AtEnd(env, c, s).server.(text := NextText(env, c, s, direction));
            AdjustBoundary(env, c, s, direction)
              == AtBoundary(env, c.(candidates := AtEnd(env, c, s).candidates), moved, direction, c.candidates)
  {
  }

  lemma EditApplies(env: Env, c: Client, s: ServerState, direction: int)
    requires direction == 1 || direction == -1
    requires env.prefix(NextText(env, c, s, direction)).texts != []
    ensures var b := env.prefix(NextText(env, c, s, direction));
            var m := AdjustBoundary(env, c, s, direction);
            m.Step? && m.client == ApplyBoundarySelection(c.(candidates := b), SelectCandidate(b, 0).value)
  {
    var at := AtEnd(env, c, s);
    EditMoves(env, c, s, direction);
    AtBoundaryApplies(env, c.(candidates := at.candidates), at.server.(text := NextText(env, c, s, direction)),
                      direction,
                      c.candidates);
  }

  /** The cache is split at the new boundary. */
  lemma EditSplits(env: Env, c: Client, s: ServerState, direction: int)
    requires direction == 1 || direction == -1
    requires env.prefix(NextText(env, c, s, direction)).texts != []
    ensures var b := env.prefix(NextText(env, c, s, direction));
            var m := AdjustBoundary(env, c, s, direction);
            var allow := c.future == [] && c.passed != [] && RawSuffix(b.hiragana, FirstCount(b)) == "";
            m.Step? && m.client.future
              == SplitFuture(c.future, c.rawInput, b.hiragana, FirstCount(b), At(b.subTexts, 0, ""), allow,
                             Some(OpenGroup(c).GetOr(c.nextGroup)))
  {
    var b := env.prefix(NextText(env, c, s, direction));
    EditApplies(env, c, s, direction);
    AppliedSplits(c.(candidates := b), SelectCandidate(b, 0).value);
  }

  /** The clauses ahead are kept as far as they fit the new boundary, and the shares of what is left are the
      reading behind it. */
  lemma EditSharesReading(env: Env, c: Client, s: ServerState, direction: int, reading: string,
                          kept: seq<FutureSnapshot>)
    requires direction == 1 || direction == -1
    requires c.future != [] && Chained(c.future) && reading != "" && LongestFit(kept, c.future, reading)
    requires var b := env.prefix(NextText(env, c, s, direction));
             && b.texts != [] && EndsWith(b.hiragana, reading) && Hints(At(b.subTexts, 0, ""), reading, c.future)
             && NotTyped(c.future, RawInputSuffix(c.rawInput, FirstCount(b)))
    ensures var m := AdjustBoundary(env, c, s, direction);
            m.Step? && KeptShares(m.client.future, kept, reading)
  {
    var b := env.prefix(NextText(env, c, s, direction));
    EditSplits(env, c, s, direction);
    SplitSharesReading(c.future, c.rawInput, b.hiragana, FirstCount(b), At(b.subTexts, 0, ""), false,
                       Some(OpenGroup(c).GetOr(c.nextGroup)), reading, kept);
  }

  /** With a real clause next, what an edit takes off the current clause becomes a clause in front of it, and the
      whole cache stays. */
  lemma EditSplitsInFront(env: Env, c: Client, s: ServerState, direction: int, head: string)
    requires direction == 1 || direction == -1
    requires c.future != [] && head != ""
    requires var b := env.prefix(NextText(env, c, s, direction));
             var top := c.future[|c.future| - 1];
             && b.texts != [] && !top.conservative && !top.mark.remainder
             && EndsWith(b.hiragana, head + top.rawHiragana)
             && Hints(At(b.subTexts, 0, ""), head + top.rawHiragana, c.future)
             && NotTyped(c.future, RawInputSuffix(c.rawInput, FirstCount(b)))
    ensures var m := AdjustBoundary(env, c, s, direction);
            m.Step? &&
            var after := m.client.future;
            var top := c.future[|c.future| - 1];
            && |after| == |c.future| + 1 && after[..|c.future|] == c.future
            && after[|c.future|].clausePreview == head && after[|c.future|].suffix == Display(top)
            && after[|c.future|].rawHiragana == head + top.rawHiragana
  {
    var b := env.prefix(NextText(env, c, s, direction));
    EditSplits(env, c, s, direction);
    SplitsInFront(c.future, c.rawInput, b.hiragana, FirstCount(b), At(b.subTexts, 0, ""), false,
                  Some(OpenGroup(c).GetOr(c.nextGroup)), head);
  }
}
