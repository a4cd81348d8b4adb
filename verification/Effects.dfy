/** What typing, deleting, committing and selecting leave behind: text on both sides, the clause on display and the
    boundaries, said without the steps that lead there. */
module Effects {
  import opened Text
  import opened DelayedN
  import opened Clauses
  import opened ConversionServer
  import opened ClauseTransitions
  import opened Actions
  import opened Interpreter

  /** The clause on display is candidate `k` of `r` behind the given prefix. */
  ghost predicate Shows(c: Client, prefix: string, r: Candidates, k: nat)
    requires k < |r.texts|
  {
    && c.candidates == r && c.selection == k && c.fixedPrefix == prefix && c.preview == prefix + r.texts[k]
    && c.suffix == At(r.subTexts, k, "") && c.count == At(r.counts, k, 0) && c.rawHiragana == r.hiragana
  }

  /** The candidate nearest to the one selected before. */
  predicate Nearest(r: Candidates, desired: int, k: nat)
    requires k < |r.texts|
  {
    forall i :: 0 <= i < |r.texts| ==> Distance(desired, k) <= Distance(desired, i)
  }

  /** No clause is passed or cached, and the server holds no saved text of one. */
  ghost predicate NoClauses(x: Session, was: Session) {
    && x.client.passed == [] && x.client.future == [] && x.client.mark == NO_SPLIT
    && x.server.snapshots == if was.client.passed == [] then was.server.snapshots else []
  }

  /** An open composition shows the clause on display and its remainder; what is committed has not changed. */
  ghost predicate ShownWhole(y: Session, x: Session) {
    y.document == x.document && y.shown == if x.tip then y.client.preview + y.client.suffix else x.shown
  }

  lemma AdoptedShows(c: Client, r: Candidates, desired: int, prefix: string)
    requires c.candidates == r && c.fixedPrefix == prefix && r.texts != []
    ensures var s := SelectCandidate(r, desired).value;
            Shows(Adopted(c, s, prefix), prefix, r, s.index) && Nearest(r, desired, s.index)
  {
    MergePreview(prefix, SelectCandidate(r, desired).value.text);
  }

  /* ----- typing ----- */

  /** Text typed into a composition that is there: both sides grow by it, clauses ahead and behind are given up, and
      the candidate nearest to the selected one is shown behind the same prefix. */
  lemma AppendShows(env: Env, x: Session, text: string, style: Style, sig: Signal)
    requires var typed := TextOf(env, x, x.client.rawInput, text, style);
             var r := env.full(env.inserted(x.server.text, typed, style == Direct));
             !Stale(ClearedCaches(x), typed, r, sig) && r.texts != []
    ensures var typed := TextOf(env, x, x.client.rawInput, text, style);
            var t := env.inserted(x.server.text, typed, style == Direct);
            var y := DoAppend(env, x, text, style, sig);
            && y.server.text == t && y.client.rawInput == x.client.rawInput + typed && NoClauses(y, x)
            && (exists k: nat :: k < |env.full(t).texts| && Shows(y.client, x.client.fixedPrefix, env.full(t), k)
                  && Nearest(env.full(t), x.client.selection, k))
            && y.tip == x.tip && y.phase == x.phase && (y.stray <==> x.stray || !x.tip) && ShownWhole(y, x)
  {
    var typed := TextOf(env, x, x.client.rawInput, text, style);
    var t := env.inserted(x.server.text, typed, style == Direct);
    var c := ClearedCaches(x).client.(rawInput := x.client.rawInput + typed, candidates := env.full(t));
    AdoptedShows(c, env.full(t), x.client.selection, x.client.fixedPrefix);
  }

  /** Resolved text typed in kana mode is what the symbol rules make of it behind the raw input; any other text is
      added to the raw input as it is. */
  lemma TypedRaw(env: Env, x: Session, text: string, style: Style, sig: Signal)
    requires var typed := if style.Resolved? && x.mode.Kana? then env.symbol(x.client.rawInput, text) else text;
             var r := env.full(env.inserted(x.server.text, typed, style == Direct));
             !Stale(ClearedCaches(x), typed, r, sig) && r.texts != []
    ensures var typed := if style.Resolved? && x.mode.Kana? then env.symbol(x.client.rawInput, text) else text;
            var y := DoAppend(env, x, text, style, sig);
            y.client.rawInput == x.client.rawInput + typed
            && y.server.text == env.inserted(x.server.text, typed, style == Direct)
  {
    AppendShows(env, x, text, style, sig);
  }

  lemma {:induction false} GreatestCount(counts: seq<int>)
    requires counts != []
    ensures MaxCount(counts) in counts && forall i :: 0 <= i < |counts| ==> counts[i] <= MaxCount(counts)
  {
    if |counts| > 1 {
      GreatestCount(counts[..|counts| - 1]);
    }
  }

  /** Anything at all is left of a composition. */
  ghost predicate Something(c: Client) {
    !(c.rawInput == "" && c.preview == "" && c.suffix == "" && c.fixedPrefix == "" && c.candidates.texts == []
      && c.candidates.subTexts == [] && c.candidates.hiragana == "" && c.candidates.counts == [])
  }

  /** A composition counts as gone when another session was seen while anything was left of one, or when text was
      appended to a composition that has some and no candidate of the answer covers more than the appended text, and one
      at least covers something. */
  lemma StaleMeaning(x: Session, typed: string, r: Candidates, sig: Signal)
    ensures Stale(x, typed, r, sig) <==>
              || (sig.before && Something(x.client))
              || (&& x.client.rawInput != "" && !x.client.candidates.IsEmptyComposition() && !r.IsEmptyComposition()
                  && typed != "" && (exists i :: 0 <= i < |r.counts| && r.counts[i] > 0)
                  && forall i :: 0 <= i < |r.counts| ==> r.counts[i] <= |typed|)
  {
    if r.counts != [] {
      GreatestCount(r.counts);
    }
  }

  /** Text typed into a composition that is gone starts a new one with nothing in it but that text. */
  lemma StaleAppendShows(env: Env, x: Session, text: string, style: Style, sig: Signal)
    requires var typed := TextOf(env, x, x.client.rawInput, text, style);
             var r := env.full(env.inserted(x.server.text, typed, style == Direct));
             Stale(ClearedCaches(x), typed, r, sig) && r.texts != []
    ensures var typed := TextOf(env, x, x.client.rawInput, text, style);
            var t := env.inserted(x.server.text, typed, style == Direct);
            var y := DoAppend(env, x, text, style, sig);
            && y.server.text == t && y.client.rawInput == typed && NoClauses(y, x)
            && Shows(y.client, "", env.full(t), 0) && y.tip && y.phase == Composing && y.stray == x.stray
            && y.document == x.document && y.shown == y.client.preview + y.client.suffix
  {
    var typed := TextOf(env, x, x.client.rawInput, text, style);
    var t := env.inserted(x.server.text, typed, style == Direct);
    assert "" + typed == typed;
    var c := EMPTY_CLIENT.(rawInput := typed, candidates := env.full(t));
    AdoptedShows(c, env.full(t), 0, "");
  }

  /* ----- deleting ----- */

  /** A deletion takes one raw character and whatever the server deletes. */
  lemma RemoveShows(env: Env, x: Session, sig: Signal)
    requires !sig.before && !sig.after && env.full(env.deleted(x.server.text)).texts != []
    ensures var t := env.deleted(x.server.text);
            var y := DoRemove(env, x, sig);
            && y.server.text == t && NoClauses(y, x)
            && (x.client.rawInput != "" ==>
                  y.client.rawInput + [x.client.rawInput[|x.client.rawInput| - 1]] == x.client.rawInput)
            && (exists k: nat :: k < |env.full(t).texts| && Shows(y.client, x.client.fixedPrefix, env.full(t), k)
                  && Nearest(env.full(t), x.client.selection, k))
            && y.tip == x.tip && y.phase == x.phase && ShownWhole(y, x)
  {
    var t := env.deleted(x.server.text);
    var c := Removing(env, ClearedCaches(x)).client;
    AdoptedShows(c, env.full(t), x.client.selection, x.client.fixedPrefix);
  }

  /** With nothing left the composition is closed on the prefix committed so far and everything is forgotten. */
  lemma RemoveCloses(env: Env, x: Session, sig: Signal)
    requires !sig.before && !sig.after && env.full(env.deleted(x.server.text)).texts == []
    ensures var y := DoRemove(env, x, sig);
            && !y.tip && y.phase == Idle && y.server == EMPTY_SERVER
            && y.client.rawInput == "" && y.client.preview == "" && y.client.suffix == ""
            && y.client.fixedPrefix == "" && y.client.passed == [] && y.client.future == []
            && y.client.nextGroup == x.client.nextGroup
            && y.document == if x.tip then x.document + x.client.fixedPrefix else x.document
  {
  }

  /* ----- committing a clause ----- */

  lemma FirstShows(x: Session, restart: bool)
    requires x.client.candidates.texts != [] && x.client.fixedPrefix == ""
    ensures var y := FirstShown(x, restart);
            && Shows(y.client, "", x.client.candidates, 0)
            && y.phase == Composing && y.server == x.server && y.tip == x.tip
            && y.client.rawInput == x.client.rawInput && y.client.passed == x.client.passed
            && y.client.future == x.client.future && y.client.mark == x.client.mark
    ensures var y := FirstShown(x, restart);
            x.tip ==>
              if restart then y.document == x.document && y.shown == y.client.preview + y.client.suffix
              else
                && y.document == x.document + Take(x.shown, |x.client.preview|)
                && y.shown == x.client.candidates.texts[0]
  {
    AdoptedShows(x.client, x.client.candidates, 0, "");
  }

  /** The first clause is committed: as many characters of what is shown as it has go to the document, the server
      drops its inputs, the client keeps the raw input behind it, new text is added on both sides, and the first
      candidate of what is there now becomes the clause.  Its text alone is shown, without its remainder. */
  lemma ShrinkShows(env: Env, x: Session, text: string, style: Style, sig: Signal)
    requires !sig.before && !sig.after && 0 <= x.client.count <= 127
    requires var t := ShrunkText(env, x.server.text, x.client.count);
             var typed := TextOf(env, x, RawInputSuffix(x.client.rawInput, x.client.count), text, style);
             !env.full(t).IsEmptyComposition() && env.full(env.inserted(t, typed, style == Direct)).texts != []
    ensures var t := ShrunkText(env, x.server.text, x.client.count);
            var rest := RawInputSuffix(x.client.rawInput, x.client.count);
            var after := env.inserted(t, TextOf(env, x, rest, text, style), style == Direct);
            var y := DoShrink(env, x, text, style, sig);
            && y.Some? && t.input == Skip(x.server.text.input, x.client.count)
            && y.value.server.text == after && y.value.client.rawInput == rest + text && NoClauses(y.value, x)
            && Shows(y.value.client, "", env.full(after), 0) && y.value.phase == Composing && y.value.tip == x.tip
            && (x.tip ==> y.value.document == x.document + Take(x.shown, |x.client.preview|)
                          && y.value.shown == env.full(after).texts[0])
  {
    var rest := RawInputSuffix(x.client.rawInput, x.client.count);
    var t := ShrunkText(env, x.server.text, x.client.count);
    var after := env.inserted(t, TextOf(env, x, rest, text, style), style == Direct);
    var cleared := PrefixForgotten(x);
    FirstShows(cleared.(client := cleared.client.(rawInput := rest + text, selection := 0,
                                                  candidates := env.full(after)),
                        server := cleared.server.(text := after)), false);
  }

  /** When nothing is behind the clause, or the call met another session, a new composition starts with the new text
      alone.  What was shown is dropped: the clause is not committed. */
  lemma ShrinkRestarts(env: Env, x: Session, text: string, style: Style, sig: Signal)
    requires !sig.before && 0 <= x.client.count <= 127
    requires var t := ShrunkText(env, x.server.text, x.client.count);
             var typed := TextOf(env, x, RawInputSuffix(x.client.rawInput, x.client.count), text, style);
             (env.full(t).IsEmptyComposition() || sig.after)
             && env.full(env.inserted(t, typed, style == Direct)).texts != []
    ensures var t := ShrunkText(env, x.server.text, x.client.count);
            var typed := TextOf(env, x, RawInputSuffix(x.client.rawInput, x.client.count), text, style);
            var after := env.inserted(t, typed, style == Direct);
            var y := DoShrink(env, x, text, style, sig);
            && y.Some? && y.value.server.text == after && y.value.client.rawInput == typed && NoClauses(y.value, x)
            && Shows(y.value.client, "", env.full(after), 0) && y.value.phase == Composing && y.value.tip
            && y.value.document == x.document && y.value.shown == y.value.client.preview + y.value.client.suffix
  {
    var t := ShrunkText(env, x.server.text, x.client.count);
    var typed := TextOf(env, x, RawInputSuffix(x.client.rawInput, x.client.count), text, style);
    var after := env.inserted(t, typed, style == Direct);
    var gone := ResetStale(PrefixForgotten(x));
    FirstShows(gone.(client := gone.client.(rawInput := typed, selection := 0, candidates := env.full(after)),
                     server := gone.server.(text := after)), true);
  }

  /* ----- another session ----- */

  /** Everything is dropped: what was shown is taken back, not committed. */
  ghost predicate Dropped(y: Session, x: Session) {
    && y.client == EMPTY_CLIENT && y.server == EMPTY_SERVER && !y.tip && y.shown == "" && y.document == x.document
    && y.phase == Idle && !y.temporaryLatin && !y.shiftPending && y.stray == x.stray && y.mode == x.mode
  }

  /** Another session met before a deletion drops the composition, and so it does met by the call itself. */
  lemma DeletionMetAnother(env: Env, x: Session, sig: Signal)
    requires (sig.before && Something(x.client)) || (sig.after && Something(Removing(env, ClearedCaches(x)).client))
    ensures Dropped(DoRemove(env, x, sig), x)
  {
  }

  lemma StartMetAnother(env: Env, x: Session, next: Option<ClientAction>, deferred: bool, after: bool)
    requires env.Contract() && Something(x.client)
    ensures var y := DoEnsure(env, x, next, deferred, Signal(true, after)); y.Some? && Dropped(y.value.session, x)
  {
  }

  /** Met before a move it does the same. */
  lemma MoveMetAnother(env: Env, x: Session, d: Direction, deferred: bool, after: bool)
    requires env.Contract() && Something(x.client)
    ensures var y := DoMove(env, x, d, deferred, Signal(true, after)); y.Some? && Dropped(y.value.session, x)
  {
  }

  /** A cut after which the server has nothing at all to show drops the composition too: the clause is not committed. */
  lemma CutToNothing(env: Env, x: Session, text: string, style: Style, sig: Signal)
    requires !sig.before && 0 <= x.client.count <= 127
    requires var typed := TextOf(env, x, RawInputSuffix(x.client.rawInput, x.client.count), text, style);
             var t := ShrunkText(env, x.server.text, x.client.count);
             env.full(env.inserted(t, typed, style == Direct)).IsEmptyComposition()
    ensures var y := DoShrink(env, x, text, style, sig); y.Some? && Dropped(y.value, x)
  {
  }

  /** And before a boundary edit, or by it. */
  lemma EditMetAnother(env: Env, x: Session, step: int, sig: Signal)
    requires env.Contract()
    requires var m := ClauseTransitions.AdjustBoundary(env, x.client, x.server, step);
             (sig.before && Something(x.client)) || (sig.after && m.Step? && Something(m.client))
    ensures var y := DoAdjust(env, x, step, sig); y.Some? && Dropped(y.value, x)
  {
  }

  /** Met before a clause is cut off it starts a new composition with the new text alone, and the server's inputs are
      not dropped. */
  lemma CutMetAnother(env: Env, x: Session, text: string, style: Style, after: bool)
    requires Something(PrefixForgotten(x).client)
    requires var typed := TextOf(env, x, RawInputSuffix(x.client.rawInput, x.client.count), text, style);
             env.full(env.inserted(x.server.text, typed, style == Direct)).texts != []
    ensures var typed := TextOf(env, x, RawInputSuffix(x.client.rawInput, x.client.count), text, style);
            var t := env.inserted(x.server.text, typed, style == Direct);
            var y := DoShrink(env, x, text, style, Signal(true, after));
            && y.Some? && y.value.server.text == t && y.value.client.rawInput == typed && NoClauses(y.value, x)
            && Shows(y.value.client, "", env.full(t), 0) && y.value.phase == Composing && y.value.tip
            && y.value.document == x.document && y.value.shown == y.value.client.preview + y.value.client.suffix
  {
    var typed := TextOf(env, x, RawInputSuffix(x.client.rawInput, x.client.count), text, style);
    var t := env.inserted(x.server.text, typed, style == Direct);
    var gone := ResetStale(PrefixForgotten(x));
    FirstShows(gone.(client := gone.client.(rawInput := typed, selection := 0, candidates := env.full(t)),
                     server := gone.server.(text := t)), true);
  }

  /* ----- selecting ----- */

  /** Another candidate of the same clause, the prefix and the raw input unchanged. */
  ghost predicate Picks(d: Client, c: Client, k: nat)
    requires k < |c.candidates.texts|
  {
    && d.selection == k && d.preview == c.fixedPrefix + c.candidates.texts[k]
    && d.count == At(c.candidates.counts, k, 0)
    && d.rawHiragana == c.candidates.hiragana && d.fixedPrefix == c.fixedPrefix && d.rawInput == c.rawInput
    && d.candidates.texts == c.candidates.texts && d.candidates.counts == c.candidates.counts
    && d.candidates.hiragana == c.candidates.hiragana && d.future == c.future
  }

  /** Down goes to the next candidate and up to the one before, as far as there are any. */
  lemma SelectionSteps(c: Client)
    requires 0 <= c.selection < |c.candidates.texts|
    ensures var k, n := c.selection, |c.candidates.texts|;
            var down, up := ClauseTransitions.SetSelection(c, Down), ClauseTransitions.SetSelection(c, Up);
            && down.1.Applied? && Picks(down.0, c, if k + 1 < n then k + 1 else k)
            && up.1.Applied? && Picks(up.0, c, if k > 0 then k - 1 else 0)
  {
    MergePreview(c.fixedPrefix, SelectCandidate(c.candidates, c.selection + 1).value.text);
    MergePreview(c.fixedPrefix, SelectCandidate(c.candidates, c.selection - 1).value.text);
  }

  lemma PickedAgain(c: Client, d: Client, e: Client, k: nat, l: nat)
    requires k < |c.candidates.texts| && l < |c.candidates.texts| && Picks(d, c, k) && Picks(e, d, l)
    ensures Picks(e, c, l)
  {
  }

  /** Down and then up comes back to the candidate selected before, unless it was the last one. */
  lemma DownThenUp(c: Client)
    requires 0 <= c.selection < |c.candidates.texts| - 1
    ensures var d := ClauseTransitions.SetSelection(c, Down).0;
            Picks(ClauseTransitions.SetSelection(d, Up).0, c, c.selection)
  {
    SelectionSteps(c);
    var d := ClauseTransitions.SetSelection(c, Down).0;
    SelectionSteps(d);
    PickedAgain(c, d, ClauseTransitions.SetSelection(d, Up).0, c.selection + 1, c.selection);
  }

  /* ----- function keys ----- */

  /** A function key shows its rendering of the clause's own raw input and reading behind the same prefix, and leaves
      input, count and candidates alone. */
  lemma FunctionKeyShows(env: Env, x: Session, kind: SetTextType)
    requires x.client.future == []
    ensures var y := DoSetText(env, x, kind);
            var c := x.client;
            && y.client.preview
                 == c.fixedPrefix + env.render(kind, Take(c.rawInput, c.count), Take(c.rawHiragana, c.count))
            && y.client == c.(preview := y.client.preview, passed := y.client.passed) && y.server == x.server
  {
    var c := x.client;
    MergePreview(c.fixedPrefix, env.render(kind, Take(c.rawInput, c.count), Take(c.rawHiragana, c.count)));
  }

  /** With a next clause cached, its raw input and reading are taken off the end. */
  lemma FunctionKeyBeforeCached(env: Env, x: Session, kind: SetTextType, input: string, reading: string)
    requires x.client.future != [] && input != "" && reading != ""
    requires var f := x.client.future[|x.client.future| - 1];
             x.client.rawInput == input + f.rawInput && x.client.rawHiragana == reading + f.rawHiragana
    ensures DoSetText(env, x, kind).client.preview == x.client.fixedPrefix + env.render(kind, input, reading)
  {
    var f := x.client.future[|x.client.future| - 1];
    assert StripSuffix(input + f.rawInput, f.rawInput) == Some(input);
    assert StripSuffix(reading + f.rawHiragana, f.rawHiragana) == Some(reading);
    MergePreview(x.client.fixedPrefix, env.render(kind, input, reading));
  }
}
