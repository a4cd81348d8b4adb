/** What becomes of a clause whose count does not fit the server's 8-bit offset: every way of passing it or of
    cutting it off is refused, and the whole composition is thrown away. */
module Refusals {
  import opened Text
  import opened Clauses
  import opened ConversionServer
  import opened ClauseTransitions
  import opened ClauseTheorems
  import opened Actions
  import opened Interpreter
  import opened SessionInvariants
  import opened TipInvariants
  import opened Runs

  predicate SameButFlags(x: Session, y: Session) {
    y == x.(temporaryLatin := y.temporaryLatin, shiftPending := y.shiftPending)
  }

  /** Flag changes in front of a list are carried out and change nothing else. */
  lemma {:induction false} FlagsRun(env: Env, x: Session, flags: seq<ClientAction>, rest: seq<ClientAction>, i: nat,
                                    sigs: Signals) returns (y: Session)
    requires env.Contract() && i <= |flags| && forall k :: 0 <= k < |flags| ==> Neutral(flags[k])
    ensures SameButFlags(x, y)
    ensures ExecuteFrom(env, Exec(x, false), flags + rest, i, sigs)
         == ExecuteFrom(env, Exec(y, false), flags + rest, |flags|, sigs)
    decreases |flags| - i
  {
    y := x;
    if i < |flags| {
      var actions := flags + rest;
      assert actions[i] == flags[i] && Neutral(flags[i]);
      ExecuteNext(env, Exec(x, false), actions, i, sigs);
      var next := ExecuteAt(env, Exec(x, false), actions, i, sigs).exec.session;
      y := FlagsRun(env, next, flags, rest, i + 1, sigs);
    }
  }

  /** A list that is refused after its flags discards the composition. */
  lemma RefusedPlan(env: Env, x: Session, flags: seq<ClientAction>, p: Plan, sigs: Signals)
    requires env.Contract() && forall k :: 0 <= k < |flags| ==> Neutral(flags[k])
    requires forall y :: SameButFlags(x.(phase := p.phase), y) ==>
      ExecuteFrom(env, Exec(y, false), flags + p.actions, |flags|, sigs) == Broke(x.stray, x.mode, x.document)
    ensures HandleActions(env, x, Plan(p.phase, flags + p.actions), sigs) == Recovered(x)
  {
    var y := FlagsRun(env, x.(phase := p.phase), flags, p.actions, 0, sigs);
  }

  /* ----- moving right ----- */

  lemma RightRun(env: Env, x: Session, actions: seq<ClientAction>, i: nat, sigs: Signals)
    requires env.Contract() && x.tip && Refuses(x.client) && i + 2 == |actions|
    requires actions[i] == EnsureClauseNavigationReady && actions[i + 1] == MoveClause(Right)
    requires !sigs(i).before && !sigs(i + 1).before
    ensures ExecuteFrom(env, Exec(x, false), actions, i, sigs) == Broke(x.stray, x.mode, x.document)
  {
    ExecuteNext(env, Exec(x, false), actions, i, sigs);
    ExecuteNext(env, Exec(x, false), actions, i + 1, sigs);
    RightRefused(env, x.client, x.server);
  }

  lemma RightPlanned(x: Session, key: Key, s: Settings)
    requires key.action.NavigateRight? && x.phase in {Composing, Previewing} && x.client.suffix != ""
    requires !(x.temporaryLatin && key.isShift)
    ensures var p := Plan(Composing, [EnsureClauseNavigationReady, MoveClause(Right)]);
            PlanOf(x, KeyDown(key), s) == Some(Plan(Composing, Flags(SituationOf(x), key, p) + p.actions))
  {
  }

  /** Moving right over a clause whose count the server refuses throws the whole composition away. */
  lemma LongClauseDiscarded(env: Env, x: Session, key: Key, s: Settings, sigs: Signals)
    requires env.Contract() && x.phase in {Composing, Previewing} && x.tip && Refuses(x.client)
    requires key.action.NavigateRight? && !(x.temporaryLatin && key.isShift) && forall k :: !sigs(k).before
    ensures Handle(env, x, KeyDown(key), s, sigs) == Recovered(x)
  {
    RightPlanned(x, key, s);
    var p := Plan(Composing, [EnsureClauseNavigationReady, MoveClause(Right)]);
    var flags := Flags(SituationOf(x), key, p);
    ResetsAreFlags(SituationOf(x), key, p);
    forall y | SameButFlags(x.(phase := p.phase), y)
      ensures ExecuteFrom(env, Exec(y, false), flags + p.actions, |flags|, sigs) == Broke(x.stray, x.mode, x.document)
    {
      RightRun(env, y, flags + p.actions, |flags|, sigs);
    }
    RefusedPlan(env, x, flags, p, sigs);
  }

  /* ----- committing ----- */

  /** Cutting the first clause off is refused exactly when no session change comes first and the count does
      not fit. */
  lemma ShrinkRefused(env: Env, x: Session, text: string, style: Style, sig: Signal)
    ensures DoShrink(env, x, text, style, sig).None?
        <==> !(sig.before && HasComposition(PrefixForgotten(x).client)) && !(0 <= x.client.count <= 127)
  {
  }

  lemma CutRun(env: Env, x: Session, actions: seq<ClientAction>, i: nat, sigs: Signals)
    requires env.Contract() && Refuses(x.client) && i + 1 == |actions| && actions[i] == ShrinkText("", Resolved)
    requires !sigs(i).before
    ensures ExecuteFrom(env, Exec(x, false), actions, i, sigs) == Broke(x.stray, x.mode, x.document)
  {
    ExecuteNext(env, Exec(x, false), actions, i, sigs);
    ShrinkRefused(env, x, "", Resolved, sigs(i));
  }

  predicate CommitsCurrent(x: Session, a: UserAction) {
    a.CommitAndNextClause? || (a.Enter? && !Active(x.client))
  }

  lemma CommitPlanned(x: Session, key: Key, s: Settings)
    requires CommitsCurrent(x, key.action) && x.phase in {Composing, Previewing} && x.client.suffix != ""
    requires !(x.temporaryLatin && key.isShift)
    ensures var p := Plan(Composing, [ShrinkText("", Resolved)]);
            PlanOf(x, KeyDown(key), s) == Some(Plan(Composing, Flags(SituationOf(x), key, p) + p.actions))
  {
  }

  /** Committing a clause whose count the server refuses throws the whole composition away. */
  lemma LongCommitDiscarded(env: Env, x: Session, key: Key, s: Settings, sigs: Signals)
    requires env.Contract() && x.phase in {Composing, Previewing} && Refuses(x.client)
    requires CommitsCurrent(x, key.action) && !(x.temporaryLatin && key.isShift) && forall k :: !sigs(k).before
    ensures Handle(env, x, KeyDown(key), s, sigs) == Recovered(x)
  {
    CommitPlanned(x, key, s);
    var p := Plan(Composing, [ShrinkText("", Resolved)]);
    var flags := Flags(SituationOf(x), key, p);
    ResetsAreFlags(SituationOf(x), key, p);
    forall y | SameButFlags(x.(phase := p.phase), y)
      ensures ExecuteFrom(env, Exec(y, false), flags + p.actions, |flags|, sigs) == Broke(x.stray, x.mode, x.document)
    {
      CutRun(env, y, flags + p.actions, |flags|, sigs);
    }
    RefusedPlan(env, x, flags, p, sigs);
  }

  /** So does committing the first clause from anywhere, when the first clause is such a one. */
  lemma LongFirstDiscarded(env: Env, x: Session, sigs: Signals)
    requires env.Contract() && StacksOk(x) && x.tip && x.client.passed != []
    requires x.client.passed[0].suffix != "" && x.client.passed[0].count > 127
    requires forall k :: !sigs(k).before
    ensures HandleActions(env, x, CommitFirst(x.client), sigs) == Recovered(x)
  {
    var n := |x.client.passed|;
    CommitFirstAgrees(env, x, sigs);
    var first := LeftSession(x, n);
    var rest: Signals := (k: nat) => sigs(k + n);
    var p := CommitCurrent(first.client);
    assert first.client.suffix == x.client.passed[0].suffix && first.client.count == x.client.passed[0].count;
    CutRun(env, first.(phase := p.phase), p.actions, 0, rest);
  }
}
