/** Whole runs: what any sequence of events keeps, and where a plan made in advance meets the state that
    executing it reaches. */
module Runs {
  import opened Text
  import opened DelayedN
  import opened Clauses
  import opened ConversionServer
  import opened ClauseTransitions
  import opened ClauseInvariants
  import opened ClauseTheorems
  import opened Actions
  import opened Interpreter
  import opened SessionInvariants
  import opened TipInvariants

  /** An event with the settings in force and the session changes met while it is handled. */
  datatype Occurrence = Occurrence(event: Event, settings: Settings, signals: Signals)

  function AfterRun(env: Env, x: Session, run: seq<Occurrence>): Session
    requires env.Contract()
  {
    if run == [] then x
    else
      var before := AfterRun(env, x, run[..|run| - 1]);
      var o := run[|run| - 1];
      Handle(env, before, o.event, o.settings, o.signals)
  }

  /* ----- the stacks ----- */

  lemma {:induction false} RunStacks(env: Env, x: Session, run: seq<Occurrence>)
    requires env.Contract() && StacksOk(x)
    ensures StacksOk(AfterRun(env, x, run))
  {
    if run != [] {
      RunStacks(env, x, run[..|run| - 1]);
      var o := run[|run| - 1];
      HandleStacks(env, AfterRun(env, x, run[..|run| - 1]), o.event, o.settings, o.signals);
    }
  }

  /** In every reachable state both stacks have the same height, each saved server text loses exactly the
      inputs of the clause passed over it, what the server holds is the whole sentence without the inputs of
      all passed clauses, and every passed clause's text is the start of the current display. */
  lemma ReachableStacks(env: Env, run: seq<Occurrence>)
    requires env.Contract()
    ensures var x := AfterRun(env, FRESH, run);
            && |x.client.passed| == |x.server.snapshots|
            && (forall i :: 0 <= i < |x.client.passed| ==>
                  Skip(x.server.snapshots[i].input, x.client.passed[i].count) == TextAbove(x.server, i).input)
            && (x.server.snapshots != [] ==>
                  x.server.text.input == Skip(x.server.snapshots[0].input, SumCounts(x.client.passed)))
            && (forall i :: 0 <= i < |x.client.passed| ==> x.client.passed[i].preview <= x.client.preview)
  {
    EmptyInv();
    RunStacks(env, FRESH, run);
    var x := AfterRun(env, FRESH, run);
    RemainingInput(x.client, x.server);
    forall i | 0 <= i < |x.client.passed| ensures x.client.passed[i].preview <= x.client.preview {
      PassedTextIsPrefix(x.client, i);
      assert x.client.fixedPrefix <= x.client.preview;
    }
  }

  /** A function key changes the current clause's text, and all passed clauses follow: any number of left
      moves leaves the sentence on display as it is. */
  lemma LeftsAfterFunctionKey(env: Env, x: Session, kind: SetTextType, n: nat)
    requires StacksOk(x)
    ensures var y := DoSetText(env, x, kind);
            Displayed(Lefts(y.client, y.server, n).0) == Displayed(y.client)
  {
    var c, next := x.client, Last(x.client.future);
    var input := ClausePart(c.rawInput, if next.Some? then Some(next.value.rawInput) else None, c.count);
    var reading := ClausePart(c.rawHiragana, if next.Some? then Some(next.value.rawHiragana) else None, c.count);
    var edited := c.(preview := Merge(c.fixedPrefix, env.render(kind, input, reading)));
    MergePreview(c.fixedPrefix, env.render(kind, input, reading));
    PrefixChainSame(c, edited);
    SyncAgrees(edited);
    LeftsKeepDisplay(DoSetText(env, x, kind).client, x.server);
  }

  /* ----- the text-service composition ----- */

  ghost predicate AlwaysOk(env: Env, x: Session, run: seq<Occurrence>)
    requires env.Contract()
  {
    forall i :: 0 <= i <= |run| ==> TipOk(AfterRun(env, x, run[..i]))
  }

  ghost predicate StrandedAt(env: Env, x: Session, run: seq<Occurrence>, i: nat)
    requires env.Contract() && i < |run|
  {
    Stranded(env, AfterRun(env, x, run[..i]), run[i].event, run[i].settings, run[i].signals)
  }

  ghost predicate NeverStranded(env: Env, x: Session, run: seq<Occurrence>)
    requires env.Contract()
  {
    forall i :: 0 <= i < |run| ==> !StrandedAt(env, x, run, i)
  }

  lemma AfterStep(env: Env, x: Session, run: seq<Occurrence>, i: nat)
    requires env.Contract() && i < |run|
    ensures AfterRun(env, x, run[..i + 1])
         == Handle(env, AfterRun(env, x, run[..i]), run[i].event, run[i].settings, run[i].signals)
  {
    assert run[..i + 1][..i] == run[..i];
  }

  lemma {:induction false} NeverStrandedUpTo(env: Env, x: Session, run: seq<Occurrence>, n: nat)
    requires env.Contract() && TipOk(x) && n <= |run| && NeverStranded(env, x, run)
    ensures TipOk(AfterRun(env, x, run[..n]))
    decreases n
  {
    if n > 0 {
      NeverStrandedUpTo(env, x, run, n - 1);
      var o := run[n - 1];
      AfterStep(env, x, run, n - 1);
      assert !StrandedAt(env, x, run, n - 1);
      HandleTip(env, AfterRun(env, x, run[..n - 1]), o.event, o.settings, o.signals);
    }
  }

  /** Over a whole run, with any session changes: the composition is open exactly while the client is
      composing and no text goes astray, at every event, if and only if no event strands it. */
  lemma RunTip(env: Env, x: Session, run: seq<Occurrence>)
    requires env.Contract() && TipOk(x)
    ensures AlwaysOk(env, x, run) <==> NeverStranded(env, x, run)
  {
    if NeverStranded(env, x, run) {
      forall i | 0 <= i <= |run| ensures TipOk(AfterRun(env, x, run[..i])) {
        NeverStrandedUpTo(env, x, run, i);
      }
    }
    if AlwaysOk(env, x, run) {
      forall i | 0 <= i < |run| ensures !StrandedAt(env, x, run, i) {
        var o := run[i];
        AfterStep(env, x, run, i);
        assert TipOk(AfterRun(env, x, run[..i])) && TipOk(AfterRun(env, x, run[..i + 1]));
        HandleTip(env, AfterRun(env, x, run[..i]), o.event, o.settings, o.signals);
      }
    }
  }

  ghost predicate NoSessionChange(run: seq<Occurrence>) {
    forall i, k: nat :: 0 <= i < |run| ==> run[i].signals(k) == QUIET
  }

  /** The service is deactivated while it is composing. */
  ghost predicate DeactivatedAt(env: Env, run: seq<Occurrence>, i: nat)
    requires env.Contract() && i < |run|
  {
    run[i].event.Deactivated? && AfterRun(env, FRESH, run[..i]).phase != Idle
  }

  /** Without session changes a run from the start keeps it if and only if the service is never deactivated
      while composing. */
  lemma QuietTip(env: Env, run: seq<Occurrence>)
    requires env.Contract() && NoSessionChange(run)
    ensures AlwaysOk(env, FRESH, run) <==> forall i :: 0 <= i < |run| ==> !DeactivatedAt(env, run, i)
  {
    forall i | 0 <= i < |run| ensures StrandedAt(env, FRESH, run, i) <==> DeactivatedAt(env, run, i) {
    }
    RunTip(env, FRESH, run);
  }

  function Handled(env: Env, x: Session, o: Occurrence): Session
    requires env.Contract()
  {
    Handle(env, x, o.event, o.settings, o.signals)
  }

  lemma OneMore(env: Env, x: Session, run: seq<Occurrence>, o: Occurrence)
    requires env.Contract()
    ensures AfterRun(env, x, run + [o]) == Handled(env, AfterRun(env, x, run), o)
  {
    assert (run + [o])[..|run|] == run;
  }

  lemma ThreeEvents(env: Env, x: Session, a: Occurrence, b: Occurrence, c: Occurrence, one: Session, two: Session)
    requires env.Contract() && Handled(env, x, a) == one && Handled(env, one, b) == two
    ensures AfterRun(env, x, [a, b]) == two && AfterRun(env, x, [a, b, c]) == Handled(env, two, c)
  {
    OneMore(env, x, [], a);
    OneMore(env, x, [a], b);
    OneMore(env, x, [a, b], c);
    assert [] + [a] == [a] && [a] + [b] == [a, b] && [a, b] + [c] == [a, b, c];
  }

  /* ----- the trap is reached ----- */

  /** A converter that offers the whole input as it stands. */
  function EchoAll(t: ComposingText): Candidates {
    if t.input == [] then NO_CANDIDATES else Candidates(["x"], [""], "x", [|t.input|])
  }

  function EchoInsert(t: ComposingText, text: string, direct: bool): ComposingText {
    ComposingText(t.input + [InputElement(None, direct)], t.cursor)
  }

  function Echo(): Env {
    Env(EchoAll, EchoAll, (t: ComposingText, i: int) => i, (t: ComposingText, n: nat) => n, EchoInsert,
        (t: ComposingText) => t, (k: SetTextType, a: string, b: string) => b, (before: string, text: string) => text)
  }

  const PRESS_ENTER := KeyDown(Key(UserAction.Enter, false, false, false))
  const TYPE_A := KeyDown(Key(Input('a'), false, false, false))
  const TYPE_SPACE := KeyDown(Key(Space, false, false, false))

  /** A letter, Enter, and a space that is the first to notice a new server session: the client goes on
      composing while the composition is closed. */
  lemma TrapReached(s: Settings)
    ensures Echo().Contract()
    ensures var quiet: Signals := _ => QUIET;
            var noticed: Signals := _ => Signal(true, false);
            var x := AfterRun(Echo(), FRESH, [Occurrence(TYPE_A, s, quiet), Occurrence(PRESS_ENTER, s, quiet),
                                           Occurrence(TYPE_SPACE, s, noticed)]);
            x.phase == Composing && !x.tip
  {
    var quiet: Signals := _ => QUIET;
    var noticed: Signals := _ => Signal(true, false);
    TypedA(s, quiet);
    Entered(s, quiet);
    Spaced(s, noticed);
    ThreeEvents(Echo(), FRESH, Occurrence(TYPE_A, s, quiet), Occurrence(PRESS_ENTER, s, quiet),
                Occurrence(TYPE_SPACE, s, noticed), TYPED_STATE, ENTERED_STATE);
  }

  /** A letter, deactivation, and another letter: the client goes on composing while the composition is closed,
      and the next text is written with none open. */
  lemma DeactivationReached(s: Settings)
    ensures Echo().Contract()
    ensures var quiet: Signals := _ => QUIET;
            var typed := Occurrence(TYPE_A, s, quiet);
            var x := AfterRun(Echo(), FRESH, [typed, Occurrence(Deactivated, s, quiet)]);
            var y := AfterRun(Echo(), FRESH, [typed, Occurrence(Deactivated, s, quiet), typed]);
            x.phase == Composing && !x.tip && y.stray
  {
    var quiet: Signals := _ => QUIET;
    var typed := Occurrence(TYPE_A, s, quiet);
    TypedA(s, quiet);
    TypedAgain(s, quiet);
    ThreeEvents(Echo(), FRESH, typed, Occurrence(Deactivated, s, quiet), typed, TYPED_STATE, Ended(TYPED_STATE));
  }

  const SHOWN := Candidates(["x"], [""], "x", [1])

  const TYPED_STATE := FRESH.(
    client := EMPTY_CLIENT.(rawInput := "a", candidates := SHOWN, preview := "x", rawHiragana := "x", count := 1),
    server := ServerState(ComposingText([InputElement(None, false)], 0), []), tip := true, phase := Composing,
    shown := "x")

  const ENTERED_STATE := FRESH.(client := EMPTY_CLIENT.(candidates := SHOWN), document := "x")

  lemma AppendedA()
    ensures DoAppend(Echo(), FRESH.(phase := Composing, tip := true), "a", Resolved, QUIET) == TYPED_STATE
  {
    assert [] + [InputElement(None, false)] == [InputElement(None, false)];
    assert "" + "a" == "a" && "x" + "" == "x";
  }

  lemma AppendedAgain()
    ensures DoAppend(Echo(), Ended(TYPED_STATE), "a", Resolved, QUIET).stray
  {
  }

  lemma TypedA(s: Settings, sigs: Signals)
    requires forall k :: sigs(k) == QUIET
    ensures Echo().Contract() && Handle(Echo(), FRESH, TYPE_A, s, sigs) == TYPED_STATE
  {
    var p := Plan(Composing, [StartComposition, AppendText("a", Resolved)]);
    assert [] + [] + p.actions == p.actions;
    assert PlanOf(FRESH, TYPE_A, s) == Some(p);
    var e := Exec(FRESH.(phase := Composing), false);
    var begun := Exec(e.session.(tip := true), false);
    ExecuteNext(Echo(), e, p.actions, 0, sigs);
    ExecuteNext(Echo(), begun, p.actions, 1, sigs);
    AppendedA();
  }

  lemma TypedAgain(s: Settings, sigs: Signals)
    requires forall k :: sigs(k) == QUIET
    ensures Echo().Contract() && Handle(Echo(), Ended(TYPED_STATE), TYPE_A, s, sigs).stray
  {
    var x := Ended(TYPED_STATE);
    var p := Plan(Composing, [AppendText("a", Resolved)]);
    assert [] + [] + p.actions == p.actions;
    assert PlanOf(x, TYPE_A, s) == Some(p);
    ExecuteNext(Echo(), Exec(x, false), p.actions, 0, sigs);
    AppendedAgain();
  }

  lemma Entered(s: Settings, sigs: Signals)
    ensures Echo().Contract() && Handle(Echo(), TYPED_STATE, PRESS_ENTER, s, sigs) == ENTERED_STATE
  {
    var p := Plan(Idle, [EndComposition]);
    assert [] + [] + [EndComposition] == [EndComposition];
    assert PlanOf(TYPED_STATE, PRESS_ENTER, s) == Some(p);
    ExecuteNext(Echo(), Exec(TYPED_STATE.(phase := Idle), false), p.actions, 0, sigs);
  }

  lemma Spaced(s: Settings, sigs: Signals)
    requires forall k :: sigs(k) == Signal(true, false)
    ensures Echo().Contract()
    ensures var y := Handle(Echo(), ENTERED_STATE, TYPE_SPACE, s, sigs); y.phase == Composing && !y.tip
  {
    var text := if s.alwaysHalfSpace then " " else "\U{3000}";
    var p := Plan(Idle, [StartComposition, AppendText(text, Resolved), EndComposition]);
    assert [] + [] + p.actions == p.actions;
    assert PlanOf(ENTERED_STATE, TYPE_SPACE, s) == Some(p);
    assert Trapped(Echo(), ENTERED_STATE, text, sigs(1));
    SpaceHandled(Echo(), ENTERED_STATE, p, text, sigs);
  }

  /* ----- the plan for the first clause agrees with its execution ----- */

  /** The session after `n` left moves. */
  function LeftSession(x: Session, n: nat): Session {
    var l := Lefts(x.client, x.server, n);
    x.(client := l.0, server := l.1, shown := if n == 0 then x.shown else Displayed(l.0))
  }

  lemma LeftExecuted(env: Env, x: Session, next: Option<ClientAction>, sig: Signal)
    requires env.Contract() && x.client.passed != [] && x.tip && !sig.before
    ensures Execute(env, Exec(x, false), MoveClause(Left), next, sig) == Ran(Exec(LeftSession(x, 1), false))
  {
  }

  lemma LeftStep(env: Env, x: Session, actions: seq<ClientAction>, i: nat, sigs: Signals)
    requires env.Contract() && x.tip && x.client.passed != [] && i < |actions|
    requires actions[i] == MoveClause(Left) && !sigs(i).before
    ensures ExecuteFrom(env, Exec(x, false), actions, i, sigs)
         == ExecuteFrom(env, Exec(LeftSession(x, 1), false), actions, i + 1, sigs)
    ensures LeftSession(x, 1).tip && |LeftSession(x, 1).client.passed| == |x.client.passed| - 1
  {
    ExecuteNext(env, Exec(x, false), actions, i, sigs);
    LeftExecuted(env, x, if i + 1 < |actions| then Some(actions[i + 1]) else None, sigs(i));
    LeftsShow(x.client, x.server, 1);
  }

  /** What a list still leads to, from a session and a place in the list. */
  type Tail = (Session, nat) -> Interpreter.Ran

  ghost predicate LeftAt(tail: Tail, x: Session, i: nat) {
    tail(x, i) == tail(LeftSession(x, 1), i + 1)
  }

  lemma {:induction false} LeftsFold(tail: Tail, x: Session, i: nat, n: nat, end: nat)
    requires x.tip && i + n == end && n <= |x.client.passed|
    requires forall y: Session, k: nat :: k < end && y.tip && y.client.passed != [] ==> LeftAt(tail, y, k)
    ensures tail(x, i) == tail(LeftSession(x, n), end)
    decreases n
  {
    if n > 0 {
      assert LeftAt(tail, x, i);
      LeftsShow(x.client, x.server, 1);
      LeftsFold(tail, LeftSession(x, 1), i + 1, n - 1, end);
      LeftsCompose(x, n);
    }
  }

  function TailOf(env: Env, actions: seq<ClientAction>, sigs: Signals): Tail
    requires env.Contract()
  {
    (y: Session, k: nat) =>
      if k <= |actions| then ExecuteFrom(env, Exec(y, false), actions, k, sigs) else Broke(false, Kana, "")
  }

  lemma TailLeft(env: Env, actions: seq<ClientAction>, sigs: Signals, x: Session, i: nat)
    requires env.Contract() && x.tip && x.client.passed != [] && i < |actions|
    requires actions[i] == MoveClause(Left) && !sigs(i).before
    ensures LeftAt(TailOf(env, actions, sigs), x, i)
  {
    LeftStep(env, x, actions, i, sigs);
  }

  /** All left moves at the front of a list. */
  lemma LeftsExecuted(env: Env, x: Session, actions: seq<ClientAction>, n: nat, sigs: Signals)
    requires env.Contract() && x.tip && n <= |actions| && n <= |x.client.passed|
    requires forall k :: 0 <= k < n ==> actions[k] == MoveClause(Left) && !sigs(k).before
    ensures ExecuteFrom(env, Exec(x, false), actions, 0, sigs)
         == ExecuteFrom(env, Exec(LeftSession(x, n), false), actions, n, sigs)
  {
    var tail := TailOf(env, actions, sigs);
    forall y: Session, k: nat | k < n && y.tip && y.client.passed != [] ensures LeftAt(tail, y, k) {
      TailLeft(env, actions, sigs, y, k);
    }
    LeftsFold(tail, x, 0, n, n);
  }

  lemma LeftsCompose(x: Session, n: nat)
    requires n > 0
    ensures LeftSession(LeftSession(x, 1), n - 1) == LeftSession(x, n)
  {
    var m := MoveLeft(x.client, x.server);
    assert Lefts(x.client, x.server, 1) == Lefts(m.client, m.server, 0);
  }

  /** All the way left: the first clause is current again, and the server is back at its first saved text. */
  lemma {:induction false} LeftsToFirst(c: Client, s: ServerState, n: nat)
    requires n == |c.passed| == |s.snapshots|
    ensures var l := Lefts(c, s, n);
            && l.0.passed == []
            && (if n == 0 then l == (c, s)
                else SnapshotOf(l.0) == c.passed[0] && l.1 == ServerState(s.snapshots[0], []))
    decreases n
  {
    if n > 0 {
      var m := MoveLeft(c, s);
      LeftsToFirst(m.client, m.server, n - 1);
      if n == 1 {
        assert s.snapshots[..0] == [];
      }
    }
  }

  /** Committing the first clause from anywhere: the plan goes back to the first clause and then does exactly
      what committing the current clause would be planned to do there, so the choice between ending and cutting
      off, made before any move, is the one the state reached calls for. */
  lemma CommitFirstAgrees(env: Env, x: Session, sigs: Signals)
    requires env.Contract() && StacksOk(x) && x.tip
    requires forall k: nat :: k < |x.client.passed| ==> !sigs(k).before
    ensures var n := |x.client.passed|;
            var first := LeftSession(x, n);
            var rest: Signals := (k: nat) => sigs(k + n);
            && first.client.passed == []
            && (n > 0 ==> SnapshotOf(first.client) == x.client.passed[0]
                          && first.server == ServerState(x.server.snapshots[0], []))
            && HandleActions(env, x, CommitFirst(x.client), sigs)
               == HandleActions(env, first, CommitCurrent(first.client), rest)
  {
    var n := |x.client.passed|;
    LeftsToFirst(x.client, x.server, n);
    CommitFirstMeets(env, x, LeftSession(x, n), sigs);
  }

  lemma CommitFirstMeets(env: Env, x: Session, first: Session, sigs: Signals)
    requires env.Contract() && x.tip && first == LeftSession(x, |x.client.passed|)
    requires first.client.suffix == if x.client.passed != [] then x.client.passed[0].suffix else x.client.suffix
    requires forall k: nat :: k < |x.client.passed| ==> !sigs(k).before
    ensures HandleActions(env, x, CommitFirst(x.client), sigs)
         == HandleActions(env, first, CommitCurrent(first.client), (k: nat) => sigs(k + |x.client.passed|))
  {
    var p, q := CommitFirst(x.client), CommitCurrent(first.client);
    assert p == Plan(q.phase, Repeat(MoveClause(Left), |x.client.passed|) + q.actions);
    LeftsThenOne(env, x, first, q, sigs, (k: nat) => sigs(k + |x.client.passed|));
  }

  lemma LeftsThenOne(env: Env, x: Session, first: Session, q: Plan, sigs: Signals, rest: Signals)
    requires env.Contract() && x.tip && first == LeftSession(x, |x.client.passed|) && |q.actions| == 1
    requires forall k: nat :: k < |x.client.passed| ==> !sigs(k).before
    requires rest(0) == sigs(|x.client.passed|)
    ensures HandleActions(env, x, Plan(q.phase, Repeat(MoveClause(Left), |x.client.passed|) + q.actions), sigs)
         == HandleActions(env, first, q, rest)
  {
    var n := |x.client.passed|;
    var actions := Repeat(MoveClause(Left), n) + q.actions;
    var e := Exec(first.(phase := q.phase), false);
    LeftsExecuted(env, x.(phase := q.phase), actions, n, sigs);
    LastAction(env, e, actions, n, sigs);
    LastAction(env, e, q.actions, 0, rest);
    SameEnd(x, first, Execute(env, e, q.actions[0], None, rest(0)));
  }

  lemma SameEnd(x: Session, y: Session, r: Interpreter.Ran)
    requires y == x.(client := y.client, server := y.server, shown := y.shown)
    ensures Finished(x, r) == Finished(y, r)
  {
  }

  lemma LastAction(env: Env, e: Exec, actions: seq<ClientAction>, i: nat, sigs: Signals)
    requires env.Contract() && i + 1 == |actions|
    ensures ExecuteFrom(env, e, actions, i, sigs) == Execute(env, e, actions[i], None, sigs(i))
  {
  }

  /** Ending keeps nothing, cutting off leaves the rest: the plan ends exactly when nothing follows the first clause. */
  lemma CommitFirstEnds(env: Env, x: Session)
    requires env.Contract() && StacksOk(x)
    ensures CommitFirst(x.client).phase == Idle <==> LeftSession(x, |x.client.passed|).client.suffix == ""
  {
    LeftsToFirst(x.client, x.server, |x.client.passed|);
  }
}
