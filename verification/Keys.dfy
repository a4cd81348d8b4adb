/** What each key does to the session, said by the clause command, the edit or the commit it stands for. */
module Keys {
  import opened Text
  import opened DelayedN
  import opened Clauses
  import opened ConversionServer
  import opened ClauseTransitions
  import opened Actions
  import opened Interpreter
  import opened Effects
  import opened RomajiLookup

  /** A key pressed while text is composed, outside temporary latin, with no session change in sight. */
  ghost predicate Plainly(x: Session, key: Key, sigs: Signals) {
    && (x.phase == Composing || x.phase == Previewing) && x.tip && !x.temporaryLatin && !x.shiftPending
    && !(x.mode == Kana && key.latinShortcut) && forall k :: sigs(k) == QUIET
  }

  function After(env: Env, x: Session, key: Key, s: Settings, sigs: Signals): Session
    requires env.Contract()
  {
    Handle(env, x, KeyDown(key), s, sigs)
  }

  /* ----- lists of one and two actions ----- */

  lemma OneAction(env: Env, x: Session, p: Plan, sigs: Signals)
    requires env.Contract() && |p.actions| == 1
    ensures HandleActions(env, x, p, sigs)
         == Finished(x, Execute(env, Exec(x.(phase := p.phase), false), p.actions[0], None, sigs(0)))
  {
    ExecuteNext(env, Exec(x.(phase := p.phase), false), p.actions, 0, sigs);
  }

  lemma TwoActions(env: Env, x: Session, p: Plan, sigs: Signals)
    requires env.Contract() && |p.actions| == 2
    ensures var r := Execute(env, Exec(x.(phase := p.phase), false), p.actions[0], Some(p.actions[1]), sigs(0));
            HandleActions(env, x, p, sigs)
              == Finished(x, if r.Broke? then r else Execute(env, r.exec, p.actions[1], None, sigs(1)))
  {
    var e := Exec(x.(phase := p.phase), false);
    ExecuteNext(env, e, p.actions, 0, sigs);
    var r := ExecuteAt(env, e, p.actions, 0, sigs);
    if r.Ran? {
      ExecuteNext(env, r.exec, p.actions, 1, sigs);
    }
  }

  /** The key's plan carried out, with no flags in front. */
  lemma Planned(env: Env, x: Session, key: Key, s: Settings, sigs: Signals, p: Plan)
    requires env.Contract() && Plainly(x, key, sigs)
    requires PlanFor(key.action, SituationOf(x), key.shift, false, s) == Some(p)
    ensures After(env, x, key, s, sigs) == HandleActions(env, x, p, sigs)
  {
    assert [] + [] + p.actions == p.actions;
  }

  /* ----- moving ----- */

  /** Clauses are being navigated, or there is text behind the one on display. */
  predicate Navigating(c: Client) {
    c.passed != [] || c.future != [] || c.mark.derived || c.mark.group.Some? || c.suffix != ""
  }

  /** The session after a clause command: refused, it is thrown away; reset, it is cleared; else it stands where the
      command has led, in the given phase, and shows the clause there with its remainder if the command applied or
      the display was owed.  Nothing is committed. */
  ghost predicate Led(y: Session, x: Session, m: Step, phase: Phase, owed: bool) {
    && y.document == x.document
    && if m.Failed? then y == Recovered(x)
       else if m.effect.ServerReset? then
         y.client == EMPTY_CLIENT && y.server == EMPTY_SERVER && !y.tip && y.phase == Idle && y.shown == ""
       else
         && y.client == m.client && y.server == m.server && y.tip && y.phase == phase && y.stray == x.stray
         && y.shown == if owed || m.effect.Applied? then m.client.preview + m.client.suffix else x.shown
  }

  lemma NotStarted(env: Env, c: Client, s: ServerState)
    requires env.Contract() && Navigating(c)
    ensures StartNavigation(env, c, s) == Step(c, s, Skipped)
  {
  }

  lemma MovePlan(x: Session, a: UserAction, shift: bool, s: Settings, right: bool)
    requires (x.phase == Composing || x.phase == Previewing) && Navigating(x.client) && !x.temporaryLatin
    requires a == if right then NavigateRight else NavigateLeft
    ensures PlanFor(a, SituationOf(x), shift, false, s)
         == Some(Plan(Composing,
                      [EnsureClauseNavigationReady, MoveClause(if right then Direction.Right else Direction.Left)]))
  {
  }

  /** Right goes to the next clause. */
  lemma RightKey(env: Env, x: Session, key: Key, s: Settings, sigs: Signals)
    requires env.Contract() && Plainly(x, key, sigs) && key.action.NavigateRight? && Navigating(x.client)
    ensures Led(After(env, x, key, s, sigs), x, MoveRight(env, x.client, x.server), Composing, false)
  {
    var p := Plan(Composing, [EnsureClauseNavigationReady, MoveClause(Direction.Right)]);
    MovePlan(x, key.action, key.shift, s, true);
    Planned(env, x, key, s, sigs, p);
    MoveKey(env, x, Direction.Right, sigs);
  }

  /** Left goes back to the clause before. */
  lemma LeftKey(env: Env, x: Session, key: Key, s: Settings, sigs: Signals)
    requires env.Contract() && Plainly(x, key, sigs) && key.action.NavigateLeft? && Navigating(x.client)
    ensures Led(After(env, x, key, s, sigs), x, MoveLeft(x.client, x.server), Composing, false)
  {
    var p := Plan(Composing, [EnsureClauseNavigationReady, MoveClause(Direction.Left)]);
    MovePlan(x, key.action, key.shift, s, false);
    Planned(env, x, key, s, sigs, p);
    MoveKey(env, x, Direction.Left, sigs);
  }

  /** While clauses are navigated nothing has to be made ready. */
  lemma NotReady(env: Env, x: Session, next: Option<ClientAction>)
    requires env.Contract() && Navigating(x.client)
    ensures Execute(env, Exec(x, false), EnsureClauseNavigationReady, next, QUIET) == Ran(Exec(x, false))
  {
    NotStarted(env, x.client, x.server);
  }

  lemma MoveKey(env: Env, x: Session, d: Direction, sigs: Signals)
    requires env.Contract() && x.tip && Navigating(x.client) && forall k :: sigs(k) == QUIET
    ensures Led(HandleActions(env, x, Plan(Composing, [EnsureClauseNavigationReady, MoveClause(d)]), sigs), x,
                MoveStep(env, x.client, x.server, d), Composing, false)
  {
    NotReady(env, x.(phase := Composing), Some(MoveClause(d)));
    TwoActions(env, x, Plan(Composing, [EnsureClauseNavigationReady, MoveClause(d)]), sigs);
    MoveLed(x, MoveStep(env, x.client, x.server, d));
  }

  lemma MoveLed(x: Session, m: Step)
    requires x.tip
    ensures Led(Finished(x, LiftExec(x.(phase := Composing), AfterMove(x.(phase := Composing), m, false))), x, m,
                Composing, false)
  {
  }

  lemma StartPlan(x: Session, a: UserAction, shift: bool, s: Settings)
    requires (x.phase == Composing || x.phase == Previewing) && !Navigating(x.client) && !x.temporaryLatin
    requires a.NavigateRight? || a.NavigateLeft?
    ensures PlanFor(a, SituationOf(x), shift, false, s)
         == Some(Plan(Composing, if a.NavigateRight? then [EnsureClauseNavigationReady]
                                 else [EnsureClauseNavigationReady, MoveClause(ToLast)]))
  {
  }

  /** With nothing navigated yet right starts it. */
  lemma StartRightKey(env: Env, x: Session, key: Key, s: Settings, sigs: Signals)
    requires env.Contract() && Plainly(x, key, sigs) && !Navigating(x.client) && key.action.NavigateRight?
    ensures Led(After(env, x, key, s, sigs), x, StartNavigation(env, x.client, x.server), Composing, false)
  {
    StartPlan(x, key.action, key.shift, s);
    Planned(env, x, key, s, sigs, Plan(Composing, [EnsureClauseNavigationReady]));
    StartRun(env, x, sigs);
  }

  lemma StartRun(env: Env, x: Session, sigs: Signals)
    requires env.Contract() && x.tip && forall k :: sigs(k) == QUIET
    ensures Led(HandleActions(env, x, Plan(Composing, [EnsureClauseNavigationReady]), sigs), x,
                StartNavigation(env, x.client, x.server), Composing, false)
  {
    OneAction(env, x, Plan(Composing, [EnsureClauseNavigationReady]), sigs);
    ReadyLed(x, StartNavigation(env, x.client, x.server));
  }

  lemma ReadyLed(x: Session, m: Step)
    requires x.tip
    ensures var y := x.(phase := Composing);
            Led(Finished(x, LiftExec(y, AfterEnsure(y, m, None, false))), x, m, Composing, false)
  {
  }

  /** And left starts it and goes to the last clause. */
  lemma StartLeftKey(env: Env, x: Session, key: Key, s: Settings, sigs: Signals)
    requires env.Contract() && Plainly(x, key, sigs) && !Navigating(x.client) && key.action.NavigateLeft?
    requires var m := StartNavigation(env, x.client, x.server); m.Step? && !m.effect.ServerReset?
    ensures var m := StartNavigation(env, x.client, x.server);
            Led(After(env, x, key, s, sigs), x, MoveToLast(env, m.client, m.server), Composing, m.effect.Applied?)
  {
    StartPlan(x, key.action, key.shift, s);
    Planned(env, x, key, s, sigs, Plan(Composing, [EnsureClauseNavigationReady, MoveClause(ToLast)]));
    StartThenLast(env, x, sigs);
  }

  lemma StartThenLast(env: Env, x: Session, sigs: Signals)
    requires env.Contract() && x.tip && forall k :: sigs(k) == QUIET
    requires var m := StartNavigation(env, x.client, x.server); m.Step? && !m.effect.ServerReset?
    ensures var m := StartNavigation(env, x.client, x.server);
            Led(HandleActions(env, x, Plan(Composing, [EnsureClauseNavigationReady, MoveClause(ToLast)]), sigs), x,
                MoveToLast(env, m.client, m.server), Composing, m.effect.Applied?)
  {
    TwoActions(env, x, Plan(Composing, [EnsureClauseNavigationReady, MoveClause(ToLast)]), sigs);
    var m := StartNavigation(env, x.client, x.server);
    StartLed(x, m, MoveToLast(env, m.client, m.server));
  }

  lemma StartLed(x: Session, m: Step, last: Step)
    requires x.tip && m.Step? && !m.effect.ServerReset?
    ensures var e := AfterEnsure(x.(phase := Composing), m, Some(MoveClause(ToLast)), false);
            e.Some? && e.value.session == x.(phase := Composing, client := m.client, server := m.server)
            && Led(Finished(x, LiftExec(e.value.session, AfterMove(e.value.session, last, e.value.deferred))), x, last,
                   Composing, m.effect.Applied?)
  {
  }

  /* ----- boundaries and candidates ----- */

  lemma BoundaryPlan(x: Session, a: UserAction, shift: bool, s: Settings)
    requires (x.phase == Composing || x.phase == Previewing) && !x.temporaryLatin && a.AdjustClauseBoundary?
    ensures PlanFor(a, SituationOf(x), shift, false, s)
         == Some(Plan(x.phase, [ClientAction.AdjustBoundary(if a.right then 1 else -1)]))
  {
  }

  lemma BoundaryRun(env: Env, x: Session, step: int, sigs: Signals)
    requires env.Contract() && x.tip && forall k :: sigs(k) == QUIET
    ensures Led(HandleActions(env, x, Plan(x.phase, [ClientAction.AdjustBoundary(step)]), sigs), x,
                ClauseTransitions.AdjustBoundary(env, x.client, x.server, step), x.phase, false)
  {
    OneAction(env, x, Plan(x.phase, [ClientAction.AdjustBoundary(step)]), sigs);
    EditLed(x, ClauseTransitions.AdjustBoundary(env, x.client, x.server, step));
  }

  /** Shift with right is the boundary command to the right, with left the one to the left. */
  lemma BoundaryKey(env: Env, x: Session, key: Key, s: Settings, sigs: Signals)
    requires env.Contract() && Plainly(x, key, sigs) && key.action.AdjustClauseBoundary?
    ensures Led(After(env, x, key, s, sigs), x,
                ClauseTransitions.AdjustBoundary(env, x.client, x.server, if key.action.right then 1 else -1), x.phase,
                false)
  {
    var step := if key.action.right then 1 else -1;
    BoundaryPlan(x, key.action, key.shift, s);
    Planned(env, x, key, s, sigs, Plan(x.phase, [ClientAction.AdjustBoundary(step)]));
    BoundaryRun(env, x, step, sigs);
  }

  lemma EditLed(x: Session, m: Step)
    requires x.tip
    ensures Led(Finished(x, Lift(x, AfterAdjust(x, m, QUIET), false)), x, m, x.phase, false)
  {
  }

  function Selects(a: UserAction): SetSelectionType {
    if a.NavigateUp? then Up else Down
  }

  lemma SelectionPlan(x: Session, a: UserAction, shift: bool, s: Settings)
    requires (x.phase == Composing || x.phase == Previewing) && !x.temporaryLatin
    requires a.NavigateUp? || a.NavigateDown? || ((a.Space? || a.Tab?) && !s.candidateWindowAfterSpace)
    ensures PlanFor(a, SituationOf(x), shift, false, s)
         == Some(Plan(Previewing, [ClientAction.SetSelection(Selects(a))]))
  {
    assert [] + [ClientAction.SetSelection(Down)] == [ClientAction.SetSelection(Down)];
  }

  /** Another candidate is selected and shown; nothing is committed. */
  ghost predicate Selected(y: Session, x: Session, kind: SetSelectionType) {
    && y.client == ClauseTransitions.SetSelection(x.client, kind).0
    && y.server == x.server && y.tip && y.phase == Previewing && y.stray == x.stray && y.document == x.document
    && (x.client.candidates.texts != [] ==> y.shown == y.client.preview + y.client.suffix)
  }

  lemma SelectLed(x: Session, kind: SetSelectionType)
    requires x.tip
    ensures Selected(DoSelect(x.(phase := Previewing), kind), x, kind)
  {
  }

  lemma SelectionRun(env: Env, x: Session, kind: SetSelectionType, sigs: Signals)
    requires env.Contract() && x.tip
    ensures Selected(HandleActions(env, x, Plan(Previewing, [ClientAction.SetSelection(kind)]), sigs), x, kind)
  {
    OneAction(env, x, Plan(Previewing, [ClientAction.SetSelection(kind)]), sigs);
    SelectLed(x, kind);
  }

  /** Up, down and space select another candidate and show it. */
  lemma SelectionKeys(env: Env, x: Session, key: Key, s: Settings, sigs: Signals)
    requires env.Contract() && Plainly(x, key, sigs)
    requires key.action.NavigateUp? || key.action.NavigateDown?
      || ((key.action.Space? || key.action.Tab?) && !s.candidateWindowAfterSpace)
    ensures Selected(After(env, x, key, s, sigs), x, if key.action.NavigateUp? then Up else Down)
  {
    SelectionPlan(x, key.action, key.shift, s);
    Planned(env, x, key, s, sigs, Plan(Previewing, [ClientAction.SetSelection(Selects(key.action))]));
    SelectionRun(env, x, Selects(key.action), sigs);
  }

  /* ----- committing, deleting, leaving ----- */

  /** Everything shown is committed: the composition is closed and nothing is left but the last candidates. */
  ghost predicate Left(y: Session, x: Session) {
    && !y.tip && y.phase == Idle && y.server == EMPTY_SERVER
    && y.client == EMPTY_CLIENT.(candidates := x.client.candidates) && !y.temporaryLatin
    && y.stray == x.stray && y.document == x.document + x.shown
  }

  lemma EndRun(env: Env, x: Session, sigs: Signals)
    requires env.Contract() && x.tip
    ensures var y := HandleActions(env, x, Plan(Idle, [EndComposition]), sigs); Left(y, x) && y.mode == x.mode
  {
    OneAction(env, x, Plan(Idle, [EndComposition]), sigs);
  }

  lemma CutRun(env: Env, x: Session, sigs: Signals)
    requires env.Contract() && sigs(0) == QUIET
    ensures var cut := DoShrink(env, x.(phase := Composing), "", Resolved, QUIET);
            HandleActions(env, x, Plan(Composing, [ShrinkText("", Resolved)]), sigs)
              == if cut.Some? then cut.value else Recovered(x)
  {
    OneAction(env, x, Plan(Composing, [ShrinkText("", Resolved)]), sigs);
  }

  lemma EnterPlan(x: Session, shift: bool, s: Settings)
    requires (x.phase == Composing || x.phase == Previewing) && !x.temporaryLatin
    ensures PlanFor(UserAction.Enter, SituationOf(x), shift, false, s)
         == Some(if Active(x.client) || x.client.suffix == "" then Plan(Idle, [EndComposition])
                 else Plan(Composing, [ShrinkText("", Resolved)]))
  {
  }

  /** Enter commits everything while clauses are navigated or nothing follows; otherwise it commits the first
      clause and goes on with the rest. */
  lemma EnterKey(env: Env, x: Session, key: Key, s: Settings, sigs: Signals)
    requires env.Contract() && Plainly(x, key, sigs) && key.action.Enter?
    ensures var y := After(env, x, key, s, sigs);
            if Active(x.client) || x.client.suffix == "" then Left(y, x) && y.mode == x.mode
            else
              var cut := DoShrink(env, x.(phase := Composing), "", Resolved, QUIET);
              y == if cut.Some? then cut.value else Recovered(x)
  {
    EnterPlan(x, key.shift, s);
    if Active(x.client) || x.client.suffix == "" {
      Planned(env, x, key, s, sigs, Plan(Idle, [EndComposition]));
      EndRun(env, x, sigs);
    } else {
      Planned(env, x, key, s, sigs, Plan(Composing, [ShrinkText("", Resolved)]));
      CutRun(env, x, sigs);
    }
  }

  /** And so does the key that goes on to the next clause, except that it always cuts where something follows. */
  lemma CommitAndNextKey(env: Env, x: Session, key: Key, s: Settings, sigs: Signals)
    requires env.Contract() && Plainly(x, key, sigs) && key.action.CommitAndNextClause?
    ensures var y := After(env, x, key, s, sigs);
            if x.client.suffix == "" then Left(y, x) && y.mode == x.mode
            else
              var cut := DoShrink(env, x.(phase := Composing), "", Resolved, QUIET);
              y == if cut.Some? then cut.value else Recovered(x)
  {
    if x.client.suffix == "" {
      Planned(env, x, key, s, sigs, Plan(Idle, [EndComposition]));
      EndRun(env, x, sigs);
    } else {
      Planned(env, x, key, s, sigs, Plan(Composing, [ShrinkText("", Resolved)]));
      CutRun(env, x, sigs);
    }
  }

  /** The composition is closed, with what `d` still shows committed. */
  ghost predicate ClosedOn(y: Session, d: Session) {
    && !y.tip && y.phase == Idle && y.server == EMPTY_SERVER && y.client.rawInput == "" && y.client.preview == ""
    && y.client.suffix == "" && y.document == if d.tip then d.document + d.shown else d.document
  }

  lemma RemoveThenEnd(env: Env, x: Session, sigs: Signals)
    requires env.Contract() && forall k :: sigs(k) == QUIET
    ensures ClosedOn(HandleActions(env, x, Plan(Idle, [RemoveText, EndComposition]), sigs),
                     DoRemove(env, x.(phase := Idle), QUIET))
  {
    TwoActions(env, x, Plan(Idle, [RemoveText, EndComposition]), sigs);
    EndedClosed(DoRemove(env, x.(phase := Idle), QUIET));
  }

  lemma EndedClosed(d: Session)
    requires d.phase == Idle
    ensures ClosedOn(DoEnd(d), d)
  {
  }

  /** Backspace deletes, and leaves the composition with its last raw character. */
  lemma BackspaceKey(env: Env, x: Session, key: Key, s: Settings, sigs: Signals)
    requires env.Contract() && Plainly(x, key, sigs) && (key.action.Backspace? || key.action.Delete?)
    ensures var y := After(env, x, key, s, sigs);
            if |x.client.rawInput| > 1 then y == DoRemove(env, x.(phase := Composing), QUIET)
            else ClosedOn(y, DoRemove(env, x.(phase := Idle), QUIET))
  {
    if |x.client.rawInput| > 1 {
      var p := Plan(Composing, [RemoveText]);
      Planned(env, x, key, s, sigs, p);
      OneAction(env, x, p, sigs);
    } else {
      Planned(env, x, key, s, sigs, Plan(Idle, [RemoveText, EndComposition]));
      RemoveThenEnd(env, x, sigs);
    }
  }

  function WholeText(prefix: string, r: Candidates, k: nat): string
    requires k < |r.texts|
  {
    prefix + r.texts[k] + At(r.subTexts, k, "")
  }

  /** Escape does not throw the text away: it deletes one character and commits all that is left. */
  lemma EscapeKey(env: Env, x: Session, key: Key, s: Settings, sigs: Signals)
    requires env.Contract() && Plainly(x, key, sigs) && key.action.Escape?
    ensures var y := After(env, x, key, s, sigs);
            var left := env.full(env.deleted(x.server.text));
            && ClosedOn(y, DoRemove(env, x.(phase := Idle), QUIET))
            && (left.texts == [] ==> y.document == x.document + x.client.fixedPrefix)
            && (left.texts != [] ==>
                  exists k: nat ::
                    (k < |left.texts| && y.document == x.document + WholeText(x.client.fixedPrefix, left, k)))
  {
    Planned(env, x, key, s, sigs, Plan(Idle, [RemoveText, EndComposition]));
    RemoveThenEnd(env, x, sigs);
    WhatIsLeft(env, x.(phase := Idle));
  }

  lemma WhatIsLeft(env: Env, x: Session)
    requires x.tip
    ensures var d := DoRemove(env, x, QUIET);
            var left := env.full(env.deleted(x.server.text));
            && (left.texts == [] ==> !d.tip && d.document == x.document + x.client.fixedPrefix)
            && (left.texts != [] ==>
                  && d.tip && d.document == x.document
                  && exists k: nat :: (k < |left.texts| && d.shown == WholeText(x.client.fixedPrefix, left, k)))
  {
    var left, d := env.full(env.deleted(x.server.text)), DoRemove(env, x, QUIET);
    if left.texts == [] {
      RemoveCloses(env, x, QUIET);
    } else {
      RemoveShows(env, x, QUIET);
      var k: nat :| k < |left.texts| && Shows(d.client, x.client.fixedPrefix, left, k);
      assert d.shown == WholeText(x.client.fixedPrefix, left, k);
    }
  }

  /** A function key shows its own rendering, and the client is previewing. */
  lemma FunctionKey(env: Env, x: Session, key: Key, s: Settings, sigs: Signals)
    requires env.Contract() && Plainly(x, key, sigs) && key.action.Function?
    ensures After(env, x, key, s, sigs) == DoSetText(env, x.(phase := Previewing), key.action.kind)
  {
    var p := Plan(Previewing, [SetTextWithType(key.action.kind)]);
    Planned(env, x, key, s, sigs, p);
    OneAction(env, x, p, sigs);
  }

  /** The mode keys commit everything and change the mode: the toggle and the off key to latin, the on key to kana. */
  lemma ModeKeys(env: Env, x: Session, key: Key, s: Settings, sigs: Signals)
    requires env.Contract() && Plainly(x, key, sigs)
    requires key.action.ToggleInputMode? || key.action.InputModeOn? || key.action.InputModeOff?
    ensures var y := After(env, x, key, s, sigs);
            Left(y, x) && y.mode == if key.action.InputModeOn? then Kana else Latin
  {
    var mode := if key.action.InputModeOn? then Kana else Latin;
    Planned(env, x, key, s, sigs, Plan(Idle, [EndComposition, SetIMEMode(mode)]));
    ModeRun(env, x, mode, sigs);
  }

  lemma ModeRun(env: Env, x: Session, mode: InputMode, sigs: Signals)
    requires env.Contract() && x.tip
    ensures var y := HandleActions(env, x, Plan(Idle, [EndComposition, SetIMEMode(mode)]), sigs);
            Left(y, x) && y.mode == mode
  {
    TwoActions(env, x, Plan(Idle, [EndComposition, SetIMEMode(mode)]), sigs);
  }

  /* ----- typing ----- */

  /** The text a character key types: kana input reads capital letters as small ones. */
  function Typed(x: Session, ch: char): string {
    if x.mode == Kana && 'A' <= ch <= 'Z' then [Lower(ch)] else [ch]
  }

  /** A character typed while composing is appended; typed while previewing it commits what is there and starts a
      new composition. */
  lemma CharacterKey(env: Env, x: Session, key: Key, s: Settings, sigs: Signals)
    requires env.Contract() && Plainly(x, key, sigs) && key.action.Input?
    requires !PunctuationCommits(key.action, SituationOf(x), s)
    ensures After(env, x, key, s, sigs)
         == DoAppend(env, if x.phase == Composing then x else DoEnd(x).(tip := true, shown := "", phase := Composing),
                     Typed(x, key.action.ch), Resolved, QUIET)
  {
    var a := AppendText(Typed(x, key.action.ch), Resolved);
    if x.phase == Composing {
      var p := Plan(Composing, [a]);
      Planned(env, x, key, s, sigs, p);
      OneAction(env, x, p, sigs);
    } else {
      var p := Plan(Composing, [EndComposition, StartComposition, a]);
      assert [EndComposition, StartComposition] + [] + [a] == p.actions;
      Planned(env, x, key, s, sigs, p);
      CommitThenType(env, x, p, a, sigs);
    }
  }

  lemma CommitThenType(env: Env, x: Session, p: Plan, a: ClientAction, sigs: Signals)
    requires env.Contract() && p == Plan(Composing, [EndComposition, StartComposition, a]) && a.AppendText?
    requires forall k :: sigs(k) == QUIET
    ensures HandleActions(env, x, p, sigs)
         == DoAppend(env, DoEnd(x).(tip := true, shown := "", phase := Composing), a.text, a.style, QUIET)
  {
    var e := Exec(x.(phase := Composing), false);
    var closed := Exec(DoEnd(e.session), false);
    var begun := Exec(closed.session.(tip := true, shown := ""), false);
    ExecuteNext(env, e, p.actions, 0, sigs);
    ExecuteNext(env, closed, p.actions, 1, sigs);
    ExecuteNext(env, begun, p.actions, 2, sigs);
  }

  /** With nothing composed a character in kana mode opens a composition and is appended to it. */
  lemma FirstCharacterKey(env: Env, x: Session, key: Key, s: Settings, sigs: Signals)
    requires env.Contract() && key.action.Input? && x.phase == Idle && !x.tip && x.mode == Kana && !x.temporaryLatin
    requires !x.shiftPending && !key.latinShortcut && forall k :: sigs(k) == QUIET
    ensures After(env, x, key, s, sigs)
         == DoAppend(env, x.(tip := true, shown := "", phase := Composing), Typed(x, key.action.ch), Resolved, QUIET)
  {
    var a := AppendText(Typed(x, key.action.ch), Resolved);
    var p := Plan(Composing, [StartComposition, a]);
    assert [] + [] + p.actions == p.actions;
    assert PlanOf(x, KeyDown(key), s) == Some(p);
    TwoActions(env, x, p, sigs);
  }

  /* ----- punctuation ----- */

  /** The mark commits by itself: the settings say so and no romaji rule goes on with it after what was typed. */
  predicate Marks(x: Session, mark: char, s: Settings) {
    && s.punctuationCommit && x.mode == Kana && !HasMultiCharacterContext(s.lookup, x.client.rawInput, mark)
    && ((s.punctuation && mark in [',', '.', '\U{3001}', '\U{3002}', '\U{FF0C}', '\U{FF0E}'])
        || (s.exclamation && mark in ['!', '\U{FF01}']) || (s.question && mark in ['?', '\U{FF1F}']))
  }

  /** The number pad types half-width characters unless it follows the input mode; then full-width ones. */
  function PadText(c: char, mode: NumpadMode): string {
    if mode.FollowInputMode? then [ToFullwidth(c)] else [ToHalfwidth(c)]
  }

  lemma MarkRun(env: Env, x: Session, text: string, sigs: Signals)
    requires env.Contract() && x.tip
    ensures var y := HandleActions(env, x, Plan(Idle, [EndComposition, CommitTextDirect(text)]), sigs);
            && !y.tip && y.phase == Idle && y.document == x.document + x.shown + text && y.server == EMPTY_SERVER
            && y.client == EMPTY_CLIENT.(candidates := x.client.candidates) && y.stray == x.stray
  {
    TwoActions(env, x, Plan(Idle, [EndComposition, CommitTextDirect(text)]), sigs);
  }

  /** Such a mark commits what is shown and then itself. */
  lemma PunctuationKey(env: Env, x: Session, key: Key, s: Settings, sigs: Signals)
    requires env.Contract() && Plainly(x, key, sigs)
    requires (key.action.Input? && Marks(x, key.action.ch, s))
      || (key.action.NumpadSymbol? && Marks(x, key.action.symbol, s))
    ensures var y := After(env, x, key, s, sigs);
            var text :=
              if key.action.Input? then s.punctuationText(key.action.ch) else PadText(key.action.symbol, s.numpad);
            && !y.tip && y.phase == Idle && y.document == x.document + x.shown + text && y.server == EMPTY_SERVER
            && y.client == EMPTY_CLIENT.(candidates := x.client.candidates) && y.stray == x.stray
  {
    var text := if key.action.Input? then s.punctuationText(key.action.ch) else PadText(key.action.symbol, s.numpad);
    Planned(env, x, key, s, sigs, Plan(Idle, [EndComposition, CommitTextDirect(text)]));
    MarkRun(env, x, text, sigs);
  }

  /* ----- numbers ----- */

  /** A digit is typed as it is; one of the number pad, or a symbol of it, takes its width from the setting and is
      not resolved against what was typed before. */
  lemma NumberKey(env: Env, x: Session, key: Key, s: Settings, sigs: Signals)
    requires env.Contract() && Plainly(x, key, sigs) && x.phase == Composing && x.mode == Kana
    requires key.action.Digit? || (key.action.NumpadSymbol? && !Marks(x, key.action.symbol, s))
    ensures After(env, x, key, s, sigs)
         == if key.action.Digit? && !key.action.numpad then DoAppend(env, x, [key.action.digit], Resolved, QUIET)
            else DoAppend(env, x, PadText(if key.action.Digit? then key.action.digit else key.action.symbol, s.numpad),
                          Raw, QUIET)
  {
    var typed := if key.action.Digit? && !key.action.numpad then AppendText([key.action.digit], Resolved)
                 else AppendText(PadText(if key.action.Digit? then key.action.digit else key.action.symbol, s.numpad),
                                 Raw);
    Planned(env, x, key, s, sigs, Plan(Composing, [typed]));
    OneAction(env, x, Plan(Composing, [typed]), sigs);
  }

  /** With nothing composed the number pad either passes its keys through or opens a composition with them. */
  lemma FirstNumberKey(env: Env, x: Session, key: Key, s: Settings, sigs: Signals)
    requires env.Contract() && x.phase == Idle && !x.tip && x.mode == Kana && !x.temporaryLatin
    requires !x.shiftPending && !key.latinShortcut && forall k :: sigs(k) == QUIET
    requires key.action.NumpadSymbol? || (key.action.Digit? && key.action.numpad)
    ensures var c := if key.action.Digit? then key.action.digit else key.action.symbol;
            After(env, x, key, s, sigs)
              == if s.numpad.DirectInput? then x
                 else DoAppend(env, x.(tip := true, shown := "", phase := Composing), PadText(c, s.numpad), Raw, QUIET)
  {
    var c := if key.action.Digit? then key.action.digit else key.action.symbol;
    FirstNumberPlan(x, key, s, c);
    if !s.numpad.DirectInput? {
      TwoActions(env, x, Plan(Composing, [StartComposition, AppendText(PadText(c, s.numpad), Raw)]), sigs);
    }
  }

  lemma FirstNumberPlan(x: Session, key: Key, s: Settings, c: char)
    requires x.phase == Idle && x.mode == Kana && !x.temporaryLatin && !x.shiftPending && !key.latinShortcut
    requires key.action == NumpadSymbol(c) || key.action == Digit(c, true)
    ensures PlanOf(x, KeyDown(key), s)
         == if s.numpad.DirectInput? then None
            else Some(Plan(Composing, [StartComposition, AppendText(PadText(c, s.numpad), Raw)]))
  {
    var p := Plan(Composing, [StartComposition, AppendText(PadText(c, s.numpad), Raw)]);
    assert [] + [] + p.actions == p.actions;
  }

  /** A space with nothing composed is typed and committed at once, half-width as the setting says, or the other way
      round with shift. */
  lemma FirstSpaceKey(env: Env, x: Session, key: Key, s: Settings, sigs: Signals)
    requires env.Contract() && key.action.Space? && x.phase == Idle && !x.tip && x.mode == Kana && !x.temporaryLatin
    requires !x.shiftPending && !key.latinShortcut && forall k :: sigs(k) == QUIET
    ensures var space := if key.shift then (if s.alwaysHalfSpace then "\U{3000}" else " ")
                         else (if s.alwaysHalfSpace then " " else "\U{3000}");
            After(env, x, key, s, sigs)
              == DoEnd(DoAppend(env, x.(tip := true, shown := ""), space, Resolved, QUIET))
  {
    var space := if s.alwaysHalfSpace != key.shift then " " else "\U{3000}";
    FirstSpacePlan(x, key, s, space);
    SpaceThenEnd(env, x, space, sigs);
  }

  lemma FirstSpacePlan(x: Session, key: Key, s: Settings, space: string)
    requires key.action.Space? && x.phase == Idle && x.mode == Kana && !x.temporaryLatin && !x.shiftPending
    requires !key.latinShortcut && space == if s.alwaysHalfSpace != key.shift then " " else "\U{3000}"
    ensures PlanOf(x, KeyDown(key), s)
         == Some(Plan(Idle, [StartComposition, AppendText(space, Resolved), EndComposition]))
  {
    var p := Plan(Idle, [StartComposition, AppendText(space, Resolved), EndComposition]);
    assert [] + [] + p.actions == p.actions;
  }

  lemma SpaceThenEnd(env: Env, x: Session, space: string, sigs: Signals)
    requires env.Contract() && x.phase == Idle && !x.tip && forall k :: sigs(k) == QUIET
    ensures HandleActions(env, x, Plan(Idle, [StartComposition, AppendText(space, Resolved), EndComposition]), sigs)
         == DoEnd(DoAppend(env, x.(tip := true, shown := ""), space, Resolved, QUIET))
  {
    var actions := [StartComposition, AppendText(space, Resolved), EndComposition];
    var e := Exec(x, false);
    var begun := Exec(x.(tip := true, shown := ""), false);
    var typed := Exec(DoAppend(env, begun.session, space, Resolved, QUIET), false);
    ExecuteNext(env, e, actions, 0, sigs);
    ExecuteNext(env, begun, actions, 1, sigs);
    ExecuteNext(env, typed, actions, 2, sigs);
  }

  /* ----- temporary latin ----- */

  /** The shortcut into temporary latin types its character as it is.  An unfinished n, shown as a syllable of its
      own with no raw input behind it, is first committed. */
  lemma LatinShortcutKey(env: Env, x: Session, key: Key, s: Settings, sigs: Signals)
    requires env.Contract() && x.phase == Composing && x.tip && !x.temporaryLatin && !x.shiftPending && x.mode == Kana
    requires key.latinShortcut && key.action.Input? && forall k :: sigs(k) == QUIET
    ensures var text := [s.directSymbol(key.action.ch)];
            var latin := x.(temporaryLatin := true);
            var raw, reading, n := x.client.rawInput, x.client.rawHiragana, x.client.count;
            After(env, x, key, s, sigs)
              == if raw != "" && raw[|raw| - 1] == 'n' && reading != "" && reading[|reading| - 1] == '\U{3093}'
                    && n >= |raw|
                 then LatinCut(env, x, text)
                 else DoAppend(env, latin, text, Direct, QUIET)
  {
    var text := [s.directSymbol(key.action.ch)];
    LastLetter(x.client.rawInput, "n");
    LastLetter(x.client.rawHiragana, "\U{3093}");
    var a := if ShrinksBeforeDirect(x.client, true) then ShrinkText(text, Direct) else AppendText(text, Direct);
    LatinPlan(x, key, s, a);
    LatinRun(env, x, a, sigs);
  }

  lemma LatinPlan(x: Session, key: Key, s: Settings, a: ClientAction)
    requires x.phase == Composing && !x.temporaryLatin && !x.shiftPending && x.mode == Kana
    requires key.latinShortcut && key.action.Input?
    requires var text := [s.directSymbol(key.action.ch)];
             a == if ShrinksBeforeDirect(x.client, true) then ShrinkText(text, Direct) else AppendText(text, Direct)
    ensures PlanOf(x, KeyDown(key), s) == Some(Plan(Composing, [SetTemporaryLatin(true), a]))
  {
    var p := Plan(Composing, [SetTemporaryLatin(true), a]);
    assert [SetTemporaryLatin(true)] + [a] == p.actions;
    assert [] + [] + p.actions == p.actions;
  }

  function LatinCut(env: Env, x: Session, text: string): Session {
    var cut := DoShrink(env, x.(temporaryLatin := true), text, Direct, QUIET);
    if cut.Some? then cut.value else Recovered(x)
  }

  lemma LastLetter(s: string, letter: string)
    requires |letter| == 1
    ensures EndsWith(s, letter) <==> s != "" && s[|s| - 1] == letter[0]
  {
  }

  lemma LatinRun(env: Env, x: Session, a: ClientAction, sigs: Signals)
    requires env.Contract() && x.phase == Composing && !x.shiftPending && forall k :: sigs(k) == QUIET
    requires (a.ShrinkText? || a.AppendText?) && a.style == Direct
    ensures HandleActions(env, x, Plan(Composing, [SetTemporaryLatin(true), a]), sigs)
         == if a.ShrinkText? then LatinCut(env, x, a.text)
            else DoAppend(env, x.(temporaryLatin := true), a.text, Direct, QUIET)
  {
    TwoActions(env, x, Plan(Composing, [SetTemporaryLatin(true), a]), sigs);
  }

  /** In temporary latin every character typed while composing is appended as it is. */
  lemma LatinCharacterKey(env: Env, x: Session, key: Key, s: Settings, sigs: Signals)
    requires env.Contract() && x.phase == Composing && x.tip && x.temporaryLatin && !x.shiftPending
    requires key.action.Input? && !key.isShift && forall k :: sigs(k) == QUIET
    ensures After(env, x, key, s, sigs) == DoAppend(env, x, [s.directSymbol(key.action.ch)], Direct, QUIET)
  {
    var p := Plan(Composing, [AppendText([s.directSymbol(key.action.ch)], Direct)]);
    assert [] + p.actions == p.actions && [] + [] + p.actions == p.actions;
    assert PlanOf(x, KeyDown(key), s) == Some(p);
    OneAction(env, x, p, sigs);
  }

  /** Shift pressed and released with no key between leaves temporary latin. */
  lemma ShiftLeavesLatin(env: Env, x: Session, key: Key, s: Settings, sigs: Signals)
    requires env.Contract() && x.temporaryLatin && key.isShift
    ensures var y := After(env, x, key, s, sigs);
            y == x.(shiftPending := true)
            && Handle(env, y, ShiftUp, s, sigs) == x.(temporaryLatin := false, shiftPending := false)
  {
    var press := Plan(x.phase, [SetTemporaryLatinShiftPending(true)]);
    OneAction(env, x, press, sigs);
    var y := x.(shiftPending := true);
    var release := Plan(x.phase, [SetTemporaryLatin(false), SetTemporaryLatinShiftPending(false)]);
    assert [SetTemporaryLatin(false)] + [SetTemporaryLatinShiftPending(false)] == release.actions;
    TwoActions(env, y, release, sigs);
  }

  /* ----- the list without the flag in front ----- */

  lemma SameAction(env: Env, e: Exec, flag: ClientAction, rest: seq<ClientAction>, i: nat, sigs: Signals)
    requires env.Contract() && i < |rest| && forall k :: sigs(k) == QUIET
    ensures ExecuteAt(env, e, [flag] + rest, i + 1, sigs) == ExecuteAt(env, e, rest, i, sigs)
  {
    var actions := [flag] + rest;
    var next := if i + 1 < |rest| then Some(rest[i + 1]) else None;
    assert actions[i + 1] == rest[i];
    assert (if i + 2 < |actions| then Some(actions[i + 2]) else None) == next;
    assert sigs(i) == sigs(i + 1);
  }

  lemma {:induction false} ShiftedList(env: Env, e: Exec, flag: ClientAction, rest: seq<ClientAction>, i: nat,
                                       sigs: Signals)
    requires env.Contract() && i <= |rest| && forall k :: sigs(k) == QUIET
    ensures ExecuteFrom(env, e, [flag] + rest, i + 1, sigs) == ExecuteFrom(env, e, rest, i, sigs)
    decreases |rest| - i
  {
    if i < |rest| {
      SameAction(env, e, flag, rest, i, sigs);
      ExecuteNext(env, e, [flag] + rest, i + 1, sigs);
      ExecuteNext(env, e, rest, i, sigs);
      var r := ExecuteAt(env, e, rest, i, sigs);
      if r.Ran? {
        ShiftedList(env, r.exec, flag, rest, i + 1, sigs);
      }
    }
  }

  /** Temporary latin only changes what is typed: a key that confirms does the same in it as out of it. */
  lemma ConfirmInLatin(env: Env, x: Session, key: Key, s: Settings, sigs: Signals)
    requires env.Contract() && (x.phase == Composing || x.phase == Previewing) && x.temporaryLatin && !x.shiftPending
    requires (key.action.Enter? || key.action.CommitAndNextClause? || key.action.CommitFirstClause?)
    requires !key.isShift && !key.latinShortcut && forall k :: sigs(k) == QUIET
    ensures After(env, x, key, s, sigs) == After(env, x.(temporaryLatin := false), key, s, sigs)
  {
    var plain := x.(temporaryLatin := false);
    var p := PlanCommon(key.action, SituationOf(plain), s).value;
    SamePlan(x, key.action, s);
    assert [] + [SetTemporaryLatin(false)] + p.actions == [SetTemporaryLatin(false)] + p.actions;
    assert [] + [] + p.actions == p.actions;
    assert PlanOf(plain, KeyDown(key), s) == Some(p);
    assert PlanOf(x, KeyDown(key), s) == Some(Plan(p.phase, [SetTemporaryLatin(false)] + p.actions));
    FlagDropped(env, x, p, sigs);
  }

  lemma SamePlan(x: Session, a: UserAction, s: Settings)
    requires a.Enter? || a.CommitAndNextClause? || a.CommitFirstClause?
    ensures PlanCommon(a, SituationOf(x), s) == PlanCommon(a, SituationOf(x.(temporaryLatin := false)), s)
    ensures PlanCommon(a, SituationOf(x), s).Some?
  {
  }

  lemma FlagDropped(env: Env, x: Session, p: Plan, sigs: Signals)
    requires env.Contract() && x.temporaryLatin && !x.shiftPending && forall k :: sigs(k) == QUIET
    ensures HandleActions(env, x, Plan(p.phase, [SetTemporaryLatin(false)] + p.actions), sigs)
         == HandleActions(env, x.(temporaryLatin := false), p, sigs)
  {
    var actions := [SetTemporaryLatin(false)] + p.actions;
    var e := Exec(x.(phase := p.phase), false);
    ExecuteNext(env, e, actions, 0, sigs);
    ShiftedList(env, Exec(e.session.(temporaryLatin := false), false), SetTemporaryLatin(false), p.actions, 0, sigs);
  }

  /* ----- outside the keys ----- */

  /** The mode button changes the mode and nothing that is seen, and does nothing while a composition is open. */
  lemma LanguageBarButton(env: Env, x: Session, s: Settings, sigs: Signals)
    requires env.Contract()
    ensures var y := Handle(env, x, LanguageBarToggle, s, sigs);
            if x.tip then y == x
            else y.mode == (if x.mode == Kana then Latin else Kana) && y.phase == Idle && !y.tip
                 && y.document == x.document && y.stray == x.stray
                 && y.client == EMPTY_CLIENT.(candidates := x.client.candidates)
  {
  }

  /** Ended from outside, or with the focus gone, what is shown is committed; in a context where the keyboard is
      disabled it is taken back. */
  lemma EndedOutside(env: Env, x: Session, ev: Event, s: Settings, sigs: Signals)
    requires env.Contract() && x.tip && (ev.Terminated? || ev.FocusChanged? || ev.Disabled?)
    ensures var y := Handle(env, x, ev, s, sigs);
            && !y.tip && y.phase == Idle && y.server == EMPTY_SERVER && y.client.rawInput == ""
            && y.client.preview == "" && y.document == if ev.Disabled? then x.document else x.document + x.shown
  {
  }
}
