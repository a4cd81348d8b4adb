/** What the user sees: the open composition's text is the clause on display and its remainder, after every event. */
module Display {
  import opened Text
  import opened DelayedN
  import opened Clauses
  import opened ConversionServer
  import opened ClauseTransitions
  import opened ClauseTheorems
  import opened Actions
  import opened Interpreter
  import opened TipInvariants
  import opened Runs
  import opened Effects

  /** An open composition shows the clause on display and its remainder; unless `strict`, just after a clause has
      been cut off, perhaps the clause alone. */
  ghost predicate ShowsAll(x: Session, strict: bool) {
    x.tip ==> x.shown == Displayed(x.client) || (!strict && x.shown == x.client.preview)
  }

  /** The same in the middle of a list, where a display update may be put off; a closed composition has left
      nothing to show. */
  ghost predicate Kept(e: Exec, m: Mood, strict: bool) {
    && (!e.deferred ==> ShowsAll(e.session, strict))
    && (!e.session.tip && (e.session.phase == Idle || m == Shut || m == ShutBusy) ==> Displayed(e.session.client) == "")
  }

  ghost predicate Waits(e: Exec, next: Option<ClientAction>) {
    e.deferred && e.session.tip ==> next == Some(MoveClause(ToLast))
  }

  /* ----- text ----- */

  lemma ReceivedShows(x: Session, typed: string, candidates: Candidates, strict: bool)
    requires x.tip && ShowsAll(x, strict)
    ensures var y := Received(x, typed, candidates); ShowsAll(y, strict) && (!y.tip ==> Displayed(y.client) == "")
  {
  }

  lemma AppendKept(env: Env, x: Session, text: string, style: Style, sig: Signal, strict: bool)
    requires x.tip && ShowsAll(x, strict)
    ensures var y := DoAppend(env, x, text, style, sig); ShowsAll(y, strict) && (!y.tip ==> Displayed(y.client) == "")
  {
    var cleared := ClearedCaches(x);
    var typed := TextOf(env, x, x.client.rawInput, text, style);
    var reply := AppendRpc(env, cleared.server, typed, style == Direct);
    var y := Renewed(cleared, Stale(cleared, typed, reply.candidates, sig));
    ReceivedShows(y.(server := reply.server), typed, reply.candidates, strict);
  }

  lemma RemoveKept(env: Env, x: Session, sig: Signal, strict: bool)
    requires x.tip && ShowsAll(x, strict)
    ensures var y := DoRemove(env, x, sig); ShowsAll(y, strict) && (!y.tip ==> Displayed(y.client) == "")
  {
  }

  lemma RegrownShows(x: Session, shrunkRaw: string, text: string, typed: string, restart: bool, reply: Reply)
    requires ShowsAll(x, false) && (!x.tip ==> Displayed(x.client) == "")
    ensures var y := Regrown(x, shrunkRaw, text, typed, restart, reply);
            ShowsAll(y, false) && (!y.tip && y.phase == Idle ==> Displayed(y.client) == "")
  {
  }

  lemma ShrinkKept(env: Env, x: Session, text: string, style: Style, sig: Signal)
    requires ShowsAll(x, false) && (!x.tip ==> Displayed(x.client) == "")
    ensures var y := DoShrink(env, x, text, style, sig);
            y.Some? ==>
              ShowsAll(y.value, false) && (!y.value.tip && y.value.phase == Idle ==> Displayed(y.value.client) == "")
  {
    var cleared := PrefixForgotten(x);
    var cut := CutOff(env, cleared, sig);
    if cut.Some? {
      var shrunkRaw := RawInputSuffix(cleared.client.rawInput, cleared.client.count);
      var typed := TextOf(env, x, shrunkRaw, text, style);
      var y := cleared.(server := cut.value.1);
      RegrownShows(y, shrunkRaw, text, typed, cut.value.0, AppendRpc(env, y.server, typed, style == Direct));
    }
  }

  lemma TextKept(env: Env, e: Exec, a: ClientAction, next: Option<ClientAction>, sig: Signal, m: Mood, strict: bool)
    requires env.Contract() && InMood(e, m) && Kept(e, m, strict) && After(m, a).Some? && Waits(e, Some(a))
    requires EditsText(a) && (strict ==> !a.ShrinkText?)
    ensures var r := Execute(env, e, a, next, sig);
            r.Ran? ==> Kept(r.exec, After(m, a).value, strict) && Waits(r.exec, next)
  {
    match a {
      case AppendText(text, style) => AppendKept(env, e.session, text, style, sig, strict);
      case RemoveText => RemoveKept(env, e.session, sig, strict);
      case ShrinkText(text, style) => ShrinkKept(env, e.session, text, style, sig);
      case SetTextWithType(kind) =>
    }
  }

  /* ----- clauses ----- */

  /** A command that does not apply leaves what is displayed alone. */
  ghost predicate SkipKeeps(c: Client, m: Step) {
    m.Step? && m.effect.Skipped? ==> m.client.preview == c.preview && m.client.suffix == c.suffix
  }

  lemma RightSkips(env: Env, c: Client, s: ServerState)
    requires env.Contract()
    ensures SkipKeeps(c, MoveRight(env, c, s))
  {
  }

  lemma ToLastSkips(env: Env, c: Client, s: ServerState)
    requires env.Contract()
    ensures SkipKeeps(c, MoveToLast(env, c, s))
  {
    var m := MoveRight(env, c, s);
    RightSkips(env, c, s);
    if m.Step? && m.effect.Applied? {
      if SameProgress(c, m.client) {
        NoProgressNoChange(env, c, s);
      } else if m.client.suffix != "" {
        MoveRightMeasure(env, c, s);
        OnceMoved(env, m.client, m.server);
      }
    }
  }

  lemma {:induction false} OnceMoved(env: Env, c: Client, s: ServerState)
    requires env.Contract()
    ensures var m := MoveToLastFrom(env, c, s, true); m.Step? ==> !m.effect.Skipped?
    decreases InputLeft(s), |c.future|, StuckCount(c)
  {
    var m := MoveRight(env, c, s);
    if m.Step? && m.effect.Applied? && !SameProgress(c, m.client) && m.client.suffix != "" {
      MoveRightMeasure(env, c, s);
      OnceMoved(env, m.client, m.server);
    }
  }

  lemma MoveSkips(env: Env, c: Client, s: ServerState, d: Direction)
    requires env.Contract()
    ensures SkipKeeps(c, MoveStep(env, c, s, d))
  {
    match d {
      case Left =>
      case Right => RightSkips(env, c, s);
      case ToLast => ToLastSkips(env, c, s);
    }
  }

  lemma StartSkips(env: Env, c: Client, s: ServerState)
    requires env.Contract()
    ensures SkipKeeps(c, StartNavigation(env, c, s))
  {
  }

  lemma AdjustSkips(env: Env, c: Client, s: ServerState, step: int)
    ensures SkipKeeps(c, ClauseTransitions.AdjustBoundary(env, c, s, step))
  {
  }

  lemma ReadyKept(x: Session, m: Step, next: Option<ClientAction>, strict: bool)
    requires x.tip && ShowsAll(x, strict) && SkipKeeps(x.client, m)
    ensures var y := AfterEnsure(x, m, next, false);
            y.Some? ==>
              (&& (!y.value.deferred ==> ShowsAll(y.value.session, strict)) && Waits(y.value, next)
               && (!y.value.session.tip ==> Displayed(y.value.session.client) == ""))
  {
  }

  lemma MovedKept(x: Session, m: Step, deferred: bool, strict: bool)
    requires x.tip && (!deferred ==> ShowsAll(x, strict)) && SkipKeeps(x.client, m)
    ensures var y := AfterMove(x, m, deferred);
            y.Some? ==>
              (&& !y.value.deferred && ShowsAll(y.value.session, strict)
               && (!y.value.session.tip ==> Displayed(y.value.session.client) == ""))
  {
  }

  lemma EditedKept(x: Session, m: Step, sig: Signal, strict: bool)
    requires x.tip && ShowsAll(x, strict) && SkipKeeps(x.client, m)
    ensures var y := AfterAdjust(x, m, sig);
            y.Some? ==> ShowsAll(y.value, strict) && (!y.value.tip ==> Displayed(y.value.client) == "")
  {
  }

  lemma EnsureKept(env: Env, e: Exec, next: Option<ClientAction>, sig: Signal, strict: bool)
    requires env.Contract() && e.session.tip && !e.deferred && ShowsAll(e.session, strict)
    ensures var y := DoEnsure(env, e.session, next, e.deferred, sig);
            y.Some? ==>
              (&& (!y.value.deferred ==> ShowsAll(y.value.session, strict)) && Waits(y.value, next)
               && (!y.value.session.tip ==> Displayed(y.value.session.client) == ""))
  {
    StartSkips(env, e.session.client, e.session.server);
    ReadyKept(e.session, StartNavigation(env, e.session.client, e.session.server), next, strict);
  }

  lemma MoveKept(env: Env, e: Exec, d: Direction, sig: Signal, strict: bool)
    requires env.Contract() && (e.session.tip || (IsGone(e.session) && !e.deferred))
    requires !e.deferred ==> ShowsAll(e.session, strict)
    ensures var y := DoMove(env, e.session, d, e.deferred, sig);
            y.Some? ==>
              (&& ShowsAll(y.value.session, strict) && (y.value.deferred ==> !y.value.session.tip)
               && (!y.value.session.tip ==> Displayed(y.value.session.client) == ""))
  {
    if e.session.tip {
      MoveSkips(env, e.session.client, e.session.server, d);
      MovedKept(e.session, MoveStep(env, e.session.client, e.session.server, d), e.deferred, strict);
    } else {
      MoveGone(env, d);
    }
  }

  lemma AdjustKept(env: Env, x: Session, step: int, sig: Signal, strict: bool)
    requires env.Contract() && x.tip && ShowsAll(x, strict)
    ensures var y := DoAdjust(env, x, step, sig);
            y.Some? ==> ShowsAll(y.value, strict) && (!y.value.tip ==> Displayed(y.value.client) == "")
  {
    AdjustSkips(env, x.client, x.server, step);
    EditedKept(x, ClauseTransitions.AdjustBoundary(env, x.client, x.server, step), sig, strict);
  }

  lemma SelectKept(x: Session, kind: SetSelectionType, strict: bool)
    requires x.tip && ShowsAll(x, strict)
    ensures DoSelect(x, kind).tip && ShowsAll(DoSelect(x, kind), strict)
  {
  }

  lemma ClauseKept(env: Env, e: Exec, a: ClientAction, next: Option<ClientAction>, sig: Signal, m: Mood, strict: bool)
    requires env.Contract() && InMood(e, m) && Kept(e, m, strict) && After(m, a).Some? && Waits(e, Some(a))
    requires EditsClauses(a)
    ensures var r := Execute(env, e, a, next, sig);
            r.Ran? ==> Kept(r.exec, After(m, a).value, strict) && Waits(r.exec, next)
  {
    match a {
      case EnsureClauseNavigationReady => EnsureKept(env, e, next, sig, strict);
      case MoveClause(d) => MoveKept(env, e, d, sig, strict);
      case AdjustBoundary(step) => AdjustKept(env, e.session, step, sig, strict);
      case SetSelection(kind) => SelectKept(e.session, kind, strict);
    }
  }

  lemma FrameKept(env: Env, e: Exec, a: ClientAction, next: Option<ClientAction>, sig: Signal, m: Mood, strict: bool)
    requires env.Contract() && InMood(e, m) && Kept(e, m, strict) && After(m, a).Some? && Waits(e, Some(a))
    requires !EditsText(a) && !EditsClauses(a)
    ensures var r := Execute(env, e, a, next, sig);
            r.Ran? ==> Kept(r.exec, After(m, a).value, strict) && Waits(r.exec, next)
  {
  }

  lemma ActionKept(env: Env, e: Exec, a: ClientAction, next: Option<ClientAction>, sig: Signal, m: Mood, strict: bool)
    requires env.Contract() && InMood(e, m) && Kept(e, m, strict) && After(m, a).Some? && Waits(e, Some(a))
    requires strict ==> !a.ShrinkText?
    ensures var r := Execute(env, e, a, next, sig);
            r.Ran? ==> Kept(r.exec, After(m, a).value, strict) && Waits(r.exec, next)
  {
    if EditsText(a) {
      TextKept(env, e, a, next, sig, m, strict);
    } else if EditsClauses(a) {
      ClauseKept(env, e, a, next, sig, m, strict);
    } else {
      FrameKept(env, e, a, next, sig, m, strict);
    }
  }

  /* ----- lists ----- */

  predicate CutsNothing(actions: seq<ClientAction>) {
    forall i :: 0 <= i < |actions| ==> !actions[i].ShrinkText?
  }

  /** What is kept before the action at `i` and after the last one. */
  ghost predicate KeptAt(e: Exec, actions: seq<ClientAction>, i: nat, m: Mood, strict: bool) {
    InMood(e, m) && Kept(e, m, strict) && Waits(e, if i < |actions| then Some(actions[i]) else None)
  }

  lemma StepKept(env: Env, e: Exec, actions: seq<ClientAction>, i: nat, sigs: Signals, m: Mood, strict: bool)
    requires env.Contract() && i < |actions| && KeptAt(e, actions, i, m, strict) && After(m, actions[i]).Some?
    requires strict ==> !actions[i].ShrinkText?
    ensures var r := ExecuteAt(env, e, actions, i, sigs);
            r.Ran? ==> KeptAt(r.exec, actions, i + 1, After(m, actions[i]).value, strict)
  {
    var next := if i + 1 < |actions| then Some(actions[i + 1]) else None;
    AfterSound(env, e, actions[i], next, sigs(i), m);
    ActionKept(env, e, actions[i], next, sigs(i), m, strict);
  }

  lemma {:induction false} ListKept(env: Env, e: Exec, actions: seq<ClientAction>, i: nat, sigs: Signals, m: Mood,
                                    strict: bool)
    requires env.Contract() && i <= |actions| && Judge(m, actions, i).Some? && KeptAt(e, actions, i, m, strict)
    requires strict ==> CutsNothing(actions)
    ensures var r := ExecuteFrom(env, e, actions, i, sigs);
            r.Ran? ==> KeptAt(r.exec, actions, |actions|, Judge(m, actions, i).value, strict)
    decreases |actions| - i
  {
    if i < |actions| {
      StepKept(env, e, actions, i, sigs, m, strict);
      ExecuteNext(env, e, actions, i, sigs);
      var r := ExecuteAt(env, e, actions, i, sigs);
      if r.Ran? {
        ListKept(env, r.exec, actions, i + 1, sigs, After(m, actions[i]).value, strict);
      }
    }
  }

  /* ----- events ----- */

  /** The composition shows what is displayed, and with nothing composed there is nothing to display. */
  ghost predicate DisplayOk(x: Session, strict: bool) {
    ShowsAll(x, strict) && (x.phase == Idle ==> Displayed(x.client) == "")
  }

  lemma FinishedKept(x: Session, r: Ran, m: Mood, strict: bool)
    requires Accepting(m)
    requires r.Ran? ==> InMood(r.exec, m) && Kept(r.exec, m, strict) && Waits(r.exec, None)
    ensures DisplayOk(Finished(x, r), strict)
  {
  }

  lemma PlanDisplays(env: Env, x: Session, p: Plan, sigs: Signals, strict: bool)
    requires env.Contract() && TipOk(x) && Judged(Start(x, p), p.actions) && DisplayOk(x, strict)
    requires strict ==> CutsNothing(p.actions)
    ensures DisplayOk(HandleActions(env, x, p, sigs), strict)
  {
    var e, m := Exec(x.(phase := p.phase), false), Start(x, p);
    JudgeSound(env, e, p.actions, 0, sigs, m);
    ListKept(env, e, p.actions, 0, sigs, m, strict);
    FinishedKept(x, ExecuteFrom(env, e, p.actions, 0, sigs), Judge(m, p.actions, 0).value, strict);
  }

  lemma FlagsDisplay(env: Env, x: Session, actions: seq<ClientAction>, sigs: Signals, strict: bool)
    requires env.Contract() && TipOk(x) && DisplayOk(x, strict)
    requires forall k :: 0 <= k < |actions| ==> Neutral(actions[k])
    ensures DisplayOk(HandleActions(env, x, Plan(x.phase, actions), sigs), strict)
  {
    var p := Plan(x.phase, actions);
    JudgeNeutral(Start(x, p), actions, [], 0);
    assert actions + [] == actions;
    PlanDisplays(env, x, p, sigs, strict);
  }

  lemma KeyDisplays(env: Env, x: Session, key: Key, s: Settings, sigs: Signals, strict: bool)
    requires env.Contract() && TipOk(x) && DisplayOk(x, strict) && !(x.temporaryLatin && key.isShift)
    requires var p := PlanOf(x, KeyDown(key), s); strict && p.Some? ==> CutsNothing(p.value.actions)
    ensures DisplayOk(Handle(env, x, KeyDown(key), s, sigs), strict)
  {
    KeyHandled(env, x, key, s, sigs);
    var p := PlanFor(key.action, SituationOf(x), key.shift, StartsLatin(x, key), s);
    if p.Some? {
      var w := WithResets(SituationOf(x), key, p.value);
      if x.phase == Idle && IsSpacePlan(p.value) {
        SpaceShape(x, key, s, p.value);
        SpaceHandled(env, x, w, p.value.actions[1].text, sigs);
      } else {
        KeyJudged(x, key, s);
        ResetsAreFlags(SituationOf(x), key, p.value);
        JudgedWithFlags(Start(x, p.value), Flags(SituationOf(x), key, p.value), p.value.actions);
        PlanDisplays(env, x, w, sigs, strict);
      }
    }
  }

  lemma ModeKeyDisplays(env: Env, x: Session, s: Settings, sigs: Signals, strict: bool)
    requires env.Contract() && TipOk(x) && DisplayOk(x, strict)
    requires var p := PlanOf(x, PreservedModeKey, s); strict && p.Some? ==> CutsNothing(p.value.actions)
    ensures DisplayOk(Handle(env, x, PreservedModeKey, s, sigs), strict)
  {
    KeyJudged(x, Key(ToggleInputMode, false, false, false), s);
    var p := PlanFor(ToggleInputMode, SituationOf(x), false, false, s);
    if p.Some? {
      var flags := if x.temporaryLatin then [SetTemporaryLatin(false)] else [];
      JudgedWithFlags(Start(x, p.value), flags, p.value.actions);
      PlanDisplays(env, x, Plan(p.value.phase, flags + p.value.actions), sigs, strict);
    }
  }

  lemma ShiftUpDisplays(env: Env, x: Session, s: Settings, sigs: Signals, strict: bool)
    requires env.Contract() && TipOk(x) && DisplayOk(x, strict)
    ensures DisplayOk(Handle(env, x, ShiftUp, s, sigs), strict)
  {
    var p := ProcessShiftUp(SituationOf(x));
    if p.Some? {
      FlagsDisplay(env, x, p.value.actions, sigs, strict);
    }
  }

  /** Ended, aborted, put away, or with a key that is not planned for: what is displayed is dropped or stays. */
  lemma OtherDisplays(env: Env, x: Session, ev: Event, s: Settings, sigs: Signals, strict: bool)
    requires env.Contract() && TipOk(x) && DisplayOk(x, strict) && !ev.KeyDown? && !ev.ShiftUp? && !ev.PreservedModeKey?
    requires !(ev.Deactivated? && x.phase != Idle)
    ensures DisplayOk(Handle(env, x, ev, s, sigs), strict)
  {
  }

  /** The event cuts a committed clause off what is composed. */
  ghost predicate Cuts(x: Session, ev: Event, s: Settings) {
    var p := PlanOf(x, ev, s);
    p.Some? && !CutsNothing(p.value.actions)
  }

  /** Whatever the event: what the open composition shows is the clause on display with everything behind it, as
      long as nothing is cut off; after a cut it may be the clause alone. */
  lemma HandleDisplays(env: Env, x: Session, ev: Event, s: Settings, sigs: Signals, strict: bool)
    requires env.Contract() && TipOk(x) && DisplayOk(x, strict) && !Stranded(env, x, ev, s, sigs)
    requires strict ==> !Cuts(x, ev, s)
    ensures DisplayOk(Handle(env, x, ev, s, sigs), strict)
  {
    match ev {
      case KeyDown(key) =>
        if x.temporaryLatin && key.isShift {
          FlagsDisplay(env, x, [SetTemporaryLatinShiftPending(true)], sigs, strict);
        } else {
          KeyDisplays(env, x, key, s, sigs, strict);
        }
      case ShiftUp => ShiftUpDisplays(env, x, s, sigs, strict);
      case PreservedModeKey => ModeKeyDisplays(env, x, s, sigs, strict);
      case _ => OtherDisplays(env, x, ev, s, sigs, strict);
    }
  }

  /* ----- runs ----- */

  ghost predicate CutsAt(env: Env, x: Session, run: seq<Occurrence>, i: nat)
    requires env.Contract() && i < |run|
  {
    Cuts(AfterRun(env, x, run[..i]), run[i].event, run[i].settings)
  }

  lemma {:induction false} RunDisplaysUpTo(env: Env, x: Session, run: seq<Occurrence>, n: nat, strict: bool)
    requires env.Contract() && TipOk(x) && DisplayOk(x, strict) && n <= |run| && NeverStranded(env, x, run)
    requires strict ==> forall i :: 0 <= i < n ==> !CutsAt(env, x, run, i)
    ensures DisplayOk(AfterRun(env, x, run[..n]), strict)
    decreases n
  {
    if n > 0 {
      RunDisplaysUpTo(env, x, run, n - 1, strict);
      NeverStrandedUpTo(env, x, run, n - 1);
      AfterStep(env, x, run, n - 1);
      assert !StrandedAt(env, x, run, n - 1);
      assert strict ==> !CutsAt(env, x, run, n - 1);
      HandleDisplays(env, AfterRun(env, x, run[..n - 1]), run[n - 1].event, run[n - 1].settings, run[n - 1].signals,
                     strict);
    }
  }

  /** Over every run that never strands the client: the open composition shows the clause on display with all that
      is behind it, or without it; always with it when no clause has been cut off. */
  lemma RunDisplays(env: Env, run: seq<Occurrence>)
    requires env.Contract() && NeverStranded(env, FRESH, run)
    ensures var x := AfterRun(env, FRESH, run);
            && (x.tip ==> x.shown == x.client.preview + x.client.suffix || x.shown == x.client.preview)
            && ((forall i :: 0 <= i < |run| ==> !CutsAt(env, FRESH, run, i)) && x.tip ==>
                  x.shown == x.client.preview + x.client.suffix)
            && (x.phase == Idle ==> x.client.preview == "" && x.client.suffix == "")
  {
    assert run[..|run|] == run;
    RunDisplaysUpTo(env, FRESH, run, |run|, false);
    if forall i :: 0 <= i < |run| ==> !CutsAt(env, FRESH, run, i) {
      RunDisplaysUpTo(env, FRESH, run, |run|, true);
    }
  }

  /* ----- where the remainder is missing ----- */

  /** A cut commits exactly the clause, and what it then shows lacks the remainder exactly when the new first
      candidate leaves one. */
  lemma CutShows(env: Env, x: Session, text: string, style: Style)
    requires x.tip && ShowsAll(x, false) && 0 <= x.client.count <= 127
    requires var t := ShrunkText(env, x.server.text, x.client.count);
             var typed := TextOf(env, x, RawInputSuffix(x.client.rawInput, x.client.count), text, style);
             !env.full(t).IsEmptyComposition() && env.full(env.inserted(t, typed, style == Direct)).texts != []
    ensures var t := ShrunkText(env, x.server.text, x.client.count);
            var typed := TextOf(env, x, RawInputSuffix(x.client.rawInput, x.client.count), text, style);
            var r := env.full(env.inserted(t, typed, style == Direct));
            var y := DoShrink(env, x, text, style, QUIET);
            && y.Some? && y.value.tip && y.value.document == x.document + x.client.preview
            && y.value.shown == r.texts[0]
            && (ShowsAll(y.value, true) <==> At(r.subTexts, 0, "") == "")
  {
    ShrinkShows(env, x, text, style, QUIET);
    assert Take(x.shown, |x.client.preview|) == x.client.preview;
  }
}
