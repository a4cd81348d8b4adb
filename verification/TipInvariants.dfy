/** The text-service composition is open exactly while the client is composing, and text is only
    written while it is open.  Planned action lists are judged by an abstract run over moods. */
module TipInvariants {
  import opened Text
  import opened DelayedN
  import opened Clauses
  import opened ConversionServer
  import opened ClauseTransitions
  import opened Actions
  import opened Interpreter

  ghost predicate TipOk(x: Session) {
    && (x.tip <==> x.phase != Idle)
    && !x.stray
    && (x.phase == Idle ==> x.client.rawInput == "")
  }

  /* ----- moods ----- */

  /** What is known in the middle of a list: surely open, open or already reset, the same with a display
      update put off, the same with nothing more to follow, then the same on the way to Idle, and closed. */
  datatype Mood = Open | OpenOrGone | Deferring | Done | Ending | EndingOrGone | Gone | Shut | ShutBusy

  ghost predicate IsGone(x: Session) {
    !x.tip && x.phase == Idle && x.client == EMPTY_CLIENT && x.server == EMPTY_SERVER
  }

  ghost predicate InMood(e: Exec, m: Mood) {
    var x := e.session;
    !x.stray &&
    match m
    case Open => x.tip && x.phase != Idle && !e.deferred
    case OpenOrGone => !e.deferred && ((x.tip && x.phase != Idle) || IsGone(x))
    case Deferring => (x.tip && x.phase != Idle) || (IsGone(x) && !e.deferred)
    case Done => (x.tip && x.phase != Idle) || (!x.tip && x.phase == Idle && x.client.rawInput == "")
    case Ending => x.tip && x.phase == Idle && !e.deferred
    case EndingOrGone => !e.deferred && ((x.tip && x.phase == Idle) || IsGone(x))
    case Gone => x.phase == Idle
    case Shut => !x.tip && x.phase == Idle && x.client.rawInput == ""
    case ShutBusy => !x.tip && x.phase != Idle && !e.deferred
  }

  /** The mood after an action; `None` where the action is out of place. */
  function After(m: Mood, a: ClientAction): Option<Mood> {
    match a
    case SetTemporaryLatin(_) | SetTemporaryLatinShiftPending(_) => Some(m)
    case StartComposition => if m == ShutBusy then Some(Open) else None
    case EndComposition =>
      if m == Open then Some(ShutBusy)
      else if m in {Ending, EndingOrGone, Gone, Shut} then Some(Shut)
      else None
    case ShowCandidateWindow => if m == Open then Some(Open) else None
    case AppendText(_, _) => if m == Open then Some(OpenOrGone) else None
    case CommitTextDirect(_) => if m == Shut then Some(Shut) else None
    case RemoveText => if m == Open then Some(Done) else if m == Ending then Some(Gone) else None
    case ShrinkText(_, _) => if m in {Open, OpenOrGone} then Some(OpenOrGone) else None
    case SetTextWithType(_) => if m == Open then Some(Open) else None
    case EnsureClauseNavigationReady => if m == Open then Some(Deferring) else None
    case MoveClause(_) =>
      if m in {Open, OpenOrGone} then Some(OpenOrGone)
      else if m == Deferring then Some(Done)
      else if m in {Ending, EndingOrGone} then Some(EndingOrGone)
      else None
    case AdjustBoundary(_) => if m == Open then Some(OpenOrGone) else None
    case SetSelection(_) => if m == Open then Some(Open) else None
    case SetIMEMode(_) => if m == Shut then Some(Shut) else None
  }

  predicate Accepting(m: Mood) {
    m in {Open, OpenOrGone, Deferring, Done, Shut}
  }

  /* ----- each action respects its mood ----- */

  lemma AppendMood(env: Env, e: Exec, text: string, style: Style, sig: Signal)
    requires InMood(e, Open)
    ensures InMood(Exec(DoAppend(env, e.session, text, style, sig), e.deferred), OpenOrGone)
  {
  }

  lemma RemoveMood(env: Env, e: Exec, sig: Signal)
    requires InMood(e, Open) || InMood(e, Ending)
    ensures var y := DoRemove(env, e.session, sig);
            && !y.stray
            && ((y.tip && y.phase == e.session.phase) || (!y.tip && y.phase == Idle && y.client.rawInput == ""))
  {
  }

  lemma RegrownMood(x: Session, shrunkRaw: string, text: string, typed: string, restart: bool, reply: Reply)
    requires x.tip && !x.stray && x.phase != Idle
    ensures var y := Regrown(x, shrunkRaw, text, typed, restart, reply);
            !y.stray && ((y.tip && y.phase != Idle) || IsGone(y))
  {
  }

  lemma ShrinkOpenMood(env: Env, x: Session, text: string, style: Style, sig: Signal)
    requires x.tip && !x.stray && x.phase != Idle
    ensures var y := DoShrink(env, x, text, style, sig);
            y.Some? ==> !y.value.stray && ((y.value.tip && y.value.phase != Idle) || IsGone(y.value))
  {
    var cleared := PrefixForgotten(x);
    var cut := CutOff(env, cleared, sig);
    if cut.Some? {
      var shrunkRaw := RawInputSuffix(cleared.client.rawInput, cleared.client.count);
      var typed := TextOf(env, x, shrunkRaw, text, style);
      var y := cleared.(server := cut.value.1);
      RegrownMood(y, shrunkRaw, text, typed, cut.value.0, AppendRpc(env, y.server, typed, style == Direct));
    }
  }

  lemma ShrinkGoneMood(env: Env, x: Session, text: string, style: Style, sig: Signal)
    requires env.Contract() && IsGone(x) && !x.stray
    ensures var y := DoShrink(env, x, text, style, sig);
            y.Some? ==> !y.value.stray && ((y.value.tip && y.value.phase != Idle) || IsGone(y.value))
  {
  }

  lemma ShrinkMood(env: Env, e: Exec, text: string, style: Style, sig: Signal)
    requires env.Contract() && InMood(e, OpenOrGone)
    ensures var y := DoShrink(env, e.session, text, style, sig);
            y.Some? ==> InMood(Exec(y.value, e.deferred), OpenOrGone)
  {
    if e.session.tip {
      ShrinkOpenMood(env, e.session, text, style, sig);
    } else {
      ShrinkGoneMood(env, e.session, text, style, sig);
    }
  }

  lemma AfterEnsureMood(x: Session, m: Step, next: Option<ClientAction>, deferred: bool)
    requires x.tip && x.phase != Idle && !x.stray && !deferred
    ensures var y := AfterEnsure(x, m, next, deferred); y.Some? ==> InMood(y.value, Deferring)
  {
  }

  lemma EnsureMood(env: Env, e: Exec, next: Option<ClientAction>, sig: Signal)
    requires env.Contract() && InMood(e, Open)
    ensures var y := DoEnsure(env, e.session, next, e.deferred, sig); y.Some? ==> InMood(y.value, Deferring)
  {
    AfterEnsureMood(e.session, StartNavigation(env, e.session.client, e.session.server), next, e.deferred);
  }

  /** A client without any composition is not moved. */
  lemma MoveGone(env: Env, d: Direction)
    requires env.Contract()
    ensures MoveStep(env, EMPTY_CLIENT, EMPTY_SERVER, d) == Step(EMPTY_CLIENT, EMPTY_SERVER, Skipped)
  {
  }

  lemma AfterMoveMood(x: Session, m: Step, deferred: bool)
    requires !x.stray
    requires x.tip || (m.Step? && m.effect.Skipped? && !deferred && m == Step(x.client, x.server, Skipped))
    ensures var y := AfterMove(x, m, deferred);
            y.Some? ==> (!y.value.session.stray && !y.value.deferred
              && ((y.value.session.tip == x.tip && y.value.session.phase == x.phase
                   && (!x.tip ==> y.value.session == x))
                  || IsGone(y.value.session)))
  {
  }

  lemma MoveMood(env: Env, e: Exec, d: Direction, sig: Signal)
    requires env.Contract() && !e.session.stray && (e.session.tip || (IsGone(e.session) && !e.deferred))
    ensures var y := DoMove(env, e.session, d, e.deferred, sig);
            y.Some? ==> (!y.value.session.stray && (y.value.deferred ==> e.deferred)
              && ((y.value.session.tip && y.value.session.phase == e.session.phase) || IsGone(y.value.session)))
  {
    MoveGone(env, d);
    AfterMoveMood(e.session, MoveStep(env, e.session.client, e.session.server, d), e.deferred);
  }

  lemma AdjustMood(env: Env, e: Exec, step: int, sig: Signal)
    requires env.Contract() && InMood(e, Open)
    ensures var y := DoAdjust(env, e.session, step, sig);
            y.Some? ==> InMood(Exec(y.value, e.deferred), OpenOrGone)
  {
  }

  /** What an action has to keep: the mood it leads to, or, when it is refused, no text gone astray. */
  ghost predicate Sound(r: Ran, m: Option<Mood>) {
    if r.Ran? then m.Some? && InMood(r.exec, m.value) else !r.stray
  }

  lemma TextSound(env: Env, e: Exec, a: ClientAction, next: Option<ClientAction>, sig: Signal, m: Mood)
    requires env.Contract() && InMood(e, m) && After(m, a).Some? && EditsText(a)
    ensures Sound(Execute(env, e, a, next, sig), After(m, a))
  {
    match a {
      case AppendText(text, style) => AppendMood(env, e, text, style, sig);
      case RemoveText => RemoveMood(env, e, sig);
      case ShrinkText(text, style) => ShrinkMood(env, e, text, style, sig);
      case _ =>
    }
  }

  lemma ClauseSound(env: Env, e: Exec, a: ClientAction, next: Option<ClientAction>, sig: Signal, m: Mood)
    requires env.Contract() && InMood(e, m) && After(m, a).Some? && EditsClauses(a)
    ensures Sound(Execute(env, e, a, next, sig), After(m, a))
  {
    match a {
      case EnsureClauseNavigationReady => EnsureMood(env, e, next, sig);
      case MoveClause(d) => MoveMood(env, e, d, sig);
      case AdjustBoundary(step) => AdjustMood(env, e, step, sig);
      case _ =>
    }
  }

  /** Opening, closing and flags never fail where the plans put them. */
  lemma FrameSound(env: Env, e: Exec, a: ClientAction, next: Option<ClientAction>, sig: Signal, m: Mood)
    requires env.Contract() && InMood(e, m) && After(m, a).Some? && !EditsText(a) && !EditsClauses(a)
    ensures Execute(env, e, a, next, sig).Ran? && Sound(Execute(env, e, a, next, sig), After(m, a))
  {
  }

  lemma AfterSound(env: Env, e: Exec, a: ClientAction, next: Option<ClientAction>, sig: Signal, m: Mood)
    requires env.Contract() && InMood(e, m) && After(m, a).Some?
    ensures Sound(Execute(env, e, a, next, sig), After(m, a))
  {
    if EditsText(a) {
      TextSound(env, e, a, next, sig, m);
    } else if EditsClauses(a) {
      ClauseSound(env, e, a, next, sig, m);
    } else {
      FrameSound(env, e, a, next, sig, m);
    }
  }

  /* ----- judging a list ----- */

  function Judge(m: Mood, actions: seq<ClientAction>, i: nat): Option<Mood>
    requires i <= |actions|
    decreases |actions| - i
  {
    if i == |actions| then Some(m)
    else if After(m, actions[i]).None? then None
    else Judge(After(m, actions[i]).value, actions, i + 1)
  }

  lemma {:induction false} JudgeSound(env: Env, e: Exec, actions: seq<ClientAction>, i: nat, sigs: Signals, m: Mood)
    requires env.Contract() && i <= |actions| && InMood(e, m) && Judge(m, actions, i).Some?
    ensures var r := ExecuteFrom(env, e, actions, i, sigs);
            if r.Ran? then InMood(r.exec, Judge(m, actions, i).value) else !r.stray
    decreases |actions| - i
  {
    if i < |actions| {
      AfterSound(env, e, actions[i], if i + 1 < |actions| then Some(actions[i + 1]) else None, sigs(i), m);
      var r := ExecuteAt(env, e, actions, i, sigs);
      if r.Ran? {
        JudgeSound(env, r.exec, actions, i + 1, sigs, After(m, actions[i]).value);
      }
    }
  }

  predicate Neutral(a: ClientAction) {
    a.SetTemporaryLatin? || a.SetTemporaryLatinShiftPending?
  }

  /** Flag changes in front of a list do not matter. */
  lemma {:induction false} JudgeNeutral(m: Mood, flags: seq<ClientAction>, rest: seq<ClientAction>, i: nat)
    requires i <= |flags| && forall k :: 0 <= k < |flags| ==> Neutral(flags[k])
    ensures Judge(m, flags + rest, i) == Judge(m, flags + rest, |flags|)
    decreases |flags| - i
  {
    if i < |flags| {
      assert Neutral((flags + rest)[i]);
      JudgeNeutral(m, flags, rest, i + 1);
    }
  }

  lemma {:induction false} JudgeShift(m: Mood, flags: seq<ClientAction>, rest: seq<ClientAction>, i: nat)
    requires i <= |rest|
    ensures Judge(m, flags + rest, |flags| + i) == Judge(m, rest, i)
    decreases |rest| - i
  {
    if i < |rest| && After(m, rest[i]).Some? {
      JudgeShift(After(m, rest[i]).value, flags, rest, i + 1);
    }
  }

  /** The mood a list starts in when the composition is as it should be. */
  function Start(x: Session, p: Plan): Mood {
    if x.tip then (if p.phase == Idle then Ending else Open)
    else (if p.phase == Idle then Shut else ShutBusy)
  }

  predicate Judged(m: Mood, actions: seq<ClientAction>) {
    var r := Judge(m, actions, 0);
    r.Some? && Accepting(r.value)
  }

  lemma AcceptedPlan(env: Env, x: Session, p: Plan, sigs: Signals)
    requires env.Contract() && TipOk(x) && Judged(Start(x, p), p.actions)
    ensures TipOk(HandleActions(env, x, p, sigs))
  {
    JudgeSound(env, Exec(x.(phase := p.phase), false), p.actions, 0, sigs, Start(x, p));
  }

  lemma JudgedWithFlags(m: Mood, flags: seq<ClientAction>, rest: seq<ClientAction>)
    requires forall k :: 0 <= k < |flags| ==> Neutral(flags[k])
    requires Judged(m, rest)
    ensures Judged(m, flags + rest)
  {
    JudgeNeutral(m, flags, rest, 0);
    JudgeShift(m, flags, rest, 0);
  }

  /* ----- every plan but one ----- */

  /** Moves to the first clause, then the composition ends or its first clause is cut off. */
  lemma {:induction false} JudgeLefts(actions: seq<ClientAction>, i: nat, last: ClientAction, m: Mood)
    requires |actions| > 0 && i < |actions| && actions[|actions| - 1] == last
    requires forall k :: 0 <= k < |actions| - 1 ==> actions[k] == MoveClause(Left)
    requires (last.ShrinkText? && m in {Open, OpenOrGone}) || (last.EndComposition? && m in {Ending, EndingOrGone})
    ensures Judge(m, actions, i) == Some(if last.ShrinkText? then OpenOrGone else Shut)
    decreases |actions| - i
  {
    if i < |actions| - 1 {
      JudgeLefts(actions, i + 1, last, After(m, actions[i]).value);
    }
  }

  lemma JudgeOne(m: Mood, a: ClientAction)
    ensures Judge(m, [a], 0) == After(m, a)
  {
  }

  lemma JudgeTwo(m: Mood, a: ClientAction, b: ClientAction)
    ensures Judge(m, [a, b], 0) == (if After(m, a).None? then None else After(After(m, a).value, b))
  {
    var actions := [a, b];
    if After(m, a).Some? {
      assert Judge(After(m, a).value, actions, 1) == (
        if After(After(m, a).value, b).None? then None else Judge(After(After(m, a).value, b).value, actions, 2));
    }
  }

  lemma JudgeFront(m: Mood, a: ClientAction, rest: seq<ClientAction>)
    ensures Judge(m, [a] + rest, 0) == (if After(m, a).None? then None else Judge(After(m, a).value, rest, 0))
  {
    if After(m, a).Some? {
      JudgeShift(After(m, a).value, [a], rest, 0);
    }
  }

  predicate Leaves(a: UserAction) {
    a.Backspace? || a.Delete? || a.Enter? || a.CommitAndNextClause? || a.CommitFirstClause? || a.Escape?
    || a.ToggleInputMode? || a.InputModeOn? || a.InputModeOff?
  }

  /** The shared plans that delete, commit or change the mode. */
  lemma LeavingJudged(a: UserAction, x: Situation, s: Settings)
    requires Leaves(a)
    ensures var p := PlanCommon(a, x, s);
            p.Some? && Judged(if p.value.phase == Idle then Ending else Open, p.value.actions)
  {
    JudgeTwo(Ending, RemoveText, EndComposition);
    JudgeOne(Open, RemoveText);
    JudgeOne(Ending, EndComposition);
    JudgeOne(Open, ShrinkText("", Resolved));
    JudgeTwo(Ending, EndComposition, SetIMEMode(Latin));
    JudgeTwo(Ending, EndComposition, SetIMEMode(Kana));
    if a.CommitFirstClause? {
      var p := CommitFirst(x.client);
      JudgeLefts(p.actions, 0, p.actions[|p.actions| - 1], if p.phase == Idle then Ending else Open);
    }
  }

  /** The shared plans that stay in the composition. */
  lemma StayingJudged(a: UserAction, x: Situation, s: Settings)
    requires !Leaves(a) && (x.phase == Composing || x.phase == Previewing)
    ensures var p := PlanCommon(a, x, s);
            p.Some? ==> p.value.phase != Idle && Judged(Open, p.value.actions)
  {
    match a {
      case AdjustClauseBoundary(right) => JudgeOne(Open, ClientAction.AdjustBoundary(if right then 1 else -1));
      case NavigateRight => NavigationJudged(x.client, true);
      case NavigateLeft => NavigationJudged(x.client, false);
      case NavigateUp => JudgeOne(Open, ClientAction.SetSelection(Up));
      case NavigateDown => JudgeOne(Open, ClientAction.SetSelection(Down));
      case Space => CandidatePreviewJudged(s);
      case Tab => CandidatePreviewJudged(s);
      case Function(kind) => JudgeOne(Open, SetTextWithType(kind));
      case _ =>
    }
  }

  lemma CommonJudged(a: UserAction, x: Situation, s: Settings)
    requires x.phase == Composing || x.phase == Previewing
    ensures var p := PlanCommon(a, x, s);
            p.Some? ==> Judged(if p.value.phase == Idle then Ending else Open, p.value.actions)
  {
    if Leaves(a) {
      LeavingJudged(a, x, s);
    } else {
      StayingJudged(a, x, s);
    }
  }

  lemma NavigationJudged(c: Client, toRight: bool)
    ensures Judged(Open, Navigation(c, toRight))
  {
    JudgeOne(Open, EnsureClauseNavigationReady);
    JudgeTwo(Open, EnsureClauseNavigationReady, MoveClause(ToLast));
    JudgeTwo(Open, EnsureClauseNavigationReady, MoveClause(if toRight then Right else Left));
  }

  lemma CandidatePreviewJudged(s: Settings)
    ensures Judged(Open, CandidatePreview(s))
  {
    JudgeOne(Open, ClientAction.SetSelection(Down));
    JudgeTwo(Open, ShowCandidateWindow, ClientAction.SetSelection(Down));
    assert [] + [ClientAction.SetSelection(Down)] == [ClientAction.SetSelection(Down)];
    assert [ShowCandidateWindow] + [ClientAction.SetSelection(Down)]
        == [ShowCandidateWindow, ClientAction.SetSelection(Down)];
  }

  lemma PunctuationJudged(text: string)
    ensures Judged(Ending, PunctuationPlan(text).actions)
  {
    JudgeTwo(Ending, EndComposition, CommitTextDirect(text));
  }

  predicate PutsText(a: ClientAction) {
    a.AppendText? || a.ShrinkText?
  }

  lemma LatinThenPut(latin: bool, a: ClientAction)
    requires PutsText(a)
    ensures Judged(Open, (if latin then [SetTemporaryLatin(true)] else []) + [a])
  {
    JudgeOne(Open, a);
    JudgedWithFlags(Open, if latin then [SetTemporaryLatin(true)] else [], [a]);
  }

  lemma CommitThenAppendJudged(a: ClientAction, latin: bool)
    requires PutsText(a)
    ensures Judged(Open, CommitThenAppend(a, latin).actions)
  {
    var flags := if latin then [SetTemporaryLatin(true)] else [];
    LatinThenPut(latin, a);
    JudgeFront(ShutBusy, StartComposition, flags + [a]);
    JudgeFront(Open, EndComposition, [StartComposition] + (flags + [a]));
    assert CommitThenAppend(a, latin).actions == [EndComposition] + ([StartComposition] + (flags + [a]));
  }

  lemma StartThenAppendJudged(a: ClientAction, latin: bool)
    requires PutsText(a)
    ensures Judged(ShutBusy, [StartComposition] + (if latin then [SetTemporaryLatin(true)] else []) + [a])
  {
    var flags := if latin then [SetTemporaryLatin(true)] else [];
    LatinThenPut(latin, a);
    JudgeFront(ShutBusy, StartComposition, flags + [a]);
    assert [StartComposition] + flags + [a] == [StartComposition] + (flags + [a]);
  }

  lemma ComposingJudged(a: UserAction, x: Situation, startLatin: bool, s: Settings)
    requires x.phase == Composing
    ensures var p := PlanComposing(a, x, startLatin, s);
            p.Some? ==> Judged(if p.value.phase == Idle then Ending else Open, p.value.actions)
  {
    if !x.temporaryLatin && !startLatin && PunctuationCommits(a, x, s) {
      PunctuationJudged(PunctuationText(a, s));
    } else if (x.temporaryLatin || startLatin) && DirectText(a, s).Some? {
      var text := DirectText(a, s).value;
      var shrinks := ShrinksBeforeDirect(x.client, startLatin);
      LatinThenPut(startLatin, if shrinks then ShrinkText(text, Direct) else AppendText(text, Direct));
    } else {
      var typed := TypedText(a, x.mode, s);
      if typed.Some? {
        JudgeOne(Open, typed.value);
      } else {
        CommonJudged(a, x, s);
      }
    }
  }

  lemma PreviewingJudged(a: UserAction, x: Situation, startLatin: bool, s: Settings)
    requires x.phase == Previewing
    ensures var p := PlanPreviewing(a, x, startLatin, s);
            p.Some? ==> Judged(if p.value.phase == Idle then Ending else Open, p.value.actions)
  {
    if !x.temporaryLatin && !startLatin && PunctuationCommits(a, x, s) {
      PunctuationJudged(PunctuationText(a, s));
    } else if (x.temporaryLatin || startLatin) && DirectText(a, s).Some? {
      CommitThenAppendJudged(AppendText(DirectText(a, s).value, Direct), true);
    } else {
      var typed := TypedText(a, x.mode, s);
      if typed.Some? {
        CommitThenAppendJudged(typed.value, false);
      } else {
        CommonJudged(a, x, s);
      }
    }
  }

  /** A space typed with nothing composed: it is entered and committed at once. */
  predicate IsSpacePlan(p: Plan) {
    p.phase == Idle && |p.actions| >= 3 && p.actions[|p.actions| - 3].StartComposition?
    && p.actions[|p.actions| - 2].AppendText?
  }

  lemma IdleJudged(a: UserAction, x: Situation, shift: bool, startLatin: bool, s: Settings)
    ensures var p := PlanIdle(a, x, shift, startLatin, s);
            p.Some? && !IsSpacePlan(p.value) ==> Judged(if p.value.phase == Idle then Shut else ShutBusy,
                                                        p.value.actions)
    ensures var p := PlanIdle(a, x, shift, startLatin, s);
            p.Some? && IsSpacePlan(p.value) ==>
              (|p.value.actions| == 3 && p.value.actions[0] == StartComposition && p.value.actions[1].AppendText?
               && p.value.actions[1].style == Resolved && p.value.actions[2] == EndComposition && x.mode == Kana)
  {
    var p := PlanIdle(a, x, shift, startLatin, s);
    if (x.temporaryLatin || startLatin) && DirectText(a, s).Some? {
      StartThenAppendJudged(AppendText(DirectText(a, s).value, Direct), startLatin);
    } else if p.Some? && p.value.phase == Composing {
      StartThenAppendJudged(p.value.actions[1], false);
      assert [StartComposition] + [] + [p.value.actions[1]] == p.value.actions;
    } else if p.Some? && |p.value.actions| == 1 {
      JudgeOne(Shut, p.value.actions[0]);
    }
  }

  /* ----- the one plan that can leave them apart ----- */

  /** A space typed in `y` with nothing composed finds leftovers of a composition whose session is gone, and
      the server has something to show for it. */
  ghost predicate Trapped(env: Env, y: Session, text: string, sig: Signal) {
    sig.before && HasComposition(y.client)
    && !env.full(env.inserted(y.server.text, TextOf(env, y, "", text, Resolved), false)).IsEmptyComposition()
  }

  /** The composition is closed again and nothing went astray, but a trapped client goes on composing. */
  ghost predicate SpaceTyped(y: Session, trapped: bool) {
    !y.tip && !y.stray && y.client.rawInput == "" && y.client.preview == "" && y.client.suffix == ""
    && y.phase == if trapped then Composing else Idle
  }

  lemma SpaceAppended(env: Env, y: Session, text: string, sig: Signal)
    requires y.tip && !y.stray && y.phase == Idle && y.client.rawInput == ""
    ensures var z := DoAppend(env, y, text, Resolved, sig);
            !z.stray && z.phase == if Trapped(env, y, text, sig) then Composing else Idle
  {
  }

  lemma ThreeSteps(env: Env, e: Exec, actions: seq<ClientAction>, i: nat, sigs: Signals, one: Exec, two: Exec,
                   three: Exec)
    requires env.Contract() && i + 3 == |actions|
    requires ExecuteAt(env, e, actions, i, sigs) == Ran(one)
    requires ExecuteAt(env, one, actions, i + 1, sigs) == Ran(two)
    requires ExecuteAt(env, two, actions, i + 2, sigs) == Ran(three)
    ensures ExecuteFrom(env, e, actions, i, sigs) == Ran(three)
  {
    ExecuteNext(env, e, actions, i, sigs);
    ExecuteNext(env, one, actions, i + 1, sigs);
    ExecuteNext(env, two, actions, i + 2, sigs);
  }

  /** The three actions of a space, wherever they stand in the list. */
  lemma SpaceRun(env: Env, e: Exec, actions: seq<ClientAction>, i: nat, text: string, sigs: Signals)
    requires env.Contract() && i + 3 == |actions| && IsSpaceAt(actions, i, text)
    requires TipOk(e.session) && e.session.phase == Idle
    ensures var r := ExecuteFrom(env, e, actions, i, sigs);
            r.Ran? && SpaceTyped(r.exec.session, Trapped(env, e.session, text, sigs(i + 1)))
  {
    var begun := e.session.(tip := true, shown := "");
    SpaceAppended(env, begun, text, sigs(i + 1));
    var typed := DoAppend(env, begun, text, Resolved, sigs(i + 1));
    ThreeSteps(env, e, actions, i, sigs, Exec(begun, e.deferred), Exec(typed, e.deferred),
               Exec(DoEnd(typed), e.deferred));
  }

  predicate IsSpaceAt(actions: seq<ClientAction>, i: nat, text: string) {
    i + 3 == |actions| && actions[i] == StartComposition && actions[i + 1] == AppendText(text, Resolved)
    && actions[i + 2] == EndComposition
  }

  /** The event is a space typed with nothing composed, and it falls into the trap. */
  ghost predicate SpaceTrap(env: Env, x: Session, ev: Event, s: Settings, sigs: Signals) {
    var p := PlanOf(x, ev, s);
    x.phase == Idle && p.Some? && IsSpacePlan(p.value)
    && Trapped(env, x, p.value.actions[|p.value.actions| - 2].text, sigs(|p.value.actions| - 2))
  }

  lemma PendingSkipped(env: Env, e: Exec, actions: seq<ClientAction>, sigs: Signals)
    requires env.Contract() && |actions| > 0 && actions[0] == SetTemporaryLatinShiftPending(false)
    ensures ExecuteFrom(env, e, actions, 0, sigs)
         == ExecuteFrom(env, e.(session := e.session.(shiftPending := false)), actions, 1, sigs)
  {
    ExecuteNext(env, e, actions, 0, sigs);
  }

  /** A space's three actions, with at most the pending shift forgotten in front of them. */
  predicate IsSpaceList(actions: seq<ClientAction>, text: string) {
    || (|actions| == 3 && IsSpaceAt(actions, 0, text))
    || (|actions| == 4 && actions[0] == SetTemporaryLatinShiftPending(false) && IsSpaceAt(actions, 1, text))
  }

  lemma PlainSpaceHandled(env: Env, x: Session, p: Plan, text: string, sigs: Signals)
    requires env.Contract() && TipOk(x) && x.phase == Idle && p.phase == Idle
    requires |p.actions| == 3 && IsSpaceAt(p.actions, 0, text)
    ensures SpaceTyped(HandleActions(env, x, p, sigs), Trapped(env, x, text, sigs(1)))
  {
    SpaceRun(env, Exec(x, false), p.actions, 0, text, sigs);
  }

  lemma FlaggedSpaceHandled(env: Env, x: Session, p: Plan, text: string, sigs: Signals)
    requires env.Contract() && TipOk(x) && x.phase == Idle && p.phase == Idle
    requires |p.actions| == 4 && p.actions[0] == SetTemporaryLatinShiftPending(false) && IsSpaceAt(p.actions, 1, text)
    ensures SpaceTyped(HandleActions(env, x, p, sigs), Trapped(env, x, text, sigs(2)))
  {
    PendingSkipped(env, Exec(x, false), p.actions, sigs);
    SpaceRun(env, Exec(x.(shiftPending := false), false), p.actions, 1, text, sigs);
  }

  lemma SpaceHandled(env: Env, x: Session, p: Plan, text: string, sigs: Signals)
    requires env.Contract() && TipOk(x) && x.phase == Idle && p.phase == Idle && IsSpaceList(p.actions, text)
    ensures SpaceTyped(HandleActions(env, x, p, sigs), Trapped(env, x, text, sigs(|p.actions| - 2)))
  {
    if |p.actions| == 3 {
      PlainSpaceHandled(env, x, p, text, sigs);
    } else {
      FlaggedSpaceHandled(env, x, p, text, sigs);
    }
  }

  /** The flag changes a key puts in front of its plan. */
  function Flags(x: Situation, key: Key, p: Plan): seq<ClientAction> {
    (if x.shiftPending && !key.isShift then [SetTemporaryLatinShiftPending(false)] else [])
    + (if x.temporaryLatin && (Confirms(key.action) || Ends(p)) then [SetTemporaryLatin(false)] else [])
  }

  lemma ResetsAreFlags(x: Situation, key: Key, p: Plan)
    ensures WithResets(x, key, p) == Plan(p.phase, Flags(x, key, p) + p.actions)
    ensures forall k :: 0 <= k < |Flags(x, key, p)| ==> Neutral(Flags(x, key, p)[k])
  {
  }

  predicate StartsLatin(x: Session, key: Key) {
    !x.temporaryLatin && x.mode == Kana && key.latinShortcut
  }

  /** A key's own plan, without the flags, is in place unless it is a space with nothing composed. */
  lemma KeyJudged(x: Session, key: Key, s: Settings)
    requires TipOk(x)
    ensures var p := PlanFor(key.action, SituationOf(x), key.shift, StartsLatin(x, key), s);
            p.Some? && !(x.phase == Idle && IsSpacePlan(p.value)) ==> Judged(Start(x, p.value), p.value.actions)
  {
    var startLatin := StartsLatin(x, key);
    match x.phase {
      case Idle => IdleJudged(key.action, SituationOf(x), key.shift, startLatin, s);
      case Composing => ComposingJudged(key.action, SituationOf(x), startLatin, s);
      case Previewing => PreviewingJudged(key.action, SituationOf(x), startLatin, s);
      case Selecting =>
    }
  }

  lemma FlagsOnly(env: Env, x: Session, actions: seq<ClientAction>, sigs: Signals)
    requires env.Contract() && TipOk(x) && forall k :: 0 <= k < |actions| ==> Neutral(actions[k])
    ensures TipOk(HandleActions(env, x, Plan(x.phase, actions), sigs))
  {
    var m := if x.tip then Open else Shut;
    JudgeNeutral(m, actions, [], 0);
    assert actions + [] == actions;
    JudgeSound(env, Exec(x, false), actions, 0, sigs, m);
  }

  /** Adding the flags neither makes a plan a space plan nor hides that it is one. */
  lemma SpaceWithFlags(x: Situation, key: Key, p: Plan)
    ensures IsSpacePlan(WithResets(x, key, p)) <==> IsSpacePlan(p)
  {
  }

  lemma SpaceIsPlain(a: UserAction, x: Situation, shift: bool, startLatin: bool, s: Settings)
    ensures var p := PlanIdle(a, x, shift, startLatin, s);
            p.Some? && IsSpacePlan(p.value) ==>
              (!x.temporaryLatin && |p.value.actions| == 3 && p.value.actions[1].AppendText?
               && IsSpaceAt(p.value.actions, 0, p.value.actions[1].text))
  {
    IdleJudged(a, x, shift, startLatin, s);
  }

  lemma SpaceFlagged(x: Situation, key: Key, p: Plan, text: string)
    requires !x.temporaryLatin && p.phase == Idle && |p.actions| == 3 && IsSpaceAt(p.actions, 0, text)
    ensures var w := WithResets(x, key, p);
            w.phase == Idle && IsSpaceList(w.actions, text) && w.actions[|w.actions| - 2] == p.actions[1]
  {
    var pending := if x.shiftPending && !key.isShift then [SetTemporaryLatinShiftPending(false)] else [];
    var w := WithResets(x, key, p);
    assert w.actions == pending + p.actions;
    assert forall i :: 0 <= i < 3 ==> w.actions[|pending| + i] == p.actions[i];
  }

  /** A space typed with nothing composed, with at most one flag change in front of it. */
  lemma SpaceShape(x: Session, key: Key, s: Settings, p: Plan)
    requires x.phase == Idle && IsSpacePlan(p)
    requires PlanFor(key.action, SituationOf(x), key.shift, StartsLatin(x, key), s) == Some(p)
    ensures |p.actions| == 3 && p.actions[1].AppendText?
    ensures var w := WithResets(SituationOf(x), key, p);
            w.phase == Idle && IsSpaceList(w.actions, p.actions[1].text) && w.actions[|w.actions| - 2] == p.actions[1]
  {
    SpaceIsPlain(key.action, SituationOf(x), key.shift, StartsLatin(x, key), s);
    SpaceFlagged(SituationOf(x), key, p, p.actions[1].text);
  }

  lemma SpaceTypedTip(y: Session, trapped: bool)
    requires SpaceTyped(y, trapped)
    ensures TipOk(y) <==> !trapped
  {
  }

  lemma SpaceTip(env: Env, x: Session, w: Plan, text: string, sigs: Signals)
    requires env.Contract() && TipOk(x) && x.phase == Idle && w.phase == Idle && IsSpaceList(w.actions, text)
    ensures TipOk(HandleActions(env, x, w, sigs)) <==> !Trapped(env, x, text, sigs(|w.actions| - 2))
  {
    SpaceHandled(env, x, w, text, sigs);
    SpaceTypedTip(HandleActions(env, x, w, sigs), Trapped(env, x, text, sigs(|w.actions| - 2)));
  }

  lemma SpaceKeepsTip(env: Env, x: Session, key: Key, s: Settings, p: Plan, sigs: Signals)
    requires env.Contract() && TipOk(x) && x.phase == Idle && IsSpacePlan(p)
    requires PlanFor(key.action, SituationOf(x), key.shift, StartsLatin(x, key), s) == Some(p)
    ensures var w := WithResets(SituationOf(x), key, p);
            |w.actions| >= 3 && w.actions[|w.actions| - 2].AppendText?
            && (TipOk(HandleActions(env, x, w, sigs))
                <==> !Trapped(env, x, w.actions[|w.actions| - 2].text, sigs(|w.actions| - 2)))
  {
    SpaceShape(x, key, s, p);
    SpaceTip(env, x, WithResets(SituationOf(x), key, p), p.actions[1].text, sigs);
  }

  lemma OtherKeepsTip(env: Env, x: Session, key: Key, s: Settings, p: Plan, sigs: Signals)
    requires env.Contract() && TipOk(x) && !(x.phase == Idle && IsSpacePlan(p))
    requires PlanFor(key.action, SituationOf(x), key.shift, StartsLatin(x, key), s) == Some(p)
    ensures TipOk(HandleActions(env, x, WithResets(SituationOf(x), key, p), sigs))
  {
    KeyJudged(x, key, s);
    ResetsAreFlags(SituationOf(x), key, p);
    JudgedWithFlags(Start(x, p), Flags(SituationOf(x), key, p), p.actions);
    AcceptedPlan(env, x, WithResets(SituationOf(x), key, p), sigs);
  }

  /** A key is handled by executing its plan with the flags in front. */
  lemma KeyHandled(env: Env, x: Session, key: Key, s: Settings, sigs: Signals)
    requires env.Contract() && !(x.temporaryLatin && key.isShift)
    ensures var p := PlanFor(key.action, SituationOf(x), key.shift, StartsLatin(x, key), s);
            if p.None?
            then PlanOf(x, KeyDown(key), s) == None
                 && Handle(env, x, KeyDown(key), s, sigs) == Unplanned(x, key.isShift)
            else PlanOf(x, KeyDown(key), s) == Some(WithResets(SituationOf(x), key, p.value))
                 && Handle(env, x, KeyDown(key), s, sigs)
                    == HandleActions(env, x, WithResets(SituationOf(x), key, p.value), sigs)
  {
  }

  lemma KeyKeepsTip(env: Env, x: Session, key: Key, s: Settings, sigs: Signals)
    requires env.Contract() && TipOk(x) && !(x.temporaryLatin && key.isShift)
    ensures TipOk(Handle(env, x, KeyDown(key), s, sigs)) <==> !SpaceTrap(env, x, KeyDown(key), s, sigs)
  {
    KeyHandled(env, x, key, s, sigs);
    var p := PlanFor(key.action, SituationOf(x), key.shift, StartsLatin(x, key), s);
    if p.Some? {
      SpaceWithFlags(SituationOf(x), key, p.value);
      if x.phase == Idle && IsSpacePlan(p.value) {
        SpaceKeepsTip(env, x, key, s, p.value, sigs);
      } else {
        OtherKeepsTip(env, x, key, s, p.value, sigs);
      }
    }
  }

  /** The preserved mode key has no text to enter, so it never is a space. */
  lemma ModeKeyKeepsTip(env: Env, x: Session, s: Settings, sigs: Signals)
    requires env.Contract() && TipOk(x)
    ensures TipOk(Handle(env, x, PreservedModeKey, s, sigs)) && !SpaceTrap(env, x, PreservedModeKey, s, sigs)
  {
    var key := Key(ToggleInputMode, false, false, false);
    KeyJudged(x, key, s);
    var p := PlanFor(ToggleInputMode, SituationOf(x), false, false, s);
    if p.Some? {
      var flags := if x.temporaryLatin then [SetTemporaryLatin(false)] else [];
      JudgedWithFlags(Start(x, p.value), flags, p.value.actions);
      AcceptedPlan(env, x, Plan(p.value.phase, flags + p.value.actions), sigs);
    }
  }

  /** An action on its own either succeeds on the way to Idle or leaves everything as it was. */
  lemma AloneTip(env: Env, x: Session, a: ClientAction)
    requires env.Contract() && TipOk(x) && (a.EndComposition? || a.SetIMEMode?)
    ensures TipOk(HandleAlone(env, x, a))
  {
  }

  /** The event leaves the client composing with no composition open. */
  ghost predicate Stranded(env: Env, x: Session, ev: Event, s: Settings, sigs: Signals) {
    SpaceTrap(env, x, ev, s, sigs) || (ev.Deactivated? && x.phase != Idle)
  }

  /** Whatever the event, the settings and the session changes met on the way: the composition stays as it
      should be, unless a space typed with nothing composed falls into the trap or the service is deactivated
      while it is composing. */
  lemma HandleTip(env: Env, x: Session, ev: Event, s: Settings, sigs: Signals)
    requires env.Contract() && TipOk(x)
    ensures TipOk(Handle(env, x, ev, s, sigs)) <==> !Stranded(env, x, ev, s, sigs)
  {
    match ev {
      case KeyDown(key) =>
        if x.temporaryLatin && key.isShift {
          FlagsOnly(env, x, [SetTemporaryLatinShiftPending(true)], sigs);
        } else {
          KeyKeepsTip(env, x, key, s, sigs);
        }
      case ShiftUp =>
        var p := ProcessShiftUp(SituationOf(x));
        if p.Some? {
          FlagsOnly(env, x, p.value.actions, sigs);
        }
      case PreservedModeKey => ModeKeyKeepsTip(env, x, s, sigs);
      case Terminated => AloneTip(env, x, EndComposition);
      case FocusChanged => AloneTip(env, x, EndComposition);
      case LanguageBarToggle => AloneTip(env, x, SetIMEMode(OtherMode(x.mode)));
      case _ =>
    }
  }
}
