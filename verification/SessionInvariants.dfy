/** What every event handled by the interpreter keeps between the client's clause stack and the server's. */
module SessionInvariants {
  import opened Text
  import opened DelayedN
  import opened Clauses
  import opened ConversionServer
  import opened ClauseTransitions
  import opened ClauseInvariants
  import opened Actions
  import opened Interpreter

  /* ===== the stacks ===== */

  ghost predicate StacksOk(x: Session) {
    Inv(x.client, x.server)
  }

  /** With both stacks empty there is little left to check. */
  lemma BareInv(c: Client, s: ServerState)
    requires c.passed == [] && s.snapshots == [] && c.fixedPrefix <= c.preview && MarkOk(c.mark)
    ensures Inv(c, s)
  {
  }

  lemma ClearedCachesBare(x: Session)
    requires StacksOk(x)
    ensures var y := ClearedCaches(x);
            y.client.passed == [] && y.server.snapshots == [] && y.client.mark == NO_SPLIT
            && y.client.fixedPrefix == x.client.fixedPrefix && y.client.preview == x.client.preview
  {
  }

  lemma ReceivedStacks(x: Session, typed: string, candidates: Candidates)
    requires x.client.passed == [] && x.server.snapshots == []
    requires x.client.fixedPrefix <= x.client.preview && MarkOk(x.client.mark)
    ensures StacksOk(Received(x, typed, candidates))
  {
    var c := x.client.(rawInput := x.client.rawInput + typed, candidates := candidates);
    var s := SelectCandidate(candidates, c.selection);
    if s.Some? {
      MergePreview(c.fixedPrefix, s.value.text);
      BareInv(Adopted(c, s.value, c.fixedPrefix), x.server);
    } else {
      BareInv(c, x.server);
      EmptyInv();
    }
  }

  lemma AppendStacks(env: Env, x: Session, text: string, style: Style, sig: Signal)
    requires StacksOk(x)
    ensures StacksOk(DoAppend(env, x, text, style, sig))
  {
    ClearedCachesBare(x);
    var cleared := ClearedCaches(x);
    var typed := TextOf(env, x, x.client.rawInput, text, style);
    var reply := AppendRpc(env, cleared.server, typed, style == Direct);
    var y := Renewed(cleared, Stale(cleared, typed, reply.candidates, sig));
    ReceivedStacks(y.(server := reply.server), typed, reply.candidates);
  }

  lemma RemoveStacks(env: Env, x: Session, sig: Signal)
    requires StacksOk(x)
    ensures StacksOk(DoRemove(env, x, sig))
  {
    ClearedCachesBare(x);
    var y := DoRemove(env, x, sig);
    var s := SelectCandidate(y.client.candidates, y.client.selection);
    if s.Some? {
      MergePreview(x.client.fixedPrefix, s.value.text);
    }
    BareInv(y.client, y.server);
  }

  lemma RegrownStacks(x: Session, shrunkRaw: string, text: string, typed: string, restart: bool, reply: Reply)
    requires x.client.passed == [] && x.server.snapshots == [] && reply.server.snapshots == []
    requires x.client.fixedPrefix == "" && MarkOk(x.client.mark)
    ensures StacksOk(Regrown(x, shrunkRaw, text, typed, restart, reply))
  {
  }

  lemma PrefixForgottenBare(x: Session)
    requires StacksOk(x)
    ensures var y := PrefixForgotten(x);
            y.client.passed == [] && y.server.snapshots == [] && y.client.fixedPrefix == "" && y.client.mark == NO_SPLIT
  {
  }

  lemma ShrinkStacks(env: Env, x: Session, text: string, style: Style, sig: Signal)
    requires StacksOk(x)
    ensures var y := DoShrink(env, x, text, style, sig); y.Some? ==> StacksOk(y.value)
  {
    PrefixForgottenBare(x);
    var cleared := PrefixForgotten(x);
    var cut := CutOff(env, cleared, sig);
    if cut.Some? {
      var y := cleared.(server := cut.value.1);
      var shrunkRaw := RawInputSuffix(cleared.client.rawInput, cleared.client.count);
      var typed := TextOf(env, x, shrunkRaw, text, style);
      RegrownStacks(y, shrunkRaw, text, typed, cut.value.0, AppendRpc(env, y.server, typed, style == Direct));
    }
  }

  lemma MoveStacks(env: Env, x: Session, d: Direction, deferred: bool, sig: Signal)
    requires env.Contract() && StacksOk(x)
    ensures var y := DoMove(env, x, d, deferred, sig); y.Some? ==> StacksOk(y.value.session)
  {
    EmptyInv();
    MoveStepInv(env, x, d);
    AfterMoveStacks(x, MoveStep(env, x.client, x.server, d), deferred);
  }

  lemma MoveStepInv(env: Env, x: Session, d: Direction)
    requires env.Contract() && StacksOk(x)
    ensures var m := MoveStep(env, x.client, x.server, d);
            m.Step? && !m.effect.ServerReset? ==> Inv(m.client, m.server)
  {
    match d
    case Left => MoveLeftInv(x.client, x.server);
    case Right => MoveRightInv(env, x.client, x.server);
    case ToLast => MoveToLastInv(env, x.client, x.server, false);
  }

  lemma AfterMoveStacks(x: Session, m: Step, deferred: bool)
    requires m.Step? && !m.effect.ServerReset? ==> Inv(m.client, m.server)
    ensures var y := AfterMove(x, m, deferred); y.Some? ==> StacksOk(y.value.session)
  {
    EmptyInv();
  }

  lemma SetTextStacks(env: Env, x: Session, kind: SetTextType)
    requires StacksOk(x)
    ensures StacksOk(DoSetText(env, x, kind))
  {
    var c, next := x.client, Last(x.client.future);
    var input := ClausePart(c.rawInput, if next.Some? then Some(next.value.rawInput) else None, c.count);
    var reading := ClausePart(c.rawHiragana, if next.Some? then Some(next.value.rawHiragana) else None, c.count);
    MergePreview(c.fixedPrefix, env.render(kind, input, reading));
    SyncKeepsPlaces(c.(preview := Merge(c.fixedPrefix, env.render(kind, input, reading))));
    InvEdited(c, x.server, DoSetText(env, x, kind).client, x.server);
  }

  /** Boundary edits the planner asks for go one step at a time. */
  predicate Planned(a: ClientAction) {
    a.AdjustBoundary? ==> -1 <= a.step <= 1
  }

  lemma AfterEnsureStacks(x: Session, m: Step, next: Option<ClientAction>, deferred: bool)
    requires m.Step? ==> Inv(m.client, m.server)
    ensures var y := AfterEnsure(x, m, next, deferred); y.Some? ==> StacksOk(y.value.session)
  {
  }

  lemma EnsureStacks(env: Env, x: Session, next: Option<ClientAction>, deferred: bool, sig: Signal)
    requires env.Contract() && StacksOk(x)
    ensures var y := DoEnsure(env, x, next, deferred, sig); y.Some? ==> StacksOk(y.value.session)
  {
    EmptyInv();
    StartNavigationInv(env, x.client, x.server);
    AfterEnsureStacks(x, StartNavigation(env, x.client, x.server), next, deferred);
  }

  lemma AfterAdjustStacks(x: Session, m: Step, sig: Signal)
    requires m.Step? ==> Inv(m.client, m.server)
    ensures var y := AfterAdjust(x, m, sig); y.Some? ==> StacksOk(y.value)
  {
  }

  lemma AdjustStacks(env: Env, x: Session, step: int, sig: Signal)
    requires env.Contract() && StacksOk(x) && -1 <= step <= 1
    ensures var y := DoAdjust(env, x, step, sig); y.Some? ==> StacksOk(y.value)
  {
    EmptyInv();
    AdjustBoundaryInv(env, x.client, x.server, step);
    AfterAdjustStacks(x, ClauseTransitions.AdjustBoundary(env, x.client, x.server, step), sig);
  }

  lemma SelectStacks(x: Session, kind: SetSelectionType)
    requires StacksOk(x)
    ensures StacksOk(DoSelect(x, kind))
  {
    SetSelectionInv(x.client, x.server, kind);
  }

  lemma EndStacks(x: Session)
    ensures StacksOk(DoEnd(x))
  {
  }

  lemma TextStacks(env: Env, e: Exec, a: ClientAction, next: Option<ClientAction>, sig: Signal)
    requires env.Contract() && StacksOk(e.session) && EditsText(a)
    ensures var r := Execute(env, e, a, next, sig); r.Ran? ==> StacksOk(r.exec.session)
  {
    var x := e.session;
    match a {
      case AppendText(text, style) => AppendStacks(env, x, text, style, sig);
      case RemoveText => RemoveStacks(env, x, sig);
      case ShrinkText(text, style) => ShrinkStacks(env, x, text, style, sig);
      case SetTextWithType(kind) => SetTextStacks(env, x, kind);
    }
  }

  lemma ClauseStacks(env: Env, e: Exec, a: ClientAction, next: Option<ClientAction>, sig: Signal)
    requires env.Contract() && StacksOk(e.session) && Planned(a) && EditsClauses(a)
    ensures var r := Execute(env, e, a, next, sig); r.Ran? ==> StacksOk(r.exec.session)
  {
    var x := e.session;
    match a {
      case EnsureClauseNavigationReady => EnsureStacks(env, x, next, e.deferred, sig);
      case MoveClause(d) => MoveStacks(env, x, d, e.deferred, sig);
      case AdjustBoundary(step) => AdjustStacks(env, x, step, sig);
      case SetSelection(kind) => SelectStacks(x, kind);
    }
  }

  lemma FrameStacks(env: Env, e: Exec, a: ClientAction, next: Option<ClientAction>, sig: Signal)
    requires env.Contract() && StacksOk(e.session) && !EditsText(a) && !EditsClauses(a)
    ensures var r := Execute(env, e, a, next, sig); r.Ran? ==> StacksOk(r.exec.session)
  {
    EndStacks(e.session);
    EndStacks(e.session.(tip := true));
  }

  lemma ExecuteStacks(env: Env, e: Exec, a: ClientAction, next: Option<ClientAction>, sig: Signal)
    requires env.Contract() && StacksOk(e.session) && Planned(a)
    ensures var r := Execute(env, e, a, next, sig); r.Ran? ==> StacksOk(r.exec.session)
  {
    if EditsText(a) {
      TextStacks(env, e, a, next, sig);
    } else if EditsClauses(a) {
      ClauseStacks(env, e, a, next, sig);
    } else {
      FrameStacks(env, e, a, next, sig);
    }
  }

  lemma ExecuteAtStacks(env: Env, e: Exec, actions: seq<ClientAction>, i: nat, sigs: Signals)
    requires env.Contract() && StacksOk(e.session) && i < |actions| && Planned(actions[i])
    ensures var r := ExecuteAt(env, e, actions, i, sigs); r.Ran? ==> StacksOk(r.exec.session)
  {
    ExecuteStacks(env, e, actions[i], if i + 1 < |actions| then Some(actions[i + 1]) else None, sigs(i));
  }

  lemma {:induction false} ExecuteFromStacks(env: Env, e: Exec, actions: seq<ClientAction>, i: nat, sigs: Signals)
    requires env.Contract() && StacksOk(e.session) && i <= |actions|
    requires forall k :: 0 <= k < |actions| ==> Planned(actions[k])
    ensures var r := ExecuteFrom(env, e, actions, i, sigs); r.Ran? ==> StacksOk(r.exec.session)
    decreases |actions| - i
  {
    if i < |actions| {
      ExecuteAtStacks(env, e, actions, i, sigs);
      var r := ExecuteAt(env, e, actions, i, sigs);
      if r.Ran? {
        ExecuteFromStacks(env, r.exec, actions, i + 1, sigs);
      }
    }
  }

  ghost predicate AllPlanned(p: Option<Plan>) {
    p.Some? ==> forall k :: 0 <= k < |p.value.actions| ==> Planned(p.value.actions[k])
  }

  lemma CommonPlanned(a: UserAction, x: Situation, s: Settings)
    ensures AllPlanned(PlanCommon(a, x, s))
  {
  }

  lemma IdlePlanned(a: UserAction, x: Situation, shift: bool, startLatin: bool, s: Settings)
    ensures AllPlanned(PlanIdle(a, x, shift, startLatin, s))
  {
  }

  lemma ComposingPlanned(a: UserAction, x: Situation, startLatin: bool, s: Settings)
    ensures AllPlanned(PlanComposing(a, x, startLatin, s))
  {
    CommonPlanned(a, x, s);
  }

  lemma PreviewingPlanned(a: UserAction, x: Situation, startLatin: bool, s: Settings)
    ensures AllPlanned(PlanPreviewing(a, x, startLatin, s))
  {
    CommonPlanned(a, x, s);
  }

  lemma ResetsPlanned(x: Situation, key: Key, p: Plan)
    requires AllPlanned(Some(p))
    ensures AllPlanned(Some(WithResets(x, key, p)))
  {
  }

  lemma PlansPlanned(x: Session, ev: Event, s: Settings)
    ensures AllPlanned(PlanOf(x, ev, s))
  {
    match ev {
      case KeyDown(key) => KeyPlanned(x, key, s);
      case PreservedModeKey => AnyPlanned(ToggleInputMode, SituationOf(x), false, false, s);
      case _ =>
    }
  }

  lemma AnyPlanned(a: UserAction, x: Situation, shift: bool, startLatin: bool, s: Settings)
    ensures AllPlanned(PlanFor(a, x, shift, startLatin, s))
  {
    IdlePlanned(a, x, shift, startLatin, s);
    ComposingPlanned(a, x, startLatin, s);
    PreviewingPlanned(a, x, startLatin, s);
  }

  lemma KeyPlanned(x: Session, key: Key, s: Settings)
    ensures AllPlanned(ProcessKey(SituationOf(x), key, s))
  {
    var startLatin := !x.temporaryLatin && x.mode == Kana && key.latinShortcut;
    AnyPlanned(key.action, SituationOf(x), key.shift, startLatin, s);
    var p := PlanFor(key.action, SituationOf(x), key.shift, startLatin, s);
    if p.Some? {
      ResetsPlanned(SituationOf(x), key, p.value);
    }
  }

  lemma AloneStacks(env: Env, x: Session, a: ClientAction)
    requires env.Contract() && StacksOk(x) && Planned(a)
    ensures StacksOk(HandleAlone(env, x, a))
  {
    ExecuteStacks(env, Exec(x.(phase := Idle), false), a, None, QUIET);
  }

  lemma PlanStacks(env: Env, x: Session, p: Plan, sigs: Signals)
    requires env.Contract() && StacksOk(x) && AllPlanned(Some(p))
    ensures StacksOk(HandleActions(env, x, p, sigs))
  {
    EmptyInv();
    ExecuteFromStacks(env, Exec(x.(phase := p.phase), false), p.actions, 0, sigs);
  }

  lemma HandleStacks(env: Env, x: Session, ev: Event, s: Settings, sigs: Signals)
    requires env.Contract() && StacksOk(x)
    ensures StacksOk(Handle(env, x, ev, s, sigs))
  {
    EmptyInv();
    AloneStacks(env, x, EndComposition);
    AloneStacks(env, x, SetIMEMode(OtherMode(x.mode)));
    var p := PlanOf(x, ev, s);
    if p.Some? {
      PlansPlanned(x, ev, s);
      PlanStacks(env, x, p.value, sigs);
    }
  }
}
