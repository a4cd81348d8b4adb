/** A shift key is only waiting to be released while temporary latin is on. */
module TemporaryLatin {
  import opened Text
  import opened Clauses
  import opened ConversionServer
  import opened ClauseTransitions
  import opened Actions
  import opened Interpreter
  import opened Runs

  predicate PendingOk(x: Session) {
    x.shiftPending ==> x.temporaryLatin
  }

  /** The one action that makes a shift wait. */
  predicate Waits(a: ClientAction) {
    a.SetTemporaryLatinShiftPending? && a.on
  }

  lemma AppendPending(env: Env, x: Session, text: string, style: Style, sig: Signal)
    requires PendingOk(x)
    ensures PendingOk(DoAppend(env, x, text, style, sig))
  {
  }

  lemma RemovePending(env: Env, x: Session, sig: Signal)
    requires PendingOk(x)
    ensures PendingOk(DoRemove(env, x, sig))
  {
  }

  lemma ShrinkPending(env: Env, x: Session, text: string, style: Style, sig: Signal)
    requires PendingOk(x)
    ensures var y := DoShrink(env, x, text, style, sig); y.Some? ==> PendingOk(y.value)
  {
  }

  lemma TextPending(env: Env, e: Exec, a: ClientAction, next: Option<ClientAction>, sig: Signal)
    requires env.Contract() && PendingOk(e.session) && EditsText(a)
    ensures var r := Execute(env, e, a, next, sig); r.Ran? ==> PendingOk(r.exec.session)
  {
    match a {
      case AppendText(text, style) => AppendPending(env, e.session, text, style, sig);
      case RemoveText => RemovePending(env, e.session, sig);
      case ShrinkText(text, style) => ShrinkPending(env, e.session, text, style, sig);
      case SetTextWithType(_) =>
    }
  }

  lemma ClausePending(env: Env, e: Exec, a: ClientAction, next: Option<ClientAction>, sig: Signal)
    requires env.Contract() && PendingOk(e.session) && EditsClauses(a)
    ensures var r := Execute(env, e, a, next, sig); r.Ran? ==> PendingOk(r.exec.session)
  {
  }

  lemma ActionPending(env: Env, e: Exec, a: ClientAction, next: Option<ClientAction>, sig: Signal)
    requires env.Contract() && PendingOk(e.session) && (Waits(a) ==> e.session.temporaryLatin)
    ensures var r := Execute(env, e, a, next, sig); r.Ran? ==> PendingOk(r.exec.session)
  {
    if EditsText(a) {
      TextPending(env, e, a, next, sig);
    } else if EditsClauses(a) {
      ClausePending(env, e, a, next, sig);
    }
  }

  predicate NoneWaits(actions: seq<ClientAction>) {
    forall i :: 0 <= i < |actions| ==> !Waits(actions[i])
  }

  lemma {:induction false} ListPending(env: Env, e: Exec, actions: seq<ClientAction>, i: nat, sigs: Signals)
    requires env.Contract() && PendingOk(e.session) && i <= |actions| && NoneWaits(actions)
    ensures var r := ExecuteFrom(env, e, actions, i, sigs); r.Ran? ==> PendingOk(r.exec.session)
    decreases |actions| - i
  {
    if i < |actions| {
      var next := if i + 1 < |actions| then Some(actions[i + 1]) else None;
      ActionPending(env, e, actions[i], next, sigs(i));
      ExecuteNext(env, e, actions, i, sigs);
      var r := ExecuteAt(env, e, actions, i, sigs);
      if r.Ran? {
        ListPending(env, r.exec, actions, i + 1, sigs);
      }
    }
  }

  lemma PlanPending(env: Env, x: Session, p: Plan, sigs: Signals)
    requires env.Contract() && PendingOk(x) && NoneWaits(p.actions)
    ensures PendingOk(HandleActions(env, x, p, sigs))
  {
    ListPending(env, Exec(x.(phase := p.phase), false), p.actions, 0, sigs);
  }

  lemma NoCommonWaits(a: UserAction, x: Situation, s: Settings)
    ensures var p := PlanCommon(a, x, s); p.Some? ==> NoneWaits(p.value.actions)
  {
  }

  lemma NoIdleWaits(a: UserAction, x: Situation, shift: bool, startLatin: bool, s: Settings)
    ensures var p := PlanIdle(a, x, shift, startLatin, s); p.Some? ==> NoneWaits(p.value.actions)
  {
  }

  lemma NoComposingWaits(a: UserAction, x: Situation, startLatin: bool, s: Settings)
    ensures var p := PlanComposing(a, x, startLatin, s); p.Some? ==> NoneWaits(p.value.actions)
  {
    NoCommonWaits(a, x, s);
  }

  lemma NoPreviewingWaits(a: UserAction, x: Situation, startLatin: bool, s: Settings)
    ensures var p := PlanPreviewing(a, x, startLatin, s); p.Some? ==> NoneWaits(p.value.actions)
  {
    NoCommonWaits(a, x, s);
  }

  lemma NoPlanWaits(a: UserAction, x: Situation, shift: bool, startLatin: bool, s: Settings)
    ensures var p := PlanFor(a, x, shift, startLatin, s); p.Some? ==> NoneWaits(p.value.actions)
  {
    match x.phase {
      case Idle => NoIdleWaits(a, x, shift, startLatin, s);
      case Composing => NoComposingWaits(a, x, startLatin, s);
      case Previewing => NoPreviewingWaits(a, x, startLatin, s);
      case Selecting =>
    }
  }

  lemma KeyPending(env: Env, x: Session, key: Key, s: Settings, sigs: Signals)
    requires env.Contract() && PendingOk(x)
    ensures PendingOk(Handle(env, x, KeyDown(key), s, sigs))
  {
    var startLatin := !x.temporaryLatin && x.mode == Kana && key.latinShortcut;
    if x.temporaryLatin && key.isShift {
      var e := Exec(x, false);
      ExecuteNext(env, e, [SetTemporaryLatinShiftPending(true)], 0, sigs);
    } else {
      NoPlanWaits(key.action, SituationOf(x), key.shift, startLatin, s);
      var p := ProcessKey(SituationOf(x), key, s);
      if p.Some? {
        PlanPending(env, x, p.value, sigs);
      }
    }
  }

  lemma HandlePending(env: Env, x: Session, ev: Event, s: Settings, sigs: Signals)
    requires env.Contract() && PendingOk(x)
    ensures PendingOk(Handle(env, x, ev, s, sigs))
  {
    match ev {
      case KeyDown(key) => KeyPending(env, x, key, s, sigs);
      case ShiftUp =>
        var p := ProcessShiftUp(SituationOf(x));
        if p.Some? {
          PlanPending(env, x, p.value, sigs);
        }
      case PreservedModeKey =>
        NoPlanWaits(ToggleInputMode, SituationOf(x), false, false, s);
        var p := PlanModeKey(x, s);
        if p.Some? {
          PlanPending(env, x, p.value, sigs);
        }
      case _ =>
    }
  }

  /** Over every run from the start, whatever is typed, refused or met on the way: a shift that is still waiting to be
      released means that temporary latin is on. */
  lemma {:induction false} RunPending(env: Env, run: seq<Occurrence>)
    requires env.Contract()
    ensures AfterRun(env, FRESH, run).shiftPending ==> AfterRun(env, FRESH, run).temporaryLatin
  {
    if run != [] {
      RunPending(env, run[..|run| - 1]);
      var o := run[|run| - 1];
      HandlePending(env, AfterRun(env, FRESH, run[..|run| - 1]), o.event, o.settings, o.signals);
    }
  }
}
