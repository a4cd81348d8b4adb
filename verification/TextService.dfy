/** The text service: it carries out a list of client actions on its own fields, the clause state and the
    server, one after the other, and throws everything away when a call is refused. */
module TextService {
  import opened Text
  import opened DelayedN
  import opened Clauses
  import opened ConversionServer
  import opened Actions
  import T = ClauseTransitions
  import C = ClauseState
  import I = Interpreter
  import S = SessionInvariants
  import P = TipInvariants
  import R = Ranges

  class TextService {
    const server: Server
    const clause: C.ClauseState
    var tip: bool
    /** On the far side: the composition's text, the text committed, and whether any went astray. */
    ghost var shown: string
    ghost var document: string
    ghost var stray: bool
    var phase: Phase
    var temporaryLatin: bool
    var shiftPending: bool
    var mode: InputMode

    ghost predicate Wired() {
      clause.server == server && server.env.Contract()
    }

    /** What holds between any two events. */
    ghost predicate Valid()
      reads this, clause, server
    {
      Wired() && S.StacksOk(View()) && R.InRange(View().client)
    }

    ghost function View(): I.Session
      reads this, clause, server
    {
      I.Session(clause.View(), server.State(), tip, stray, phase, temporaryLatin, shiftPending, mode, shown, document)
    }

    constructor (env: Env)
      requires env.Contract()
      ensures Valid() && View() == I.FRESH && fresh(server) && fresh(clause) && server.env == env
    {
      var s := new Server(env);
      server := s;
      clause := new C.ClauseState(s);
      tip, stray, phase := false, false, Idle;
      shown, document := "", "";
      temporaryLatin, shiftPending, mode := false, false, Kana;
    }

    /* ----- the text-service composition ----- */

    method StartComposition() returns (ok: bool)
      modifies this
      ensures I.Started(old(View())) == if ok then Some(View()) else None
      ensures !ok ==> View() == old(View())
    {
      ok := !tip;
      if ok {
        tip, shown := true, "";
      }
    }

    method CloseComposition()
      modifies this
      ensures View() == I.Ended(old(View()))
    {
      if tip {
        tip, document, shown := false, document + shown, "";
      }
    }

    method DiscardComposition()
      modifies this
      ensures View() == I.Discarded(old(View()))
    {
      tip, shown := false, "";
    }

    method SetComposedText(text: string)
      modifies this
      ensures View() == I.Put(old(View()), text)
    {
      if tip {
        shown := text;
      } else {
        stray := true;
      }
    }

    /** The clause state is shown; only an open composition can show it. */
    method Write()
      modifies this
      ensures View() == I.Written(old(View()))
    {
      SetComposedText(clause.preview + clause.suffix);
    }

    method ShiftStart(committed: string, text: string)
      modifies this
      ensures View() == I.ShiftStart(old(View()), committed, text)
    {
      if tip {
        document, shown := document + Take(shown, |committed|), text;
      } else {
        stray := true;
      }
    }

    /* ----- clearing ----- */

    method ClearTexts()
      modifies clause
      ensures clause.View() == T.EMPTY_CLIENT.(candidates := old(clause.candidates), selection := old(clause.selection))
    {
      clause.preview, clause.suffix, clause.rawInput, clause.rawHiragana, clause.fixedPrefix := "", "", "", "", "";
      clause.count, clause.passed, clause.future := 0, [], [];
      clause.mark, clause.nextGroup := NO_SPLIT, 0;
    }

    method ClearFlags()
      modifies this
      ensures View() == old(View()).(temporaryLatin := false, shiftPending := false)
    {
      temporaryLatin, shiftPending := false, false;
    }

    method ResetEmpty()
      modifies this, clause, server
      ensures View() == I.ResetEmpty(old(View()))
    {
      ClearTexts();
      clause.candidates, clause.selection := NO_CANDIDATES, 0;
      server.ClearText();
      ClearFlags();
      DiscardComposition();
      phase := Idle;
    }

    /** New text arrived for a composition that is gone: it starts over with that text. */
    method ResetStale()
      modifies this, clause
      ensures View() == I.ResetStale(old(View()))
    {
      ClearTexts();
      ClearFlags();
      DiscardComposition();
      var _ := StartComposition();
      phase := Composing;
    }

    method ClearCaches()
      requires Wired()
      modifies clause, server
      ensures View() == I.ClearedCaches(old(View()))
    {
      if clause.passed != [] {
        var cleared := server.MoveCursor(CLEAR_SNAPSHOTS);
      }
      clause.passed, clause.future, clause.mark := [], [], NO_SPLIT;
    }

    method HasComposition() returns (r: bool)
      ensures r == I.HasComposition(clause.View())
    {
      r := clause.rawInput != "" || clause.preview != "" || clause.suffix != "" || clause.fixedPrefix != ""
        || !clause.candidates.IsEmptyComposition();
    }

    /* ----- typing and deleting ----- */

    /** The selected candidate becomes the clause on display. */
    method Adopt(s: Selection, prefix: string)
      modifies clause
      ensures clause.View() == I.Adopted(old(clause.View()), s, prefix)
    {
      clause.selection, clause.count := s.index, s.count;
      clause.preview, clause.suffix := Merge(prefix, s.text), s.subText;
      clause.rawHiragana := s.hiragana;
    }

    method TypedText(rawInput: string, text: string, style: Style) returns (r: string)
      ensures r == I.TextOf(server.env, View(), rawInput, text, style)
    {
      r := if style == Resolved && mode == Kana then server.env.symbol(rawInput, text) else text;
    }

    method Receive(typed: string, candidates: Candidates)
      modifies this, clause, server
      ensures View() == I.Received(old(View()), typed, candidates)
    {
      var s := SelectCandidate(candidates, clause.selection);
      if s.None? && candidates.IsEmptyComposition() {
        ResetEmpty();
        return;
      }
      clause.rawInput := clause.rawInput + typed;
      clause.candidates := candidates;
      if s.Some? {
        Adopt(s.value, clause.fixedPrefix);
        Write();
      }
    }

    /** Whether the answer covers no more than the appended text: the server has started over. */
    method LooksReset(text: string, appended: Candidates) returns (r: bool)
      ensures r == I.LooksReset(clause.rawInput, clause.candidates, text, appended)
    {
      if clause.rawInput == "" || clause.candidates.IsEmptyComposition() || appended.IsEmptyComposition()
         || text == "" || appended.counts == [] {
        return false;
      }
      var most := appended.counts[0];
      var i := 1;
      assert appended.counts[..1] == [appended.counts[0]];
      while i < |appended.counts|
        invariant 1 <= i <= |appended.counts| && most == I.MaxCount(appended.counts[..i])
      {
        assert appended.counts[..i + 1][..i] == appended.counts[..i];
        if appended.counts[i] >= most {
          most := appended.counts[i];
        }
        i := i + 1;
      }
      assert appended.counts[..i] == appended.counts;
      r := 0 < most <= |text|;
    }

    /** Whether the composition the text is for is gone. */
    method IsStale(typed: string, appended: Candidates, sig: I.Signal) returns (r: bool)
      ensures r == I.Stale(View(), typed, appended, sig)
    {
      var composing := HasComposition();
      var reset := LooksReset(typed, appended);
      r := (sig.before && composing) || reset;
    }

    method Append(text: string, style: Style, sig: I.Signal)
      requires Wired()
      modifies this, clause, server
      ensures View() == I.DoAppend(server.env, old(View()), text, style, sig)
    {
      ClearCaches();
      var typed := TypedText(clause.rawInput, text, style);
      Grow(typed, style == Direct, sig);
    }

    method Grow(typed: string, direct: bool, sig: I.Signal)
      modifies this, clause, server
      ensures View() == I.Grown(server.env, old(View()), typed, direct, sig)
    {
      var appended := server.AppendText(typed, direct);
      var stale := IsStale(typed, appended, sig);
      Renew(stale);
      Receive(typed, appended);
    }

    method Renew(stale: bool)
      modifies this, clause
      ensures View() == I.Renewed(old(View()), stale)
    {
      if stale {
        ResetStale();
        clause.selection := 0;
      }
    }

    method Remove(sig: I.Signal)
      requires Wired()
      modifies this, clause, server
      ensures View() == I.DoRemove(server.env, old(View()), sig)
    {
      ClearCaches();
      var composing := HasComposition();
      if sig.before && composing {
        ResetEmpty();
        return;
      }
      RemoveOne();
      ShowDeleted(sig);
    }

    method RemoveOne()
      modifies clause, server
      ensures View() == I.Removing(server.env, old(View()))
    {
      if clause.rawInput != "" {
        clause.rawInput := clause.rawInput[..|clause.rawInput| - 1];
      }
      clause.candidates := server.RemoveText();
    }

    method ShowDeleted(sig: I.Signal)
      modifies this, clause, server
      ensures View() == I.Deleted(old(View()), sig)
    {
      var composing := HasComposition();
      if sig.after && composing {
        ResetEmpty();
        return;
      }
      var s := SelectCandidate(clause.candidates, clause.selection);
      if s.Some? {
        Adopt(s.value, clause.fixedPrefix);
        Write();
      } else {
        RemoveAll();
      }
    }

    /** Nothing is left to show but the prefix committed so far; the composition closes on it. */
    method RemoveAll()
      modifies this, clause, server
      ensures View() == I.RemovedAll(old(View()))
    {
      SetComposedText(clause.fixedPrefix);
      CloseComposition();
      var group := clause.nextGroup;
      ClearTexts();
      clause.selection, clause.nextGroup := 0, group;
      server.ClearText();
      ClearFlags();
      phase := Idle;
    }

    /** The server drops the clause's inputs; `restart` says that the composition is gone or used up. */
    method CutOff(sig: I.Signal) returns (ok: bool, restart: bool)
      requires Wired()
      modifies server
      ensures I.CutOff(server.env, old(View()), sig) == if ok then Some((restart, server.State())) else None
      ensures !ok ==> server.State() == old(server.State())
    {
      var composing := HasComposition();
      if sig.before && composing {
        return true, true;
      }
      var shrunk := server.ShrinkText(clause.count);
      if shrunk.None? {
        return false, false;
      }
      return true, sig.after || shrunk.value.IsEmptyComposition();
    }

    method Shrink(text: string, style: Style, sig: I.Signal) returns (ok: bool)
      requires Wired()
      modifies this, clause, server
      ensures I.DoShrink(server.env, old(View()), text, style, sig) == if ok then Some(View()) else None
      ensures (stray == old(stray) && mode == old(mode) && document == old(document)) || ok
    {
      ForgetPrefix();
      var shrunkRaw := RawInputSuffix(clause.rawInput, clause.count);
      var typed := TypedText(shrunkRaw, text, style);
      var cut, restart := CutOff(sig);
      if !cut {
        return false;
      }
      var appended := server.AppendText(typed, style == Direct);
      Regrow(shrunkRaw, text, typed, restart, appended);
      ok := true;
    }

    method ForgetPrefix()
      requires Wired()
      modifies clause, server
      ensures View() == I.PrefixForgotten(old(View()))
    {
      clause.fixedPrefix := "";
      ClearCaches();
    }

    /** The text after the clause that was cut off, with the new text behind it. */
    method Regrow(shrunkRaw: string, text: string, typed: string, restart: bool, appended: Candidates)
      modifies this, clause, server
      ensures View() == I.Regrown(old(View()), shrunkRaw, text, typed, restart, Reply(appended, old(View()).server))
    {
      if restart {
        ResetStale();
      }
      clause.rawInput := if restart then typed else shrunkRaw + text;
      clause.selection, clause.candidates := 0, appended;
      ShowFirst(restart);
    }

    method ShowFirst(restart: bool)
      modifies this, clause, server
      ensures View() == I.FirstShown(old(View()), restart)
    {
      var s := SelectCandidate(clause.candidates, 0);
      if s.Some? {
        var committed := clause.preview;
        Adopt(s.value, "");
        phase := Composing;
        if restart {
          Write();
        } else {
          ShiftStart(committed, s.value.text);
        }
      } else if clause.candidates.IsEmptyComposition() {
        ResetEmpty();
      } else {
        phase := Composing;
      }
    }

    method SetText(kind: SetTextType)
      requires Wired()
      modifies this, clause
      ensures View() == I.DoSetText(server.env, old(View()), kind)
    {
      var next := Last(clause.future);
      var input := I.ClausePart(clause.rawInput, if next.Some? then Some(next.value.rawInput) else None, clause.count);
      var reading := I.ClausePart(clause.rawHiragana, if next.Some? then Some(next.value.rawHiragana) else None,
                                  clause.count);
      clause.preview := Merge(clause.fixedPrefix, server.env.render(kind, input, reading));
      clause.SyncPassedSuffixes();
      Write();
    }

    /* ----- clauses ----- */

    method EnsureNavigation(next: Option<ClientAction>, wait: bool, sig: I.Signal) returns (ok: bool, deferred: bool)
      requires Wired()
      modifies this, clause, server
      ensures I.DoEnsure(server.env, old(View()), next, wait,
                         sig) == if ok then Some(I.Exec(View(), deferred)) else None
      ensures (stray == old(stray) && mode == old(mode) && document == old(document)) || ok
    {
      ok, deferred := true, wait;
      var composing := HasComposition();
      if sig.before && composing {
        ResetEmpty();
        return;
      }
      var effect := clause.TransitionWithBackend(T.StartClauseNavigation);
      if effect.None? {
        return false, wait;
      }
      deferred := ShowReady(effect.value, next, wait);
    }

    method ShowReady(effect: T.Effect, next: Option<ClientAction>, wait: bool) returns (deferred: bool)
      modifies this, clause, server
      ensures I.Exec(View(), deferred) == I.ShownReady(old(View()), effect, next, wait)
    {
      deferred := wait;
      match effect {
        case ServerReset => ResetEmpty();
        case Skipped =>
        case Applied(_) =>
          if next == Some(MoveClause(ToLast)) {
            deferred := true;
          } else {
            Write();
          }
      }
    }

    method Move(d: Direction, wait: bool, sig: I.Signal) returns (ok: bool, deferred: bool)
      requires Wired()
      modifies this, clause, server
      ensures I.DoMove(server.env, old(View()), d, wait, sig) == if ok then Some(I.Exec(View(), deferred)) else None
      ensures (stray == old(stray) && mode == old(mode) && document == old(document)) || ok
    {
      ok, deferred := true, wait;
      var composing := HasComposition();
      if sig.before && composing {
        ResetEmpty();
        return;
      }
      var command := match d
        case Left => T.GoLeft
        case Right => T.GoRight
        case ToLast => T.GoToLast;
      var effect := clause.TransitionWithBackend(command);
      if effect.None? {
        return false, wait;
      }
      deferred := false;
      ShowMove(effect.value, wait);
    }

    method ShowMove(effect: T.Effect, wait: bool)
      modifies this, clause, server
      ensures View() == I.ShownMove(old(View()), effect, wait)
    {
      match effect {
        case ServerReset => ResetEmpty();
        case Applied(_) => Write();
        case Skipped =>
          if wait {
            Write();
          }
      }
    }

    method Adjust(step: int, sig: I.Signal) returns (ok: bool)
      requires Wired()
      modifies this, clause, server
      ensures I.DoAdjust(server.env, old(View()), step, sig) == if ok then Some(View()) else None
      ensures (stray == old(stray) && mode == old(mode) && document == old(document)) || ok
    {
      var composing := HasComposition();
      if sig.before && composing {
        ResetEmpty();
        return true;
      }
      var effect := clause.TransitionWithBackend(T.MoveBoundary(step));
      if effect.None? {
        return false;
      }
      ShowEdit(effect.value, sig);
      ok := true;
    }

    method ShowEdit(effect: T.Effect, sig: I.Signal)
      modifies this, clause, server
      ensures View() == I.ShownEdit(old(View()), effect, sig)
    {
      var composing := HasComposition();
      if effect.ServerReset? || (sig.after && composing) {
        ResetEmpty();
      } else if effect.Applied? {
        Write();
      }
    }

    method Select(kind: T.SetSelectionType)
      requires Wired()
      modifies this, clause, server
      ensures View() == I.DoSelect(old(View()), kind)
    {
      var effect := clause.TransitionWithBackend(T.Choose(kind));
      if effect.value.Applied? {
        Write();
      }
    }

    method EndComposition()
      modifies this, clause, server
      ensures View() == I.DoEnd(old(View()))
    {
      CloseComposition();
      ClearTexts();
      clause.selection := 0;
      server.ClearText();
      ClearFlags();
    }

    method CommitDirect(text: string) returns (ok: bool)
      modifies this
      ensures I.DoCommitDirect(old(View()), text) == if ok then Some(View()) else None
      ensures !ok ==> View() == old(View())
    {
      ok := StartComposition();
      if ok {
        SetComposedText(text);
        CloseComposition();
      }
    }

    method SwitchMode(m: InputMode) returns (ok: bool)
      modifies this, clause, server
      ensures I.DoSetMode(old(View()), m) == if ok then Some(View()) else None
      ensures !ok ==> View() == old(View())
    {
      ok := StartComposition();
      if ok {
        EndComposition();
        mode := m;
      }
    }

    /* ----- lists of actions ----- */

    /** The state after an action is the one `r` says; after a refused call it is not used again. */
    ghost predicate Did(r: I.Ran, ok: bool, deferred: bool)
      reads this, clause, server
    {
      r == if ok then I.Ran(I.Exec(View(), deferred)) else I.Broke(stray, mode, document)
    }

    method PerformText(a: ClientAction, next: Option<ClientAction>, wait: bool, sig: I.Signal) returns (ok: bool)
      requires Wired() && EditsText(a)
      modifies this, clause, server
      ensures Did(I.Execute(server.env, I.Exec(old(View()), wait), a, next, sig), ok, wait)
    {
      ok := true;
      match a {
        case AppendText(text, style) => Append(text, style, sig);
        case RemoveText => Remove(sig);
        case ShrinkText(text, style) => ok := Shrink(text, style, sig);
        case SetTextWithType(kind) => SetText(kind);
      }
    }

    method PerformClause(a: ClientAction, next: Option<ClientAction>, wait: bool, sig: I.Signal)
        returns (ok: bool, deferred: bool)
      requires Wired() && EditsClauses(a)
      modifies this, clause, server
      ensures Did(I.Execute(server.env, I.Exec(old(View()), wait), a, next, sig), ok, deferred)
    {
      ok, deferred := true, wait;
      match a {
        case EnsureClauseNavigationReady => ok, deferred := EnsureNavigation(next, wait, sig);
        case MoveClause(d) => ok, deferred := Move(d, wait, sig);
        case AdjustBoundary(step) => ok := Adjust(step, sig);
        case SetSelection(kind) => Select(kind);
      }
    }

    method PerformFrame(a: ClientAction, next: Option<ClientAction>, wait: bool, sig: I.Signal) returns (ok: bool)
      requires Wired() && !EditsText(a) && !EditsClauses(a)
      modifies this, clause, server
      ensures Did(I.Execute(server.env, I.Exec(old(View()), wait), a, next, sig), ok, wait)
    {
      ok := true;
      match a {
        case StartComposition => ok := StartComposition();
        case EndComposition => EndComposition();
        case ShowCandidateWindow =>
        case CommitTextDirect(text) => ok := CommitDirect(text);
        case SetTemporaryLatin(on) => temporaryLatin, shiftPending := on, on && shiftPending;
        case SetTemporaryLatinShiftPending(on) => shiftPending := on;
        case SetIMEMode(m) => ok := SwitchMode(m);
      }
    }

    method Perform(a: ClientAction, next: Option<ClientAction>, wait: bool, sig: I.Signal)
        returns (ok: bool, deferred: bool)
      requires Wired()
      modifies this, clause, server
      ensures Did(I.Execute(server.env, I.Exec(old(View()), wait), a, next, sig), ok, deferred)
    {
      deferred := wait;
      if EditsText(a) {
        ok := PerformText(a, next, wait, sig);
      } else if EditsClauses(a) {
        ok, deferred := PerformClause(a, next, wait, sig);
      } else {
        ok := PerformFrame(a, next, wait, sig);
      }
    }

    /** A failed list leaves nothing behind: the composition is aborted and all state is cleared. */
    method Recover()
      modifies this, clause, server
      ensures View() == I.Recovered(old(View()))
    {
      ResetEmpty();
    }

    /** The action at `i`; the rest of the list is what remains to be carried out. */
    method PerformAt(actions: seq<ClientAction>, i: nat, wait: bool, sigs: I.Signals) returns (ok: bool, deferred: bool)
      requires Wired() && i < |actions|
      modifies this, clause, server
      ensures I.ExecuteFrom(server.env, I.Exec(old(View()), wait), actions, i, sigs)
           == if ok then I.ExecuteFrom(server.env, I.Exec(View(), deferred), actions, i + 1,
                                       sigs) else I.Broke(stray, mode, document)
    {
      I.ExecuteNext(server.env, I.Exec(View(), wait), actions, i, sigs);
      ok, deferred := Perform(actions[i], if i + 1 < |actions| then Some(actions[i + 1]) else None, wait, sigs(i));
    }

    method Handle(p: Plan, sigs: I.Signals)
      requires Wired()
      modifies this, clause, server
      ensures View() == I.HandleActions(server.env, old(View()), p, sigs)
    {
      phase := p.phase;
      var ok, deferred, i := true, false, 0;
      ghost var begin := View();
      while i < |p.actions| && ok
        invariant 0 <= i <= |p.actions|
        invariant I.ExecuteFrom(server.env, I.Exec(begin, false), p.actions, 0, sigs)
               == if ok then I.ExecuteFrom(server.env, I.Exec(View(), deferred), p.actions, i,
                                           sigs) else I.Broke(stray, mode, document)
      {
        ok, deferred := PerformAt(p.actions, i, deferred, sigs);
        i := i + 1;
      }
      if !ok {
        Recover();
      }
    }

    /** An action on its own; when it fails nothing is written back. */
    method HandleAlone(a: ClientAction)
      requires Wired() && (a.EndComposition? || a.SetIMEMode?)
      modifies this, clause, server
      ensures View() == I.HandleAlone(server.env, old(View()), a)
    {
      if a.EndComposition? {
        EndComposition();
        phase := Idle;
      } else {
        var ok := SwitchMode(a.mode);
        if ok {
          phase := Idle;
        }
      }
    }

    method CurrentPlan(ev: I.Event, s: Settings) returns (p: Option<Plan>)
      ensures p == I.PlanOf(View(), ev, s)
    {
      var at := Situation(T.Client(clause.preview, clause.suffix, clause.rawInput, clause.rawHiragana,
                                   clause.fixedPrefix,
                                   clause.count, clause.selection, clause.candidates, clause.passed, clause.future,
                                   clause.mark, clause.nextGroup),
                          phase, temporaryLatin, shiftPending, mode);
      match ev {
        case KeyDown(key) => p := ProcessKey(at, key, s);
        case ShiftUp => p := ProcessShiftUp(at);
        case PreservedModeKey =>
          p := PlanFor(ToggleInputMode, at, false, false, s);
          if p.Some? {
            var latin := if temporaryLatin then [SetTemporaryLatin(false)] else [];
            p := Some(p.value.(actions := latin + p.value.actions));
          }
        case _ => p := None;
      }
    }

    method HandlePlanned(ev: I.Event, s: Settings, sigs: I.Signals)
      requires Wired()
      modifies this, clause, server
      ensures View() == I.HandlePlanned(server.env, old(View()), ev, s, sigs)
    {
      var p := CurrentPlan(ev, s);
      if p.Some? {
        Handle(p.value, sigs);
      } else if ev.KeyDown? {
        shiftPending := shiftPending && ev.key.isShift;
      }
    }

    /** The event leads to the specified state. */
    method Dispatch(ev: I.Event, s: Settings, sigs: I.Signals)
      requires Wired()
      modifies this, clause, server
      ensures View() == I.Handle(server.env, old(View()), ev, s, sigs)
    {
      match ev {
        case Disabled => Recover();
        case Deactivated => CloseComposition();
        case Terminated => HandleAlone(ClientAction.EndComposition);
        case FocusChanged => HandleAlone(ClientAction.EndComposition);
        case LanguageBarToggle => HandleAlone(ClientAction.SetIMEMode(if mode == Kana then Latin else Kana));
        case PassedThrough(isShift) => shiftPending := shiftPending && isShift;
        case KeyDown(_) => HandlePlanned(ev, s, sigs);
        case ShiftUp => HandlePlanned(ev, s, sigs);
        case PreservedModeKey => HandlePlanned(ev, s, sigs);
      }
    }

    /** Every event keeps the stacks aligned and counts and group numbers in range, and keeps the composition
        open exactly while the client is composing unless it strands it. */
    method HandleEvent(ev: I.Event, s: Settings, sigs: I.Signals)
      requires Valid()
      modifies this, clause, server
      ensures Valid() && View() == I.Handle(server.env, old(View()), ev, s, sigs)
      ensures P.TipOk(old(View())) ==>
        (P.TipOk(View()) <==> !P.Stranded(server.env, old(View()), ev, s, sigs))
    {
      S.HandleStacks(server.env, View(), ev, s, sigs);
      R.HandleInRange(server.env, View(), ev, s, sigs);
      if P.TipOk(View()) {
        P.HandleTip(server.env, View(), ev, s, sigs);
      }
      Dispatch(ev, s, sigs);
    }
  }
}
