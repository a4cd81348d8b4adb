/** Executing a list of client actions: the clause state, the server, the open or closed text-service
    composition and the phase the plan leads to. */
module Interpreter {
  import opened Text
  import opened DelayedN
  import opened Clauses
  import opened ConversionServer
  import opened ClauseTransitions
  import opened Actions

  /** Whether a server session change is found when an action looks for one, before and after its call. */
  datatype Signal = Signal(before: bool, after: bool)

  const QUIET := Signal(false, false)

  /** `tip` is the open composition, `shown` the text in it, `document` the text committed so far; `stray` records
      text written while there was no composition. */
  datatype Session = Session(
    client: Client, server: ServerState, tip: bool, stray: bool, phase: Phase, temporaryLatin: bool,
    shiftPending: bool, mode: InputMode, shown: string, document: string)

  const FRESH := Session(EMPTY_CLIENT, EMPTY_SERVER, false, false, Idle, false, false, Kana, "", "")

  /** A session in the middle of an action list, with a display update put off to the next move. */
  datatype Exec = Exec(session: Session, deferred: bool)

  /** A call failed part-way through a list; all that is kept is the input mode, the text committed so far and
      whether text had gone astray. */
  datatype Ran = Ran(exec: Exec) | Broke(stray: bool, mode: InputMode, document: string)

  /* ----- the text-service composition ----- */

  /** Starting fails while a composition is open. */
  function Started(x: Session): Option<Session> {
    if x.tip then None else Some(x.(tip := true, shown := ""))
  }

  /** Closing a composition leaves its text in the document. */
  function Ended(x: Session): Session {
    if x.tip then x.(tip := false, document := x.document + x.shown, shown := "") else x
  }

  /** Discarding one takes its text out. */
  function Discarded(x: Session): Session {
    x.(tip := false, shown := "")
  }

  function Put(x: Session, text: string): Session {
    if x.tip then x.(shown := text) else x.(stray := true)
  }

  /** The clause on display and its remainder become the composition's text. */
  function Written(x: Session): Session {
    Put(x, x.client.preview + x.client.suffix)
  }

  /** The composition's first characters are committed and the rest is replaced. */
  function ShiftStart(x: Session, committed: string, text: string): Session {
    if x.tip then x.(document := x.document + Take(x.shown, |committed|), shown := text) else x.(stray := true)
  }

  /* ----- clearing ----- */

  /** The client's fields after the composition has ended; the last candidates stay behind. */
  function ClearedClient(c: Client): Client {
    EMPTY_CLIENT.(candidates := c.candidates)
  }

  predicate HasComposition(c: Client) {
    c.rawInput != "" || c.preview != "" || c.suffix != "" || c.fixedPrefix != "" || !c.candidates.IsEmptyComposition()
  }

  /** The server returned an empty composition: everything is dropped. */
  function ResetEmpty(x: Session): Session {
    Discarded(x).(client := EMPTY_CLIENT, server := EMPTY_SERVER, phase := Idle, temporaryLatin := false,
                  shiftPending := false)
  }

  /** The client's composition was stale when new text arrived: it starts over with that text. */
  function ResetStale(x: Session): Session {
    x.(client := EMPTY_CLIENT.(candidates := x.client.candidates, selection := x.client.selection),
       tip := true, shown := "", phase := Composing, temporaryLatin := false, shiftPending := false)
  }

  function ClearedCaches(x: Session): Session {
    x.(client := x.client.(passed := [], future := [], mark := NO_SPLIT),
       server := if x.client.passed == [] then x.server else x.server.(snapshots := []))
  }

  function MaxCount(counts: seq<int>): int
    requires counts != []
  {
    if |counts| == 1 then counts[0]
    else
      var m := MaxCount(counts[..|counts| - 1]);
      if m > counts[|counts| - 1] then m else counts[|counts| - 1]
  }

  /** The answer to an append covers no more than the appended text. */
  predicate LooksReset(rawInput: string, previous: Candidates, text: string, appended: Candidates) {
    rawInput != "" && !previous.IsEmptyComposition() && !appended.IsEmptyComposition()
    && |text| > 0 && appended.counts != [] && 0 < MaxCount(appended.counts) <= |text|
  }

  /** The selected candidate becomes the clause on display. */
  function Adopted(c: Client, s: Selection, fixedPrefix: string): Client {
    c.(selection := s.index, count := s.count, preview := Merge(fixedPrefix, s.text), suffix := s.subText,
       rawHiragana := s.hiragana)
  }

  /* ----- the actions ----- */

  function TextOf(env: Env, x: Session, rawInput: string, text: string, style: Style): string {
    if style == Resolved && x.mode == Kana then env.symbol(rawInput, text) else text
  }

  /** The answer to an append, shown unless there is nothing to show. */
  function Received(x: Session, typed: string, candidates: Candidates): Session {
    var client := x.client.(rawInput := x.client.rawInput + typed, candidates := candidates);
    var s := SelectCandidate(candidates, client.selection);
    if s.Some? then Written(x.(client := Adopted(client, s.value, client.fixedPrefix)))
    else if candidates.IsEmptyComposition() then ResetEmpty(x)
    else x.(client := client)
  }

  /** An append finds the composition gone: a session change was seen, or the answer looks like one. */
  predicate Stale(x: Session, typed: string, appended: Candidates, sig: Signal) {
    (sig.before && HasComposition(x.client)) || LooksReset(x.client.rawInput, x.client.candidates, typed, appended)
  }

  /** A composition that is gone is forgotten before the answer is shown. */
  function Renewed(x: Session, stale: bool): Session {
    if stale then ResetStale(x).(client := ResetStale(x).client.(selection := 0)) else x
  }

  function Grown(env: Env, x: Session, typed: string, direct: bool, sig: Signal): Session {
    var reply := AppendRpc(env, x.server, typed, direct);
    Received(Renewed(x, Stale(x, typed, reply.candidates, sig)).(server := reply.server), typed, reply.candidates)
  }

  function DoAppend(env: Env, x: Session, text: string, style: Style, sig: Signal): Session {
    Grown(env, ClearedCaches(x), TextOf(env, x, x.client.rawInput, text, style), style == Direct, sig)
  }

  /** Nothing is left to show but the prefix committed so far; the composition closes on it. */
  function RemovedAll(x: Session): Session {
    var closed := Ended(Put(x, x.client.fixedPrefix));
    closed.(client := ClearedClient(x.client).(nextGroup := x.client.nextGroup), server := EMPTY_SERVER, phase := Idle,
            temporaryLatin := false, shiftPending := false)
  }

  /** What the answer to a deletion leads to. */
  function Deleted(x: Session, sig: Signal): Session {
    var s := SelectCandidate(x.client.candidates, x.client.selection);
    if sig.after && HasComposition(x.client) then ResetEmpty(x)
    else if s.Some? then Written(x.(client := Adopted(x.client, s.value, x.client.fixedPrefix)))
    else RemovedAll(x)
  }

  function Shortened(raw: string): string {
    if raw == "" then "" else raw[..|raw| - 1]
  }

  /** The client drops a raw character, the server deletes before its cursor. */
  function Removing(env: Env, x: Session): Session {
    var reply := RemoveRpc(env, x.server);
    x.(client := x.client.(rawInput := Shortened(x.client.rawInput), candidates := reply.candidates),
       server := reply.server)
  }

  function DoRemove(env: Env, x: Session, sig: Signal): Session {
    var cleared := ClearedCaches(x);
    if sig.before && HasComposition(cleared.client) then ResetEmpty(cleared)
    else Deleted(Removing(env, cleared), sig)
  }

  /** The first candidate is shown, and the client is composing, unless nothing is left.  After a restart it is the
      whole new text; otherwise the text before it is committed and the candidate takes the place of the rest. */
  function FirstShown(x: Session, restart: bool): Session {
    var s := SelectCandidate(x.client.candidates, 0);
    if s.Some? then
      var y := x.(client := Adopted(x.client, s.value, ""), phase := Composing);
      if restart then Written(y) else ShiftStart(y, x.client.preview, s.value.text)
    else if x.client.candidates.IsEmptyComposition() then ResetEmpty(x)
    else x.(phase := Composing)
  }

  /** The text after the clause that was cut off, with the new text behind it. */
  function Regrown(x: Session, shrunkRaw: string, text: string, typed: string, restart: bool, reply: Reply): Session {
    var y := (if restart then ResetStale(x) else x).(server := reply.server);
    FirstShown(y.(client := y.client.(rawInput := if restart then typed else shrunkRaw + text, selection := 0,
                                      candidates := reply.candidates)), restart)
  }

  /** The server drops the clause's inputs; the flag says that the composition is gone or used up. */
  function CutOff(env: Env, x: Session, sig: Signal): Option<(bool, ServerState)> {
    if sig.before && HasComposition(x.client) then Some((true, x.server))
    else
      var shrunk := ShrinkRpc(env, x.server, x.client.count);
      if shrunk.None? then None
      else Some((shrunk.value.candidates.IsEmptyComposition() || sig.after, shrunk.value.server))
  }

  function PrefixForgotten(x: Session): Session {
    ClearedCaches(x.(client := x.client.(fixedPrefix := "")))
  }

  function DoShrink(env: Env, x: Session, text: string, style: Style, sig: Signal): Option<Session> {
    var cleared := PrefixForgotten(x);
    var shrunkRaw := RawInputSuffix(cleared.client.rawInput, cleared.client.count);
    var typed := TextOf(env, x, shrunkRaw, text, style);
    var cut := CutOff(env, cleared, sig);
    if cut.None? then None
    else
      var y := cleared.(server := cut.value.1);
      Some(Regrown(y, shrunkRaw, text, typed, cut.value.0, AppendRpc(env, y.server, typed, style == Direct)))
  }

  /** The part of the raw text that belongs to the current clause. */
  function ClausePart(whole: string, next: Option<string>, count: int): string {
    var head := if next.Some? then StripSuffix(whole, next.value) else None;
    if head.Some? && head.value != "" then head.value else Take(whole, count)
  }

  function DoSetText(env: Env, x: Session, kind: SetTextType): Session {
    var c, next := x.client, Last(x.client.future);
    var input := ClausePart(c.rawInput, if next.Some? then Some(next.value.rawInput) else None, c.count);
    var reading := ClausePart(c.rawHiragana, if next.Some? then Some(next.value.rawHiragana) else None, c.count);
    Written(x.(client := WithSyncedSnapshots(c.(preview := Merge(c.fixedPrefix, env.render(kind, input, reading))))))
  }

  function MoveStep(env: Env, c: Client, s: ServerState, d: Direction): Step
    requires env.Contract()
  {
    match d
    case Left => MoveLeft(c, s)
    case Right => MoveRight(env, c, s)
    case ToLast => MoveToLast(env, c, s)
  }

  /** The display follows at once, or waits when a move to the last clause comes next. */
  function ShownReady(x: Session, effect: Effect, next: Option<ClientAction>, deferred: bool): Exec {
    match effect
    case ServerReset => Exec(ResetEmpty(x), deferred)
    case Skipped => Exec(x, deferred)
    case Applied(_) => if next == Some(MoveClause(ToLast)) then Exec(x, true) else Exec(Written(x), deferred)
  }

  function AfterEnsure(x: Session, m: Step, next: Option<ClientAction>, deferred: bool): Option<Exec> {
    if m.Failed? then None
    else Some(ShownReady(x.(client := m.client, server := m.server), m.effect, next, deferred))
  }

  function DoEnsure(env: Env, x: Session, next: Option<ClientAction>, deferred: bool, sig: Signal): Option<Exec>
    requires env.Contract()
  {
    if sig.before && HasComposition(x.client) then Some(Exec(ResetEmpty(x), deferred))
    else AfterEnsure(x, StartNavigation(env, x.client, x.server), next, deferred)
  }

  function ShownMove(x: Session, effect: Effect, deferred: bool): Session {
    match effect
    case ServerReset => ResetEmpty(x)
    case Applied(_) => Written(x)
    case Skipped => if deferred then Written(x) else x
  }

  function AfterMove(x: Session, m: Step, deferred: bool): Option<Exec> {
    if m.Failed? then None
    else Some(Exec(ShownMove(x.(client := m.client, server := m.server), m.effect, deferred), false))
  }

  function DoMove(env: Env, x: Session, d: Direction, deferred: bool, sig: Signal): Option<Exec>
    requires env.Contract()
  {
    if sig.before && HasComposition(x.client) then Some(Exec(ResetEmpty(x), deferred))
    else AfterMove(x, MoveStep(env, x.client, x.server, d), deferred)
  }

  function ShownEdit(x: Session, effect: Effect, sig: Signal): Session {
    if effect.ServerReset? || (sig.after && HasComposition(x.client)) then ResetEmpty(x)
    else if effect.Applied? then Written(x)
    else x
  }

  function AfterAdjust(x: Session, m: Step, sig: Signal): Option<Session> {
    if m.Failed? then None
    else Some(ShownEdit(x.(client := m.client, server := m.server), m.effect, sig))
  }

  function DoAdjust(env: Env, x: Session, step: int, sig: Signal): Option<Session>
    requires env.Contract()
  {
    if sig.before && HasComposition(x.client) then Some(ResetEmpty(x))
    else AfterAdjust(x, ClauseTransitions.AdjustBoundary(env, x.client, x.server, step), sig)
  }

  function DoSelect(x: Session, kind: SetSelectionType): Session {
    var r := ClauseTransitions.SetSelection(x.client, kind);
    var y := x.(client := r.0);
    if r.1.Applied? then Written(y) else y
  }

  function DoEnd(x: Session): Session {
    Ended(x).(client := ClearedClient(x.client), server := EMPTY_SERVER, temporaryLatin := false, shiftPending := false)
  }

  /** Text committed on its own; like every start it fails while a composition is open. */
  function DoCommitDirect(x: Session, text: string): Option<Session> {
    if Started(x).None? then None else Some(Ended(Put(Started(x).value, text)))
  }

  /** A mode change opens a composition, to ask for its place, and closes it again. */
  function DoSetMode(x: Session, mode: InputMode): Option<Session> {
    if Started(x).None? then None else Some(DoEnd(Started(x).value).(mode := mode))
  }

  function Lift(x: Session, r: Option<Session>, deferred: bool): Ran {
    if r.Some? then Ran(Exec(r.value, deferred)) else Broke(x.stray, x.mode, x.document)
  }

  function LiftExec(x: Session, r: Option<Exec>): Ran {
    if r.Some? then Ran(r.value) else Broke(x.stray, x.mode, x.document)
  }

  /** One action; `next` is the one that follows in the list. */
  function Execute(env: Env, e: Exec, a: ClientAction, next: Option<ClientAction>, sig: Signal): Ran
    requires env.Contract()
  {
    var x := e.session;
    match a
    case StartComposition => Lift(x, Started(x), e.deferred)
    case EndComposition => Ran(Exec(DoEnd(x), e.deferred))
    case ShowCandidateWindow => Ran(e)
    case AppendText(text, style) => Ran(Exec(DoAppend(env, x, text, style, sig), e.deferred))
    case CommitTextDirect(text) => Lift(x, DoCommitDirect(x, text), e.deferred)
    case RemoveText => Ran(Exec(DoRemove(env, x, sig), e.deferred))
    case ShrinkText(text, style) => Lift(x, DoShrink(env, x, text, style, sig), e.deferred)
    case SetTextWithType(kind) => Ran(Exec(DoSetText(env, x, kind), e.deferred))
    case EnsureClauseNavigationReady => LiftExec(x, DoEnsure(env, x, next, e.deferred, sig))
    case MoveClause(d) => LiftExec(x, DoMove(env, x, d, e.deferred, sig))
    case AdjustBoundary(step) => Lift(x, DoAdjust(env, x, step, sig), e.deferred)
    case SetSelection(kind) => Ran(Exec(DoSelect(x, kind), e.deferred))
    case SetTemporaryLatin(on) =>
      Ran(Exec(x.(temporaryLatin := on, shiftPending := on && x.shiftPending), e.deferred))
    case SetTemporaryLatinShiftPending(on) => Ran(Exec(x.(shiftPending := on), e.deferred))
    case SetIMEMode(mode) => Lift(x, DoSetMode(x, mode), e.deferred)
  }

  type Signals = nat -> Signal

  /** The action at `i`. */
  function ExecuteAt(env: Env, e: Exec, actions: seq<ClientAction>, i: nat, sigs: Signals): Ran
    requires env.Contract() && i < |actions|
  {
    Execute(env, e, actions[i], if i + 1 < |actions| then Some(actions[i + 1]) else None, sigs(i))
  }

  /** The actions from the `i`-th on. */
  function ExecuteFrom(env: Env, e: Exec, actions: seq<ClientAction>, i: nat, sigs: Signals): Ran
    requires env.Contract() && i <= |actions|
    decreases |actions| - i
  {
    if i == |actions| then Ran(e)
    else
      var r := ExecuteAt(env, e, actions, i, sigs);
      if r.Broke? then r else ExecuteFrom(env, r.exec, actions, i + 1, sigs)
  }

  lemma ExecuteNext(env: Env, e: Exec, actions: seq<ClientAction>, i: nat, sigs: Signals)
    requires env.Contract() && i < |actions|
    ensures var r := ExecuteAt(env, e, actions, i, sigs);
            ExecuteFrom(env, e, actions, i, sigs)
              == if r.Broke? then r else ExecuteFrom(env, r.exec, actions, i + 1, sigs)
  {
  }

  /** A failed list leaves nothing behind: the composition is aborted and all state is cleared. */
  function Recovered(x: Session): Session {
    Discarded(x).(client := EMPTY_CLIENT, server := EMPTY_SERVER, phase := Idle, temporaryLatin := false,
                  shiftPending := false)
  }

  function Finished(x: Session, r: Ran): Session {
    if r.Broke? then Recovered(x).(stray := r.stray, mode := r.mode, document := r.document) else r.exec.session
  }

  function HandleActions(env: Env, x: Session, p: Plan, sigs: Signals): Session
    requires env.Contract()
  {
    Finished(x, ExecuteFrom(env, Exec(x.(phase := p.phase), false), p.actions, 0, sigs))
  }

  /* ----- events ----- */

  /** What reaches the text service: a key, a key it does not handle itself, a released shift key, the preserved
      mode key, the composition ended from outside, a focus change, the mode button of the language bar,
      deactivation, and a context in which the keyboard is disabled. */
  datatype Event =
    | KeyDown(key: Key) | PassedThrough(isShift: bool) | ShiftUp | PreservedModeKey
    | Terminated | FocusChanged | LanguageBarToggle | Deactivated | Disabled

  function SituationOf(x: Session): Situation {
    Situation(x.client, x.phase, x.temporaryLatin, x.shiftPending, x.mode)
  }

  /** The mode key turns temporary latin off whatever else it does. */
  function PlanModeKey(x: Session, s: Settings): Option<Plan> {
    var p := PlanFor(ToggleInputMode, SituationOf(x), false, false, s);
    if p.None? then None
    else Some(Plan(p.value.phase, (if x.temporaryLatin then [SetTemporaryLatin(false)] else []) + p.value.actions))
  }

  /** The plan of an event that is planned for. */
  function PlanOf(x: Session, ev: Event, s: Settings): Option<Plan> {
    match ev
    case KeyDown(key) => ProcessKey(SituationOf(x), key, s)
    case ShiftUp => ProcessShiftUp(SituationOf(x))
    case PreservedModeKey => PlanModeKey(x, s)
    case _ => None
  }

  /** A key without any effect of its own still makes a pending shift forgotten. */
  function Unplanned(x: Session, isShift: bool): Session {
    x.(shiftPending := x.shiftPending && isShift)
  }

  function OtherMode(mode: InputMode): InputMode {
    if mode == Kana then Latin else Kana
  }

  /** A single action on the way to Idle; when it fails nothing is written back. */
  function HandleAlone(env: Env, x: Session, a: ClientAction): Session
    requires env.Contract()
  {
    var r := Execute(env, Exec(x.(phase := Idle), false), a, None, QUIET);
    if r.Broke? then x else r.exec.session
  }

  /** An event is carried out as planned for the state it finds. */
  function HandlePlanned(env: Env, x: Session, ev: Event, s: Settings, sigs: Signals): Session
    requires env.Contract()
  {
    var p := PlanOf(x, ev, s);
    if p.Some? then HandleActions(env, x, p.value, sigs)
    else if ev.KeyDown? then Unplanned(x, ev.key.isShift)
    else x
  }

  function Handle(env: Env, x: Session, ev: Event, s: Settings, sigs: Signals): Session
    requires env.Contract()
  {
    match ev
    case Disabled => Recovered(x)
    case Deactivated => Ended(x)
    case Terminated | FocusChanged => HandleAlone(env, x, EndComposition)
    case LanguageBarToggle => HandleAlone(env, x, SetIMEMode(OtherMode(x.mode)))
    case PassedThrough(isShift) => Unplanned(x, isShift)
    case _ => HandlePlanned(env, x, ev, s, sigs)
  }
}
