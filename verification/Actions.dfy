/** User actions, client actions, and the plan that turns one into a list of the other. */
module Actions {
  import opened Text
  import opened DelayedN
  import opened Clauses
  import opened ClauseTransitions
  import opened RomajiLookup

  datatype Phase = Idle | Composing | Previewing | Selecting

  datatype InputMode = Kana | Latin

  datatype UserAction =
    | Input(ch: char) | Backspace | Delete | Enter | CommitFirstClause | CommitAndNextClause | Space | Tab | Escape
    | Unknown | NavigateUp | NavigateDown | NavigateLeft | NavigateRight | AdjustClauseBoundary(right: bool)
    | Function(kind: SetTextType) | NumpadSymbol(symbol: char) | Digit(digit: char, numpad: bool)
    | ToggleInputMode | InputModeOn | InputModeOff

  datatype Direction = Left | Right | ToLast

  /** Whether an appended text goes through symbol resolution, romaji conversion only, or neither. */
  datatype Style = Resolved | Raw | Direct

  datatype ClientAction =
    | StartComposition | EndComposition | ShowCandidateWindow
    | AppendText(text: string, style: Style) | CommitTextDirect(text: string) | RemoveText
    | ShrinkText(text: string, style: Style) | SetTextWithType(kind: SetTextType)
    | EnsureClauseNavigationReady | MoveClause(direction: Direction) | AdjustBoundary(step: int)
    | SetSelection(selection: SetSelectionType) | SetTemporaryLatin(on: bool) | SetTemporaryLatinShiftPending(on: bool)
    | SetIMEMode(mode: InputMode)

  predicate EditsText(a: ClientAction) {
    a.AppendText? || a.RemoveText? || a.ShrinkText? || a.SetTextWithType?
  }

  predicate EditsClauses(a: ClientAction) {
    a.EnsureClauseNavigationReady? || a.MoveClause? || a.AdjustBoundary? || a.SetSelection?
  }

  /** The settings a plan depends on; what the width tables make of a punctuation mark and of a directly
      entered symbol is a parameter. */
  datatype Settings = Settings(
    numpad: NumpadMode, alwaysHalfSpace: bool, candidateWindowAfterSpace: bool,
    punctuationCommit: bool, punctuation: bool, exclamation: bool, question: bool,
    lookup: Lookup, punctuationText: char -> string, directSymbol: char -> char)

  datatype NumpadMode = DirectInput | AlwaysHalf | FollowInputMode

  datatype Key = Key(action: UserAction, shift: bool, latinShortcut: bool, isShift: bool)

  datatype Plan = Plan(phase: Phase, actions: seq<ClientAction>)

  /** The part of a composition a plan looks at. */
  datatype Situation = Situation(client: Client, phase: Phase, temporaryLatin: bool, shiftPending: bool,
                                 mode: InputMode)

  /* ----- texts ----- */

  predicate IsAsciiPunctuationOrDigit(c: char) {
    '!' <= c <= '@' || '[' <= c <= '`' || '{' <= c <= '~'
  }

  function ToHalfwidth(c: char): char {
    if c == '\U{3000}' then ' '
    else if '\U{FF01}' <= c <= '\U{FF5E}' then (c as int - 0xFEE0) as char
    else c
  }

  function ToFullwidth(c: char): char {
    if c == ' ' then '\U{3000}'
    else if IsAsciiPunctuationOrDigit(c) then (c as int + 0xFEE0) as char
    else c
  }

  function NumpadText(c: char, mode: NumpadMode, passThrough: bool): Option<string> {
    match mode
    case DirectInput => if passThrough then None else Some([ToHalfwidth(c)])
    case AlwaysHalf => Some([ToHalfwidth(c)])
    case FollowInputMode => Some([ToFullwidth(c)])
  }

  function InputText(c: char, mode: InputMode): string {
    if mode == Kana && 'A' <= c <= 'Z' then [Lower(c)] else [c]
  }

  function DirectText(a: UserAction, s: Settings): Option<string> {
    match a
    case Input(c) => Some([s.directSymbol(c)])
    case Space => Some(" ")
    case NumpadSymbol(c) => Some([c])
    case Digit(d, _) => Some([d])
    case _ => None
  }

  /* ----- punctuation that commits ----- */

  predicate CommitsOn(c: char, s: Settings) {
    || (c in {',', '.', '\U{3001}', '\U{3002}', '\U{FF0C}', '\U{FF0E}'} && s.punctuation)
    || (c in {'!', '\U{FF01}'} && s.exclamation)
    || (c in {'?', '\U{FF1F}'} && s.question)
  }

  predicate PunctuationCommits(a: UserAction, x: Situation, s: Settings) {
    s.punctuationCommit && x.mode == Kana
    && ((a.Input? && CommitsOn(a.ch, s) && !HasMultiCharacterContext(s.lookup, x.client.rawInput, a.ch))
        || (a.NumpadSymbol? && CommitsOn(a.symbol, s)
            && !HasMultiCharacterContext(s.lookup, x.client.rawInput, a.symbol)))
  }

  function PunctuationText(a: UserAction, s: Settings): string
    requires a.Input? || a.NumpadSymbol?
  {
    if a.Input? then s.punctuationText(a.ch) else NumpadText(a.symbol, s.numpad, false).GetOr([a.symbol])
  }

  /* ----- plans ----- */

  /** The text an action types in a composition that is already open. */
  function TypedText(a: UserAction, mode: InputMode, s: Settings): Option<ClientAction> {
    match a
    case NumpadSymbol(c) =>
      if mode == Kana then Some(AppendText(NumpadText(c, s.numpad, false).GetOr([c]), Raw)) else None
    case Input(c) => Some(AppendText(InputText(c, mode), Resolved))
    case Digit(d, numpad) =>
      if numpad && mode == Kana then Some(AppendText(NumpadText(d, s.numpad, false).GetOr([d]), Raw))
      else Some(AppendText([d], Resolved))
    case _ => None
  }

  function CommitCurrent(c: Client): Plan {
    if c.suffix == "" then Plan(Idle, [EndComposition]) else Plan(Composing, [ShrinkText("", Resolved)])
  }

  function CommitEnter(c: Client): Plan {
    if Active(c) then Plan(Idle, [EndComposition]) else CommitCurrent(c)
  }

  function Repeat(a: ClientAction, n: nat): (r: seq<ClientAction>)
    ensures |r| == n && forall i :: 0 <= i < n ==> r[i] == a
  {
    seq(n, _ => a)
  }

  /** Back to the first clause, then end, or cut the first clause off. */
  function CommitFirst(c: Client): Plan {
    var lefts := Repeat(MoveClause(Left), |c.passed|);
    var firstSuffix := if c.passed != [] then c.passed[0].suffix else c.suffix;
    if firstSuffix == "" then Plan(Idle, lefts + [EndComposition])
    else Plan(Composing, lefts + [ShrinkText("", Resolved)])
  }

  function Navigation(c: Client, toRight: bool): seq<ClientAction> {
    if Active(c) || c.suffix != "" then [EnsureClauseNavigationReady, MoveClause(if toRight then Right else Left)]
    else if toRight then [EnsureClauseNavigationReady]
    else [EnsureClauseNavigationReady, MoveClause(ToLast)]
  }

  function CandidatePreview(s: Settings): seq<ClientAction> {
    (if s.candidateWindowAfterSpace then [ShowCandidateWindow] else []) + [SetSelection(Down)]
  }

  function CommitThenAppend(append: ClientAction, latin: bool): Plan {
    Plan(Composing, [EndComposition, StartComposition] + (if latin then [SetTemporaryLatin(true)] else []) + [append])
  }

  function PunctuationPlan(text: string): Plan {
    Plan(Idle, [EndComposition, CommitTextDirect(text)])
  }

  function PlanIdle(a: UserAction, x: Situation, shift: bool, startLatin: bool, s: Settings): Option<Plan> {
    if (x.temporaryLatin || startLatin) && DirectText(a, s).Some? then
      Some(Plan(Composing, [StartComposition] + (if startLatin then [SetTemporaryLatin(true)] else [])
                           + [AppendText(DirectText(a, s).value, Direct)]))
    else match a
      case NumpadSymbol(c) =>
        var text := NumpadText(c, s.numpad, true);
        if x.mode == Kana && text.Some? then Some(Plan(Composing,
                                                       [StartComposition, AppendText(text.value, Raw)])) else None
      case Input(c) =>
        if x.mode == Kana then Some(Plan(Composing,
                                         [StartComposition, AppendText(InputText(c, x.mode), Resolved)])) else None
      case Digit(d, numpad) =>
        var text := NumpadText(d, s.numpad, true);
        if x.mode != Kana then None
        else if !numpad then Some(Plan(Composing, [StartComposition, AppendText([d], Resolved)]))
        else if text.Some? then Some(Plan(Composing, [StartComposition, AppendText(text.value, Raw)]))
        else None
      case Space =>
        if x.mode == Kana then
          Some(Plan(Idle,
                    [StartComposition, AppendText(if s.alwaysHalfSpace != shift then " " else "\U{3000}", Resolved),
                           EndComposition]))
        else None
      case ToggleInputMode => Some(Plan(Idle, [SetIMEMode(if x.mode == Kana then Latin else Kana)]))
      case InputModeOn => Some(Plan(Idle, [SetIMEMode(Kana)]))
      case InputModeOff => Some(Plan(Idle, [SetIMEMode(Latin)]))
      case _ => None
  }

  predicate ShrinksBeforeDirect(c: Client, startLatin: bool) {
    startLatin && EndsWith(c.rawInput, "n") && EndsWith(c.rawHiragana, "\U{3093}")
    && RawInputSuffix(c.rawInput, c.count) == ""
  }

  /** What Composing and Previewing plan alike once text input is dealt with. */
  function PlanCommon(a: UserAction, x: Situation, s: Settings): Option<Plan> {
    match a
    case Backspace | Delete =>
      if |x.client.rawInput| <= 1 then Some(Plan(Idle, [RemoveText, EndComposition]))
      else Some(Plan(Composing, [RemoveText]))
    case Enter => Some(CommitEnter(x.client))
    case CommitAndNextClause => Some(CommitCurrent(x.client))
    case CommitFirstClause => Some(CommitFirst(x.client))
    case AdjustClauseBoundary(right) => Some(Plan(x.phase, [AdjustBoundary(if right then 1 else -1)]))
    case Escape => Some(Plan(Idle, [RemoveText, EndComposition]))
    case NavigateRight => Some(Plan(Composing, Navigation(x.client, true)))
    case NavigateLeft => Some(Plan(Composing, Navigation(x.client, false)))
    case NavigateUp => Some(Plan(Previewing, [SetSelection(Up)]))
    case NavigateDown => Some(Plan(Previewing, [SetSelection(Down)]))
    case ToggleInputMode => Some(Plan(Idle, [EndComposition, SetIMEMode(Latin)]))
    case InputModeOn => Some(Plan(Idle, [EndComposition, SetIMEMode(Kana)]))
    case InputModeOff => Some(Plan(Idle, [EndComposition, SetIMEMode(Latin)]))
    case Space | Tab => Some(Plan(Previewing, CandidatePreview(s)))
    case Function(kind) => Some(Plan(Previewing, [SetTextWithType(kind)]))
    case _ => None
  }

  function PlanComposing(a: UserAction, x: Situation, startLatin: bool, s: Settings): Option<Plan> {
    if !x.temporaryLatin && !startLatin && PunctuationCommits(a, x, s) then Some(PunctuationPlan(PunctuationText(a, s)))
    else if (x.temporaryLatin || startLatin) && DirectText(a, s).Some? then
      var text := DirectText(a, s).value;
      var append :=
        if ShrinksBeforeDirect(x.client, startLatin) then ShrinkText(text, Direct) else AppendText(text, Direct);
      Some(Plan(Composing, (if startLatin then [SetTemporaryLatin(true)] else []) + [append]))
    else
      var typed := TypedText(a, x.mode, s);
      if typed.Some? then Some(Plan(Composing, [typed.value])) else PlanCommon(a, x, s)
  }

  function PlanPreviewing(a: UserAction, x: Situation, startLatin: bool, s: Settings): Option<Plan> {
    if !x.temporaryLatin && !startLatin && PunctuationCommits(a, x, s) then Some(PunctuationPlan(PunctuationText(a, s)))
    else if (x.temporaryLatin || startLatin) && DirectText(a, s).Some? then
      Some(CommitThenAppend(AppendText(DirectText(a, s).value, Direct), true))
    else
      var typed := TypedText(a, x.mode, s);
      if typed.Some? then Some(CommitThenAppend(typed.value, false)) else PlanCommon(a, x, s)
  }

  function PlanFor(a: UserAction, x: Situation, shift: bool, startLatin: bool, s: Settings): Option<Plan> {
    match x.phase
    case Idle => PlanIdle(a, x, shift, startLatin, s)
    case Composing => PlanComposing(a, x, startLatin, s)
    case Previewing => PlanPreviewing(a, x, startLatin, s)
    case Selecting => None
  }

  /* ----- the key handler around the plan ----- */

  predicate Confirms(a: UserAction) {
    a.Enter? || a.CommitAndNextClause? || a.CommitFirstClause?
  }

  predicate Ends(p: Plan) {
    p.phase == Idle || exists i :: 0 <= i < |p.actions| && (p.actions[i].EndComposition? || p.actions[i].SetIMEMode?)
  }

  /** Leaving the composition also leaves temporary latin, and a pending shift is forgotten. */
  function WithResets(x: Situation, key: Key, p: Plan): Plan {
    var latin := if x.temporaryLatin && (Confirms(key.action) || Ends(p)) then [SetTemporaryLatin(false)] else [];
    var pending := if x.shiftPending && !key.isShift then [SetTemporaryLatinShiftPending(false)] else [];
    Plan(p.phase, pending + latin + p.actions)
  }

  function ProcessKey(x: Situation, key: Key, s: Settings): Option<Plan> {
    if x.temporaryLatin && key.isShift then Some(Plan(x.phase, [SetTemporaryLatinShiftPending(true)]))
    else
      var startLatin := !x.temporaryLatin && x.mode == Kana && key.latinShortcut;
      var p := PlanFor(key.action, x, key.shift, startLatin, s);
      if p.None? then None else Some(WithResets(x, key, p.value))
  }

  function ProcessShiftUp(x: Situation): Option<Plan> {
    if !x.shiftPending then None
    else Some(Plan(x.phase, (if x.temporaryLatin then [SetTemporaryLatin(false)] else [])
                            + [SetTemporaryLatinShiftPending(false)]))
  }
}
