# Clause navigation, recovery and romaji tables of a Japanese input method

This project models three parts of the input method and proves properties of them.

**Clause navigation.** A converted sentence is a row of clauses. The client keeps the clauses already passed on
one stack, the clause under the cursor in a dozen fields, and the clauses ahead in a cache; the conversion server
keeps a stack of saved composing texts of its own, which the client can only reach through the coded cursor
offsets 125, 126 and 127 and through `ShrinkText`. `ClauseState` is the client's state updated in place,
`ConversionServer` the server, `ClauseTransitions` the state machine both are proved to follow.
`ClauseInvariants` proves what every step keeps (stacks aligned input for input, texts chained, groups only on
split clauses), `ClauseTheorems` what sequences of steps do (n right moves undone by n left moves, cache round
trip, one sentence shown by all snapshots), `Selecting` what the rules that pick a candidate guarantee,
`ClauseMeaning` what the rules for display, steering and restoring come to, `Boundaries` which boundary an edit gives
the clause, `FutureCache` what a split keeps of the cache and that it conserves the reading, `SplitGroups` what many
edits in a row add up to, `LookAhead` which clauses the rebuilt cache holds in which order, `Spelling` when the
client's raw input spells the server's input, `Ranges` that counts and split-group numbers stay in range, `Refusals`
what becomes of a clause too long for the server's offset.
`Actions` is the planner that turns a key into a list of client actions, `Interpreter` and `TextService` execute such a
list, keeping the text shown in the open composition and the text committed. `Effects` says what each action leaves
on both sides, on display and in the document, `Keys` what each key does, and `SessionInvariants`, `TipInvariants`,
`Display`, `TemporaryLatin` and `Runs` prove what any run of events keeps. `DelayedN` compares the two sides'
treatment of a boundary after a waiting `n`; `CursorPrefix` is the server's choice of the first clause.

**Recovery.** Edits sent to the server are not idempotent, and a call may fail before or after it took effect,
with or without a restart of the server. `Recovery` runs the client's reconnect, refresh and replay against every
such pattern and proves exactly when nothing is applied twice or lost.

**Romaji tables.** `RomajiTable`, `RomajiTableBuilder` and `RomajiTableProofs` model the compiler from rows to a keyed
table and its printed form, and `RomajiMeaning` states the results about the rows as they are written;
`RomajiLookup` is the client's index over the same rows.

Objects that the program updates in place are classes whose methods are proved to compute a function of the old
state; the theorems are about those functions. The kana-kanji converter, the cursor arithmetic of the composing
text, text insertion and deletion, the width tables and the symbol substitution are arbitrary functions collected
in `Env`. Its contract asks that an offered candidate stands for at least one input and that an empty text
yields an empty composition; it is needed for termination and wherever a lemma requires `env.Contract()`.

## What came out differently from what one would expect

- The client can be left in the composing state with no composition open in exactly two ways
  (`TipInvariants.HandleTip`, `Runs.RunTip`). One is a space typed while nothing is composed, when it is the first
  call to notice a new server session and candidates of an earlier composition are still around
  (`Runs.TrapReached`). The other is deactivation while composing, which closes the composition and leaves the
  client's state as it was (`Runs.DeactivationReached`).
- After a clause is cut off, the composition shows the first candidate for the rest without that candidate's own
  remainder (`Display.CutShows`), until the next edit, move or selection displays the whole again; as long as no clause
  has been cut off, a client that was never stranded shows everything in every state it reaches
  (`Display.RunDisplays`).
- Escape does not discard the composition: it deletes one character and commits what the server offers for the rest
  (`Keys.EscapeKey`).
- A commit of the first clause that meets another server session, or after which the server has nothing left, does not
  commit the clause: its text gives way to what the new text alone gives (`Effects.CutMetAnother`,
  `Effects.ShrinkRestarts`), and to nothing where the server then has nothing to show
  (`Effects.CutToNothing`).
- The recovery of `MoveCursor(126)` cannot see whether the snapshot was pushed, and can push it twice
  (`Recovery.PushCanDouble`).
- A boundary after a waiting `n` is placed differently by client and server when a non-letter or a directly
  entered piece is involved (`DelayedN.SplitAgreement`, `DelayedN.SplitDisagreementExample`).
- A clause of more than 127 inputs cannot be passed: the server's offset has eight bits, the call is refused, and the
  composition is discarded; the same happens when such a clause is committed (`Refusals.LongClauseDiscarded`,
  `Refusals.LongCommitDiscarded`, `Ranges.ReachableRanges`).
- Starting navigation can change the sentence on display, because the remainder is shown with the clauses converted
  anew (`Selecting.NavigationChangesSentence`, with the exact condition in `Selecting.NavigationKeepsSentence`).
- Choosing a candidate of another length does not touch the cached clauses, so that a right move afterwards can
  enter a cached clause whose raw input is not what the server holds (`Spelling.CachedInputStale`).
- Left moves keep the sentence on display exactly when the snapshots agree on it; selections, boundary edits and
  function keys establish that agreement, right moves alone need not (`ClauseTheorems.LeftsKeepDisplay`).

## Model

| member | source | states |
|---|---|---|
| `Runs.ReachableStacks` | crates/client/src/engine/composition/clause_state.rs:408-638 | after any sequence of keys and events from the start, the client's and the server's stack have equal height, each saved server text minus the matching clause's count is the next one, the remaining input is the original minus the sum of the counts, and every passed clause's text begins the current one |
| `Runs.RunTip` | crates/client/src/engine/composition.rs:3902-5383 | for every run of keys, mode keys, focus changes, language-bar toggles, terminations, deactivations and disabled contexts, session changes included: the composition is open exactly while the state is not None and no text is written outside it, at every event, if and only if no event strands the client: a trapped space, or deactivation while composing |
| `Runs.QuietTip` | crates/client/src/tsf/edit_session.rs:92-202 | without session changes a run from the start keeps the composition open exactly while composing, and writes text only while it is open, if and only if the service is never deactivated while composing |
| `Runs.TrapReached` | crates/client/src/engine/composition.rs:4089-4163 | a letter, Enter, and a space that first notices a new session leave the client composing with no composition open |
| `Runs.DeactivationReached` | crates/client/src/tsf/text_input_proccesor.rs:126-142 | a letter and deactivation leave the client composing with no composition open, and the next letter is written with none open |
| `Runs.CommitFirstAgrees` | crates/client/src/engine/composition.rs:2722-2744 | from any clause, executing the plan for committing the first clause equals moving left to the first clause and committing the current clause there, and the state reached has nothing passed, the first clause current and the server at its first saved text |
| `Runs.CommitFirstEnds` | crates/client/src/engine/composition.rs:2733-2743 | the plan ends the composition exactly when the clause reached after all left moves has nothing behind it |
| `Runs.LeftsAfterFunctionKey` | crates/client/src/engine/composition.rs:5357-5383 | after a function-key conversion any number of left moves leaves the displayed sentence as it is |
| `Display.RunDisplays` | crates/client/src/tsf/edit_session.rs:204-317 | over every run from the start that never strands the client: what the open composition shows is the clause on display with everything behind it, or that clause alone; always with everything behind it as long as no clause has been cut off; and with nothing composed there is nothing to display |
| `Display.HandleDisplays` | crates/client/src/engine/composition.rs:3902-5383 | one event of any kind, any settings and session changes, keeps that |
| `Display.ActionKept` | crates/client/src/engine/composition.rs:4018-5383 | each action keeps it where the plans put it, a display update put off to the next move included |
| `Display.CutShows` | crates/client/src/engine/composition.rs:5066-5136 | a cut commits exactly the clause on display, shows the new first candidate alone, and so shows everything if and only if that candidate leaves no remainder |
| `Keys.RightKey` | crates/client/src/engine/composition.rs:2896-2913 | while clauses are navigated right is the right move: its client and server state, shown with the remainder when it applies, nothing committed; refused, everything is discarded |
| `Keys.LeftKey` | crates/client/src/engine/composition.rs:2896-2913 | left is the left move |
| `Keys.StartRightKey` | crates/client/src/engine/composition.rs:2896-2913 | with nothing navigated right starts navigation |
| `Keys.StartLeftKey` | crates/client/src/engine/composition.rs:2915-2954 | and left starts it and goes to the last clause, where the display put off before is made up for |
| `Keys.BoundaryKey` | crates/client/src/engine/composition.rs:3144-3219 | the boundary keys are the boundary edit by one to their side |
| `Keys.SelectionKeys` | crates/client/src/engine/composition.rs:3144-3219 | up, down, space and tab show another candidate and lead to previewing |
| `Keys.EnterKey` | crates/client/src/engine/composition.rs:2713-2720 | Enter commits all that is shown while clauses are navigated or nothing follows, else it cuts the first clause off and goes on |
| `Keys.CommitAndNextKey` | crates/client/src/engine/composition.rs:2699-2711 | the same without regard to navigation |
| `Keys.BackspaceKey` | crates/client/src/engine/composition.rs:3144-3219 | backspace deletes, and with the last raw character closes the composition on what the deletion leaves |
| `Keys.EscapeKey` | crates/client/src/engine/composition.rs:3144-3219 | Escape deletes once and commits what is left: the prefix passed with a candidate for the shortened text, or the prefix alone |
| `Keys.FunctionKey` | crates/client/src/engine/composition.rs:3144-3219 | a function key shows its own rendering |
| `Keys.ModeKeys` | crates/client/src/engine/composition.rs:3144-3219 | the mode keys commit everything shown and set their mode |
| `Keys.CharacterKey` | crates/client/src/engine/composition.rs:3076-3142 | a character is appended while composing; while previewing it commits what is shown first |
| `Keys.FirstCharacterKey` | crates/client/src/engine/composition.rs:2987-3075 | with nothing composed it opens a composition |
| `Keys.FirstSpaceKey` | crates/client/src/engine/composition.rs:2987-3075 | a space with nothing composed is typed and committed at once, in the width the setting and shift ask for |
| `Keys.PunctuationKey` | crates/client/src/engine/composition.rs:2747-2868 | a mark that commits by itself, as no rule goes on with it, commits what is shown and then itself |
| `Keys.NumberKey` | crates/client/src/engine/composition.rs:531-544 | digits are typed as they are, number-pad keys in the width of their setting and without symbol resolution |
| `Keys.FirstNumberKey` | crates/client/src/engine/composition.rs:2987-3075 | with nothing composed the number pad is passed through or opens a composition |
| `Keys.LatinShortcutKey` | crates/client/src/engine/composition.rs:456-469 | the shortcut into temporary latin types directly, after committing an n shown as a syllable of its own with nothing typed behind it |
| `Keys.LatinCharacterKey` | crates/client/src/engine/composition.rs:440-454 | in temporary latin characters are typed directly |
| `Keys.ShiftLeavesLatin` | crates/client/src/engine/composition.rs:3597-3638 | shift pressed and released alone leaves temporary latin and changes nothing else |
| `Keys.ConfirmInLatin` | crates/client/src/engine/composition.rs:3362-3595 | a key that confirms does the same in temporary latin as outside it |
| `TemporaryLatin.RunPending` | crates/client/src/engine/composition.rs:3484-3564 | over every run a shift that waits to be released means that temporary latin is on |
| `Keys.LanguageBarButton` | crates/client/src/tsf/language_bar.rs:108-123 | the mode button swaps the modes and clears the composition, and does nothing while one is open |
| `Keys.EndedOutside` | crates/client/src/engine/composition.rs:166-180 | ended from outside or by a focus change the text shown is committed; in a disabled context it is taken back |
| `Effects.AppendShows` | crates/client/src/engine/composition.rs:4089-4163 | typed text goes to both sides, clauses ahead and behind are given up, and the candidate nearest to the one selected is shown behind the same prefix, nothing committed |
| `Effects.TypedRaw` | crates/client/src/engine/composition.rs:672-731 | resolved text typed in kana mode is what the symbol rules make of it behind the raw input; any other text is added as it is |
| `Effects.StaleAppendShows` | crates/client/src/engine/composition.rs:4089-4163 | typed into a composition that is gone it starts a new one with that text alone |
| `Effects.StaleMeaning` | crates/client/src/engine/composition.rs:1792-1829 | a composition is taken to be gone exactly when another session is met while anything is left of one, or no candidate of a non-empty answer covers more than the appended text while one covers something |
| `Effects.RemoveShows` | crates/client/src/engine/composition.rs:4287-4399 | a deletion takes the last raw character and what the server deletes, and shows the nearest candidate for the rest |
| `Effects.RemoveCloses` | crates/client/src/engine/composition.rs:4287-4399 | with nothing left it commits the prefix passed and forgets everything |
| `Effects.ShrinkShows` | crates/client/src/engine/composition.rs:5017-5136 | cutting a clause off commits as many characters of what is shown as it has, drops its inputs at the server, keeps the raw input behind it, adds the new text on both sides and shows the first candidate alone |
| `Effects.ShrinkRestarts` | crates/client/src/engine/composition.rs:5048-5136 | with nothing left at the server, or a session change met by the call, a new composition starts with the new text and nothing is committed |
| `Effects.CutToNothing` | crates/client/src/engine/composition.rs:5105-5136 | a cut after which the server has nothing to show drops the composition without committing the clause |
| `Effects.CutMetAnother` | crates/client/src/engine/composition.rs:5030-5062 | a session change met before the call does the same, and the server drops nothing |
| `Effects.DeletionMetAnother` | crates/client/src/engine/composition.rs:4287-4399 | a session change met before or by a deletion drops the composition, its text not committed |
| `Effects.MoveMetAnother` | crates/client/src/engine/composition.rs:4602-4755 | so does one met before a move |
| `Effects.StartMetAnother` | crates/client/src/engine/composition.rs:4464-4601 | before navigation starts |
| `Effects.EditMetAnother` | crates/client/src/engine/composition.rs:4756-4878 | or before or by a boundary edit |
| `Effects.SelectionSteps` | crates/client/src/engine/composition/clause_state.rs:786-820 | down selects the next candidate and up the one before, at the ends nothing moves, and prefix, raw input, candidate texts and cache stay |
| `Effects.DownThenUp` | crates/client/src/engine/composition/clause_state.rs:786-820 | down and then up comes back to the same candidate unless it was the last |
| `Effects.FunctionKeyShows` | crates/client/src/engine/composition.rs:5357-5383 | a function key shows the rendering of the inputs and reading the clause counts, and nothing else of the clause changes |
| `Effects.FunctionKeyBeforeCached` | crates/client/src/engine/composition.rs:5357-5383 | with a next clause cached it renders what stands in front of that clause |
| `TipInvariants.HandleTip` | crates/client/src/engine/composition.rs:2977-3359 | one event of any kind, any settings and session changes: open exactly while composing is kept if and only if the event is neither a trapped space nor a deactivation while composing |
| `TipInvariants.KeyKeepsTip` | crates/client/src/engine/composition.rs:3362-3595 | a key keeps it if and only if it is not a trapped space |
| `TipInvariants.ModeKeyKeepsTip` | crates/client/src/engine/composition.rs:3754-3841 | the preserved mode key always keeps it |
| `TipInvariants.AloneTip` | crates/client/src/tsf/thread_mgr_event_sink.rs:86-95 | a composition ended on its own by a focus change or from outside, and a mode change from the language bar, keep it, and a mode change refused because a composition is open changes nothing |
| `TipInvariants.AfterSound` | crates/client/src/engine/composition.rs:4018-5383 | each action, executed where the plans put it, keeps what is known about the composition being open |
| `TipInvariants.FrameSound` | crates/client/src/tsf/edit_session.rs:147-184 | opening, direct commits and mode changes never meet a composition that is already open where the plans put them, so they never fail |
| `TipInvariants.CommonJudged` | crates/client/src/engine/composition.rs:3144-3219 | commit, delete, navigation, selection and mode plans never write text or move clauses while no composition is open |
| `TipInvariants.ComposingJudged` | crates/client/src/engine/composition.rs:3076-3219 | the same for every plan made while composing |
| `TipInvariants.PreviewingJudged` | crates/client/src/engine/composition.rs:3220-3354 | the same for every plan made while previewing, including commit and retype |
| `TipInvariants.IdleJudged` | crates/client/src/engine/composition.rs:2987-3075 | the same with nothing composed, except for the space, whose three actions are given |
| `SessionInvariants.HandleStacks` | crates/client/src/engine/composition.rs:3902-5383 | every event keeps both stacks aligned and the texts chained |
| `SessionInvariants.ExecuteStacks` | crates/client/src/engine/composition.rs:4018-5383 | every single client action keeps them, whatever the server answers |
| `TextService.TextService.Append` | crates/client/src/engine/composition.rs:4089-4281 | the new state is the specified one: caches cleared, symbol resolved, stale composition restarted, first choice shown or everything reset |
| `TextService.TextService.Receive` | crates/client/src/engine/composition.rs:4138-4163 | the answer is adopted and shown, or everything is reset when it is empty |
| `TextService.TextService.LooksReset` | crates/client/src/engine/composition.rs:1792-1814 | true exactly when the greatest count answered is positive and covers no more than the appended text |
| `TextService.TextService.Remove` | crates/client/src/engine/composition.rs:4287-4399 | one raw character less, or everything closed when nothing is left or the session changed |
| `TextService.TextService.Shrink` | crates/client/src/engine/composition.rs:5017-5347 | the first clause is cut off at the server and the rest shown, restarted when the server had nothing; a refused call fails |
| `TextService.TextService.SetText` | crates/client/src/engine/composition.rs:5357-5383 | the clause shows the rendering of its own part of the input, and passed clauses follow |
| `TextService.TextService.EnsureNavigation` | crates/client/src/engine/composition.rs:4464-4601 | navigation starts, its display put off when a move to the last clause follows |
| `TextService.TextService.Move` | crates/client/src/engine/composition.rs:4602-4755 | the move's effect is shown, reset or skipped, with a display put off earlier made up for |
| `TextService.TextService.Adjust` | crates/client/src/engine/composition.rs:4756-4878 | the boundary edit's effect is shown, or everything is reset after a session change |
| `TextService.TextService.Select` | crates/client/src/engine/composition.rs:4923-5016 | the selection's effect is shown |
| `TextService.TextService.EndComposition` | crates/client/src/engine/composition.rs:4061-4088 | all composition fields but the candidates and the server's text are cleared |
| `TextService.TextService.Perform` | crates/client/src/engine/composition.rs:4018-5383 | one action of any kind changes the state as specified, and fails where the composition cannot be opened or the server refuses |
| `TextService.TextService.Handle` | crates/client/src/engine/composition.rs:3902-5383 | the loop over a list equals its execution one by one, and a refused call discards everything |
| `TextService.TextService.HandleEvent` | crates/client/src/engine/composition.rs:3362-3869 | every event leads to the specified state and keeps the stacks aligned, the texts chained and counts and group numbers in range; the composition stays open exactly while composing if and only if the event does not strand the client |
| `TextService.TextService.HandleAlone` | crates/client/src/tsf/language_bar.rs:108-123 | an action on its own succeeds on the way to None or changes nothing |
| `TextService.TextService.SwitchMode` | crates/client/src/engine/composition.rs:4879-4922 | the mode changes and the composition is cleared, unless a composition is open, when nothing changes |
| `TextService.TextService.ClearCaches` | crates/client/src/engine/composition.rs:1411-1442 | passed and cached clauses are forgotten, and the server is told to when clauses were passed |
| `TextService.TextService.CutOff` | crates/client/src/engine/composition.rs:5048-5066 | the server drops the clause, unless the composition is gone |
| `TextService.TextService.Regrow` | crates/client/src/engine/composition.rs:5066-5136 | what remains is shown, restarted with the new text alone when nothing remained |
| `ClauseTheorems.LeftsUndoRights` | crates/client/src/engine/composition/clause_state.rs:441-633 | for every n, n right moves that each pass a clause followed by n left moves restore all of the client but the future cache and the server's text, cursor and stack exactly |
| `ClauseTheorems.CacheRoundTrip` | crates/client/src/engine/composition/clause_state.rs:483-515 | left then right through the cache restores text, prefix, raw input, reading, count, marks, both stacks, the cache and the server's input; the selection is the one resolved from the cache and the remainder the one the rest of the cache displays |
| `ClauseTheorems.RoundTripKeepsSentence` | crates/client/src/engine/composition/clause_state.rs:483-515 | the clause that comes back shows the sentence it was left with exactly when its remainder followed the cached next clause already |
| `ClauseTheorems.SameReadingRoundTrip` | crates/client/src/engine/composition.rs:2479-2530 | the same whenever the server reports the reading the clause was left with |
| `ClauseTheorems.ResolvedChoice` | crates/client/src/engine/composition.rs:2532-2555 | the selection resolved on coming back has the text, remainder and count of the one selected before |
| `ClauseTheorems.LeftsKeepDisplay` | crates/client/src/engine/composition/clause_state.rs:594-630 | every number of left moves keeps the displayed sentence if and only if all snapshots agree on it |
| `ClauseTheorems.LeftsAfterSelection` | crates/client/src/engine/composition/clause_state.rs:786-820 | after a selection any number of left moves keeps the displayed sentence |
| `ClauseTheorems.LeftsAfterBoundaryEdit` | crates/client/src/engine/composition/clause_state.rs:713-783 | after a boundary edit any number of left moves keeps the displayed sentence |
| `ClauseTheorems.SyncAgrees` | crates/client/src/engine/composition.rs:2658-2696 | once suffixes are synchronised all snapshots show one sentence, the one shown before |
| `ClauseTheorems.AdjustBoundaryAgrees` | crates/client/src/engine/composition/clause_state.rs:652-700 | a boundary edit leaves all snapshots agreeing on the sentence |
| `ClauseTheorems.AdjustBoundaryChained` | crates/client/src/engine/composition/clause_state.rs:652-783 | a boundary edit keeps nested cached readings nested, and leaves a lower part of the cache with at most one new clause on top that shows exactly its own share |
| `Boundaries.EditTakesBoundary` | crates/client/src/engine/composition/clause_state.rs:652-700 | an edit moves the server from the end of the clause one step in its own direction; the clause becomes the first candidate offered there, behind the same prefix, with its count and reading; with none offered a step right changes nothing, a step left puts the cursor back and takes the longest shorter candidate |
| `Boundaries.EditLengthens` | crates/client/src/engine/composition/clause_state.rs:652-700 | where the server offers more inputs further right, an edit to the right lengthens the clause and one to the left shortens it |
| `Boundaries.EditUndone` | crates/client/src/engine/composition/clause_state.rs:652-700 | an edit and the opposite one bring the cursor back and the clause first offered there, with the count, text and reading it had |
| `Boundaries.EditSharesReading` | crates/client/src/engine/composition/clause_state.rs:713-783 | an edit keeps the cached clauses as far as they fit the reading behind the new boundary, and their shares are that reading |
| `Boundaries.EditSplitsInFront` | crates/client/src/engine/composition.rs:2307-2341 | with a real clause next, an edit keeps the whole cache and puts one clause in front of it that shows what lies between |
| `SplitGroups.EditsAddOne` | crates/client/src/engine/composition/clause_state.rs:652-783 | after any number of edits in any directions the cache is a lower part of what it was with at most one clause on top |
| `SplitGroups.SplitTakesIn` | crates/client/src/engine/composition.rs:2189-2306 | a next clause that a split made, or that this group left with another behind it, is made anew for the new remainder: same clauses below, same text behind it, the inputs and kana in front of the clause below |
| `SplitGroups.EditTakesIn` | crates/client/src/engine/composition.rs:2189-2306 | and so for a boundary edit |
| `SplitGroups.EditKeepsGroup` | crates/client/src/engine/composition/clause_state.rs:715-783 | an edit goes on with the split group under way and takes the next number only without one; a clause it makes and the edited clause share the group |
| `SplitGroups.HalvesShareGroup` | crates/client/src/engine/composition/clause_state.rs:715-783 | after a split any further edit goes on with the same group |
| `ClauseMeaning.BoundaryShowsRest` | crates/client/src/engine/composition.rs:1920-1947 | what an edit leaves is shown with the next cached clause as displayed in place of its reading |
| `ClauseMeaning.SelectionShowsRest` | crates/client/src/engine/composition.rs:1920-1947 | so is the remainder of a selected candidate |
| `ClauseTheorems.SelectionAgrees` | crates/client/src/engine/composition/clause_state.rs:786-820 | a selection leaves all snapshots agreeing on the sentence |
| `ClauseTheorems.LeftsShow` | crates/client/src/engine/composition/clause_state.rs:594-630 | n left moves leave the oldest clauses passed and show the sentence the n-th newest snapshot shows |
| `ClauseTheorems.MoveToLastArrives` | crates/client/src/engine/composition/clause_state.rs:413-439 | moving to the last clause terminates, and stops with no remainder or where a further right move changes nothing |
| `ClauseTheorems.NoProgressNoChange` | crates/client/src/engine/composition/clause_state.rs:544-570 | a right move without progress has left client and server exactly as they were |
| `ClauseTheorems.RightRefused` | crates/server/src/main.rs:1547-1599 | a right move is refused exactly when something follows and the count is outside 0 to 127 |
| `ClauseTheorems.ToLastRefused` | crates/client/src/engine/composition/clause_state.rs:413-439 | moving to the last clause is refused exactly when some clause met on the way has a count the server refuses |
| `ClauseTheorems.StartRefused` | crates/client/src/engine/composition/clause_state.rs:296-406 | starting navigation is refused exactly when it starts and some clause met by the look-ahead has such a count |
| `Ranges.ReachableRanges` | crates/server/src/main.rs:1087-1095 | in every reachable state no count is negative, a right move is refused exactly when something follows and the count is above 127, and the next split-group number belongs to no cached clause |
| `Ranges.HandleInRange` | crates/client/src/engine/composition.rs:3902-5383 | every event keeps counts non-negative and split-group numbers below the next one |
| `Ranges.NewGroupIsNew` | crates/client/src/engine/composition/clause_state.rs:715-736 | the number a new split group takes belongs to no clause, passed, current or cached |
| `Ranges.MoveRightInRange` | crates/client/src/engine/composition/clause_state.rs:441-592 | a right move keeps counts non-negative and group numbers in range |
| `Ranges.BoundaryEditedInRange` | crates/client/src/engine/composition/clause_state.rs:713-783 | so does a boundary edit, with a new group or the one under way |
| `Refusals.LongClauseDiscarded` | crates/client/src/engine/composition.rs:4602-4755 | moving right over a clause whose count the server refuses throws the whole composition away |
| `Refusals.LongCommitDiscarded` | crates/client/src/engine/composition.rs:2699-2720 | so does committing such a clause |
| `Refusals.LongFirstDiscarded` | crates/client/src/engine/composition.rs:2722-2744 | and committing the first clause from anywhere when the first clause is such a one |
| `Refusals.ShrinkRefused` | crates/client/src/engine/composition.rs:5017-5075 | cutting the clause off is refused exactly when no session change comes first and the count does not fit |
| `ClauseTheorems.PassedTextIsPrefix` | crates/client/src/engine/composition/clause_state.rs:441-592 | the text of every passed clause begins the prefix of the current one |
| `ClauseInvariants.MoveRightInv` | crates/client/src/engine/composition/clause_state.rs:441-592 | a right move, cached, fresh or undone, keeps stacks, text chain and group marks |
| `ClauseInvariants.MoveLeftInv` | crates/client/src/engine/composition/clause_state.rs:594-633 | a left move keeps them |
| `ClauseInvariants.MoveToLastInv` | crates/client/src/engine/composition/clause_state.rs:413-439 | moving to the last clause keeps them |
| `ClauseInvariants.AdjustBoundaryInv` | crates/client/src/engine/composition/clause_state.rs:652-700 | a one-step boundary edit never fails, keeps them, and leaves the server's input and stack alone |
| `ClauseInvariants.SetSelectionInv` | crates/client/src/engine/composition/clause_state.rs:786-820 | a selection keeps them |
| `ClauseInvariants.StartNavigationInv` | crates/client/src/engine/composition/clause_state.rs:296-406 | starting navigation keeps them |
| `ClauseInvariants.RebuildInvisible` | crates/client/src/engine/composition.rs:2344-2476 | looking ahead through all remaining clauses leaves server text, cursor and stack and every client field but the cache unchanged |
| `LookAhead.RebuildOrder` | crates/client/src/engine/composition.rs:2344-2476 | the k-th clause from the top of the rebuilt cache is the one reached by k + 1 right moves with empty stacks, with its text, raw input, reading and count (the first as repaired), and there are as many as moves that get on |
| `LookAhead.StartOrder` | crates/client/src/engine/composition/clause_state.rs:296-406 | the same of the cache navigation starts with |
| `LookAhead.WalkCollects` | crates/client/src/engine/composition.rs:2376-2461 | the walk collects each clause as it enters it |
| `ClauseInvariants.MoveRightStacks` | crates/client/src/engine/composition/clause_state.rs:441-592 | a right move either pushes exactly one snapshot on both sides, or passes nothing and leaves the server unchanged |
| `ClauseInvariants.RemainingInput` | server-swift/Sources/azookey-server/azookey_server.swift:1791-1826 | the server's input is its oldest saved input without the sum of the passed counts |
| `ClauseTransitions.MoveRightMeasure` | crates/client/src/engine/composition/clause_state.rs:413-439 | a right move with progress decreases (server input, cached clauses, stuck count), so the loops over right moves terminate |
| `ClauseTransitions.SteerSettles` | crates/client/src/engine/composition.rs:2595-2655 | the server's cursor stops at the first position that settles the clause, or for a stated reason: moves used up, a repeated answer, or nothing offered further left |
| `ClauseMeaning.SteerArrives` | crates/client/src/engine/composition.rs:2595-2655 | a clause's end within as many steps to the left as the reading has characters is reached, and the cursor stops there and not before |
| `ClauseTransitions.SteerKeeps` | crates/client/src/engine/composition.rs:2595-2655 | steering changes neither the server's input nor its stack |
| `ClauseState.ClauseState.MoveRight` | crates/client/src/engine/composition/clause_state.rs:441-592 | push, shrink, then the cached or the fresh next clause, exactly as specified |
| `ClauseState.ClauseState.EnterCached` | crates/client/src/engine/composition/clause_state.rs:483-515 | the cached clause is restored and the server steered to its end |
| `ClauseState.ClauseState.EnterFresh` | crates/client/src/engine/composition/clause_state.rs:516-592 | the server's candidates make the next clause, or the move is undone on both sides |
| `ClauseState.ClauseState.MoveLeft` | crates/client/src/engine/composition/clause_state.rs:594-633 | the clause goes to the cache, the previous one and the server's saved text come back |
| `ClauseState.ClauseState.MoveToLast` | crates/client/src/engine/composition/clause_state.rs:413-439 | the loop of right moves computes the specified final state |
| `ClauseState.ClauseState.Rebuild` | crates/client/src/engine/composition.rs:2344-2476 | the cache becomes the reverse of the clauses met on the walk |
| `ClauseState.ClauseState.Walk` | crates/client/src/engine/composition.rs:2376-2461 | the scratch walk collects the clauses it enters |
| `ClauseState.ClauseState.PopServer` | crates/client/src/engine/composition.rs:2463-2476 | as many saved texts are popped as the walk has passed |
| `ClauseState.ClauseState.EnsureClauseNavigationReady` | crates/client/src/engine/composition/clause_state.rs:296-406 | navigation starts with the first clause the server offers, unless it is active, impossible or useless |
| `ClauseState.ClauseState.Steer` | crates/client/src/engine/composition.rs:2595-2655 | the loop computes the specified cursor position and candidates |
| `ClauseState.ClauseState.SyncFutureSuffix` | crates/client/src/engine/composition.rs:1920-1947 | every candidate's remainder shows the cached next clause in place of its reading |
| `ClauseState.ClauseState.SyncPassedSuffixes` | crates/client/src/engine/composition.rs:2658-2696 | every passed snapshot is updated to the text now displayed |
| `ClauseState.ClauseState.MaybePushSplitFuture` | crates/client/src/engine/composition.rs:2077-2341 | stale clauses are popped and the split clause trimmed, replaced, pushed or bootstrapped as specified |
| `ClauseState.ClauseState.AdjustBoundary` | crates/client/src/engine/composition/clause_state.rs:652-700 | steer, move by one, and take the boundary found there or fall back |
| `ClauseState.ClauseState.ApplyBoundarySelection` | crates/client/src/engine/composition/clause_state.rs:713-783 | clause resized, cache split, group marked and suffixes synchronised |
| `ClauseState.ClauseState.SetSelection` | crates/client/src/engine/composition/clause_state.rs:786-820 | the selection is clamped and displayed, passed clauses follow |
| `ClauseState.ClauseState.TransitionWithBackend` | crates/client/src/engine/composition/clause_state.rs:236-264 | every command leads to the specified client state, server state and effect |
| `ClauseState.ClauseState.EnterNext` | crates/client/src/engine/composition/clause_state.rs:483-590 | the cached clause is entered when it matches what the server reports, else a fresh one |
| `ClauseState.ClauseState.AtBoundary` | crates/client/src/engine/composition/clause_state.rs:674-699 | the candidates at the new boundary, else the longest shorter one left of it with the cursor put back |
| `ClauseState.ClauseState.AdoptNavigation` | crates/client/src/engine/composition/clause_state.rs:521-541 | the cursor-prefix candidates are taken when they split the clause or are richer and compatible |
| `ClauseState.ClauseState.Enter` | crates/client/src/engine/composition/clause_state.rs:573-589 | the selected candidate becomes the clause |
| `ClauseState.ClauseState.TakeFirstClause` | crates/client/src/engine/composition/clause_state.rs:341-365 | the whole text is replaced by its first clause and the rest |
| `ClauseState.ClauseState.TrimStaleFuture` | crates/client/src/engine/composition.rs:2155-2170 | cached clauses that do not end the reading are popped |
| `ClauseState.ClauseState.SplitTopFuture` | crates/client/src/engine/composition.rs:2189-2341 | the top clause absorbs the remainder, or the remainder becomes a clause |
| `Clauses.SuffixRoundTrip` | crates/client/src/engine/composition.rs:1892-1918 | replacing a remainder's reading by the cached clause and restoring it undo each other |
| `Clauses.SelectCandidate` | crates/client/src/engine/composition.rs:748-768 | a selection exists exactly when there are candidates, its index is the one nearest to the desired index, and it carries that candidate's text |
| `Clauses.RecoveredExactly` | crates/client/src/engine/composition.rs:2033-2064 | a reading is recovered exactly when the server's has at least two characters and differs from the end of the full one in its first character and no other |
| `ClauseMeaning.OverrideMeaning` | crates/client/src/engine/composition.rs:839-868 | a rendering is carried over exactly when one of the five shows the clause's text, and then the first such |
| `ClauseMeaning.StartRendered` | crates/client/src/engine/composition.rs:870-902 | the first clause then shows that rendering of its own input and reading, and the remainder that of the cached next clause's |
| `ClauseMeaning.SnapshotFollows` | crates/client/src/engine/composition.rs:2658-2696 | a passed clause that begins the sentence shows the rest of it; its own candidate gets that rest, every other one that ended in the old rest ends in the new one |
| `ClauseMeaning.SelectionRecalled` | crates/client/src/engine/composition.rs:2532-2556 | a cached clause comes back with the first candidate of its text, remainder and count selected, else the one nearest to its old place |
| `ClauseMeaning.MatchMeaning` | crates/client/src/engine/composition.rs:2558-2578 | the cached clause is entered exactly when its reading begins or ends the server's, is ended by it, or differs in the first character alone |
| `Selecting.PreviewPick` | crates/client/src/engine/composition.rs:771-819 | the candidate picked for the text on display is the first that together with its remainder is that text, else the greatest by count, length and place among those that begin it, else the old selection; if any candidate begins the text, so does the pick |
| `Selecting.NavigationKeepsSentence` | crates/client/src/engine/composition/clause_state.rs:296-406 | starting navigation keeps the sentence on display, without a function-key rendering, if and only if the picked candidate begins it and the remainder is displayed as it is: nothing is cached, or it does not end in the next cached reading, or that clause is displayed as it is read; with a rendering whose two parts make up the text, if and only if the second part is displayed as it is; never when the first part does not begin the text |
| `Selecting.NavigationChangesSentence` | crates/client/src/engine/composition/clause_state.rs:366-404 | a case in which "ab" is on display before navigation starts and "aZ" after |
| `Selecting.EnteringKeepsSentence` | crates/client/src/engine/composition.rs:911-924 | entering a fresh clause extends the prefix to all text passed, and keeps the sentence exactly when the selected text begins the remainder or makes it up with its own remainder |
| `Selecting.CachedKeepsSentence` | crates/client/src/engine/composition/clause_state.rs:483-515 | entering a cached clause keeps the sentence exactly when its text and its remainder, as the rest of the cache displays it, are the remainder on display before |
| `Selecting.SplitLeftIsGreatest` | crates/client/src/engine/composition/clause_state.rs:702-710 | the candidate left of the boundary has the greatest smaller count, the last of equals |
| `Selecting.FreshTakesFirst` | crates/client/src/engine/composition/clause_state.rs:516-592 | a clause entered fresh is the first candidate of the cursor's prefix or of what the server keeps, whichever the adoption rule says, behind all text passed |
| `Selecting.StartTakes` | crates/client/src/engine/composition/clause_state.rs:341-365 | navigation starts with the picked candidate as the first clause |
| `Selecting.StartsWhen` | crates/client/src/engine/composition/clause_state.rs:296-340 | and it starts exactly when nothing is navigated, there is text, and the pick splits the input |
| `FutureCache.SplitFutureConserves` | crates/client/src/engine/composition.rs:2077-2341 | through every branch the cached readings stay nested, all but a new top clause are a lower part of the old cache, and the new clause shows exactly its own share of the reading |
| `FutureCache.SharesTelescope` | crates/client/src/engine/composition.rs:2077-2341 | the shares of nested cached clauses, in reading order, are the whole reading |
| `FutureCache.SplitBeforeActualClause` | crates/client/src/engine/composition.rs:2307-2341 | with a real clause cached next, the text up to it becomes one clause in front of it and nothing is dropped |
| `FutureCache.SplitKeeps` | crates/client/src/engine/composition.rs:2077-2341 | the longest lower part of the cache whose top ends the new remainder is kept, but for a top that takes the remainder in, and the new top reads from the new boundary to the end |
| `FutureCache.SplitSharesReading` | crates/client/src/engine/composition.rs:2077-2341 | for a remainder given as it is read or as displayed with the next clause, the shares of the new cache are its reading |
| `FutureCache.SplitsInFront` | crates/client/src/engine/composition.rs:2307-2341 | with a real clause next the whole cache stays and one clause is put in front of it, typed and read as what lies between |
| `FutureCache.NothingBetween` | crates/client/src/engine/composition.rs:2171-2188 | a remainder that is just the clause left on top puts nothing in front of a real one |
| `FutureCache.TypedUnderstood` | crates/client/src/engine/composition.rs:2077-2154 | a cached clause typed with exactly the remaining input decides the reading |
| `FutureCache.CountDecides` | crates/client/src/engine/composition.rs:2077-2154 | a remainder that says nothing leaves the count to decide |
| `FutureCache.BootstrapOnly` | crates/client/src/engine/composition.rs:2077-2154 | with nothing cached a clause is made exactly when the edit allows it and the remainder ends the reading |
| `ConversionServer.PushPop` | server-swift/Sources/azookey-server/azookey_server.swift:1803-1817 | popping undoes pushing |
| `ConversionServer.Server.MoveCursor` | server-swift/Sources/azookey-server/azookey_server.swift:1791-1826 | 125 clears, 126 pushes, 127 pops, 0 only observes, any other offset moves the cursor; an offset outside 8 bits is refused |
| `ConversionServer.Server.ShrinkText` | server-swift/Sources/azookey-server/azookey_server.swift:2392-2403 | at most all inputs are dropped from the front, the stack is untouched |
| `DelayedN.SplitAgreement` | crates/client/src/engine/composition.rs:1831-1878 | the client's raw suffix is what the server keeps if and only if the client does not move the boundary on its own |
| `DelayedN.SplitAgreementOnLetters` | crates/client/src/engine/composition.rs:1831-1878 | on letters that are not entered directly the suffix spells the server's input after the shrink |
| `DelayedN.SplitDisagreementExample` | crates/client/src/engine/composition.rs:1851-1878 | on `n1ka` the two differ |
| `DelayedN.ServerSplitIdempotent` | server-swift/Sources/azookey-server/azookey_server.swift:603-629 | adjusting an adjusted boundary changes nothing |
| `DelayedN.ClientSplitIdempotent` | crates/client/src/engine/composition.rs:1851-1878 | the same on the client |
| `Spelling.RightSpelled` | crates/client/src/engine/composition/clause_state.rs:470-515 | when the client's raw input spells the server's input for the current and all passed clauses, a right move over an adjusted count keeps that if and only if it is undone, or the clause entered is fresh and the client does not move the boundary on its own, or it is cached and its raw input spells what the server keeps |
| `Spelling.RightSpelledOnLetters` | crates/client/src/engine/composition/clause_state.rs:516-592 | on letters that are not entered directly a right move into a fresh clause always keeps it |
| `Spelling.LeftSpelled` | crates/client/src/engine/composition/clause_state.rs:594-633 | a left move keeps it |
| `Spelling.BoundarySpelled` | crates/client/src/engine/composition/clause_state.rs:652-700 | a boundary edit keeps it |
| `Spelling.SelectionSpelled` | crates/client/src/engine/composition/clause_state.rs:786-820 | a selection keeps it |
| `Spelling.NavigationSpelled` | crates/client/src/engine/composition/clause_state.rs:296-406 | starting navigation keeps it |
| `Spelling.CachedInputStale` | crates/client/src/engine/composition/clause_state.rs:786-820 | on letters and adjusted counts, choosing a shorter first clause and moving right into the cached next one leaves the client's raw input shorter than the server's input |
| `DelayedN.ServerSplit` | server-swift/Sources/azookey-server/azookey_server.swift:550-629 | the boundary lies inside the input and moves back by at most one |
| `DelayedN.ClientSplit` | crates/client/src/engine/composition.rs:1851-1878 | the boundary moves back by at most one |
| `CursorPrefix.ResolvedCount` | server-swift/Sources/azookey-server/azookey_server.swift:631-658 | a resolved count lies within the typed input and is already adjusted |
| `CursorPrefix.ResolvedParts` | server-swift/Sources/azookey-server/azookey_server.swift:631-658 | the count is the adjusted boundary of the typed input, and the text remaining that of the previewed input behind its own adjusted boundary |
| `CursorPrefix.RubyBoundaryMeaning` | server-swift/Sources/azookey-server/azookey_server.swift:785-800 | a ruby boundary is the end of one of the candidate's words counted from its start |
| `CursorPrefix.ScoreOrder` | server-swift/Sources/azookey-server/azookey_server.swift:785-880 | of two candidates the one with more inputs scores higher, four points each, but for the end of a sentence worth thirty inputs, a cut word worth forty and the places in the list |
| `CursorPrefix.PreferredAlike` | server-swift/Sources/azookey-server/azookey_server.swift:866-880 | alike otherwise, the longer candidate is preferred, and of equals the earlier |
| `CursorPrefix.FirstClauseMeaning` | server-swift/Sources/azookey-server/azookey_server.swift:1025-1071 | as soon as any boundary leaves something over the preferred one of those is taken, even where the whole would score higher |
| `CursorPrefix.MemoFaithful` | server-swift/Sources/azookey-server/azookey_server.swift:882-900 | the memo never changes an answer, for any questions in any order, if and only if equal keys resolve alike |
| `CursorPrefix.BestUnique` | server-swift/Sources/azookey-server/azookey_server.swift:866-880 | the preferred boundary is unique |
| `CursorPrefix.FirstPlacesMeaning` | server-swift/Sources/azookey-server/azookey_server.swift:969-1009 | the places kept are in order, their texts distinct, and every text is kept where it first stands |
| `CursorPrefix.OffersMeaning` | server-swift/Sources/azookey-server/azookey_server.swift:969-1009 | the offers stand at those places with their texts |
| `CursorPrefix.Resolver.FirstClauseCount` | server-swift/Sources/azookey-server/azookey_server.swift:1025-1071 | the count of the greatest boundary by score, count and lower index among those that leave something over, else among all positive ones |
| `CursorPrefix.Resolver.ResolveCached` | server-swift/Sources/azookey-server/azookey_server.swift:882-900 | the memoised answer is the uncached one |
| `CursorPrefix.Resolver.DisplayResults` | server-swift/Sources/azookey-server/azookey_server.swift:947-1009 | exactly the candidates that end at the boundary, distinct display texts in first-occurrence order; all main candidates without a boundary |
| `Recovery.EditAtMostOnce` | crates/client/src/engine/ipc_service.rs:425-493 | no failure pattern applies an edit twice in one session if and only if neither the live nor a fresh server, having accepted the edit, shows just the non-empty candidates known before and would accept it once more |
| `Recovery.AppendExactlyOnce` | crates/client/src/engine/ipc_service.rs:711-842 | every append that returns a result is in the live session exactly once if and only if the observations are faithful: the candidates shown before are known, an untouched and a fresh server show them or an empty composition, and a server with the append shows neither |
| `Recovery.LostAppendReplayed` | crates/client/src/engine/ipc_service.rs:693-842 | an append that never arrived, met by a refresh that shows the previous candidates, is sent again, applied once, and its answer is the result |
| `Recovery.LostEditReplayed` | crates/client/src/engine/ipc_service.rs:425-493 | so is any other edit |
| `Recovery.AppliedEditKept` | crates/client/src/engine/ipc_service.rs:425-493 | an edit that was applied before its answer was lost is not sent again when its effect shows |
| `Recovery.AppendFlagsReset` | crates/client/src/engine/ipc_service.rs:693-842 | the reset flag is raised exactly when the result comes from another session or the append was replayed into an emptied composition |
| `Recovery.EditFlagsReset` | crates/client/src/engine/ipc_service.rs:328-352 | for other edits it is raised exactly when the session has changed |
| `Recovery.PushCanDouble` | crates/client/src/engine/ipc_service.rs:959-987 | the snapshot push can be applied twice in one session |
| `Recovery.IpcService.TakeServerResetRecovered` | crates/client/src/engine/ipc_service.rs:354-358 | the flag is handed over once |
| `Recovery.IpcService.RunNonIdempotentEditWithReconnect` | crates/client/src/engine/ipc_service.rs:434-493 | reconnect, refresh and replay run as specified for every failure pattern |
| `Recovery.IpcService.AppendTextWithContext` | crates/client/src/engine/ipc_service.rs:711-842 | the same for appends, with the flag raised for a replay into an emptied composition |
| `RomajiTableProofs.CompiledSound` | server-swift/Sources/azookey-server/romaji_table_compiler.swift:104-178 | every compiled entry is justified by the rules: one step, two steps, a re-reading, a commit, a prefix on the way, or a token rule |
| `RomajiTableProofs.CompiledKeys` | server-swift/Sources/azookey-server/romaji_table_compiler.swift:104-178 | the table's keys are exactly the justified keys |
| `RomajiTableProofs.RequestsJustified` | server-swift/Sources/azookey-server/romaji_table_compiler.swift:104-175 | the nested loops request exactly the justified entries |
| `RomajiTableProofs.PlainRuleKept` | server-swift/Sources/azookey-server/romaji_table_compiler.swift:169-175 | an input that waits for nothing longer keeps its last rule's output and next input whatever else is generated |
| `RomajiMeaning.NormalizedRows` | server-swift/Sources/azookey-server/romaji_table_compiler.swift:41-53 | the rules are, in order and once each, the trimmed cells of the rows that have both an input and an output |
| `RomajiMeaning.CompiledRowsSound` | server-swift/Sources/azookey-server/romaji_table_compiler.swift:41-178 | every compiled entry is justified by the rows as written |
| `RomajiMeaning.CompiledRowsKeys` | server-swift/Sources/azookey-server/romaji_table_compiler.swift:41-178 | and its keys are exactly those |
| `RomajiMeaning.PlainRowKept` | server-swift/Sources/azookey-server/romaji_table_compiler.swift:169-175 | the last row of an input that waits for nothing longer gives its key, escaped, the row's output and next input |
| `RomajiMeaning.CellTrimmed` | server-swift/Sources/azookey-server/romaji_table_compiler.swift:20-26 | of a cell the blanks at both ends are dropped |
| `RomajiMeaning.BlankCell` | server-swift/Sources/azookey-server/romaji_table_compiler.swift:20-26 | a cell of blanks alone is empty |
| `RomajiMeaning.BreakDropped` | server-swift/Sources/azookey-server/romaji_table_compiler.swift:20-26 | and every tab and line break, wherever it stands |
| `RomajiTableProofs.ContentReadsBack` | server-swift/Sources/azookey-server/romaji_table_compiler.swift:180-189 | splitting the printed table on newlines and tabs gives the compiled entries back |
| `RomajiTableProofs.ContentNone` | server-swift/Sources/azookey-server/romaji_table_compiler.swift:180-189 | there is no table exactly when no row has both an input and an output |
| `RomajiTableProofs.IntermediatesAscending` | server-swift/Sources/azookey-server/romaji_table_compiler.swift:147-166 | the prefixes on the way to longer inputs come in the sorted order, each once |
| `RomajiTable.EscapeUndone` | server-swift/Sources/azookey-server/romaji_table_compiler.swift:28-39 | an escaped token is read back |
| `RomajiTable.EscapeInjective` | server-swift/Sources/azookey-server/romaji_table_compiler.swift:28-39 | different tokens stay different |
| `RomajiTable.ExactKeysUnique` | server-swift/Sources/azookey-server/romaji_table_compiler.swift:69-102 | compiled keys are unique |
| `RomajiTable.Put` | server-swift/Sources/azookey-server/romaji_table_compiler.swift:73-102 | the index stays the exact position map of the entries |
| `RomajiTable.UpsertAllWinner` | server-swift/Sources/azookey-server/romaji_table_compiler.swift:73-102 | each key has the value of its deciding request: the last explicit one, else the last one |
| `RomajiTableBuilder.TableBuilder.UpsertEntry` | server-swift/Sources/azookey-server/romaji_table_compiler.swift:73-102 | one entry is inserted, replaced or left alone |
| `RomajiTableBuilder.TableBuilder.AddLonger` | server-swift/Sources/azookey-server/romaji_table_compiler.swift:105-110 | the re-readings of one rule |
| `RomajiTableBuilder.TableBuilder.AddFollowing` | server-swift/Sources/azookey-server/romaji_table_compiler.swift:112-117 | the two-step entries of one rule |
| `RomajiTableBuilder.TableBuilder.AddSingles` | server-swift/Sources/azookey-server/romaji_table_compiler.swift:126-132 | a held-back rule before each single-character rule |
| `RomajiTableBuilder.TableBuilder.AddTokens` | server-swift/Sources/azookey-server/romaji_table_compiler.swift:134-145 | the separator and any-character rules |
| `RomajiTableBuilder.TableBuilder.AddIdentities` | server-swift/Sources/azookey-server/romaji_table_compiler.swift:159-166 | the prefixes that are no inputs stand for themselves |
| `RomajiTableBuilder.TableBuilder.AddExplicit` | server-swift/Sources/azookey-server/romaji_table_compiler.swift:169-175 | the rules that are not held back |
| `RomajiTableBuilder.TableBuilder.AddRuns` | server-swift/Sources/azookey-server/romaji_table_compiler.swift:104-118 | the loops over rules that leave something waiting |
| `RomajiTableBuilder.TableBuilder.AddAllHeldBack` | server-swift/Sources/azookey-server/romaji_table_compiler.swift:120-167 | the loops over rules that are held back for longer ones |
| `RomajiTableBuilder.CollectIntermediates` | server-swift/Sources/azookey-server/romaji_table_compiler.swift:147-166 | the sorted set of prefixes on the way to longer inputs |
| `RomajiTableBuilder.BuildEntries` | server-swift/Sources/azookey-server/romaji_table_compiler.swift:41-178 | the whole compilation gives the specified table's entries in order |
| `RomajiTableBuilder.BuildContent` | server-swift/Sources/azookey-server/romaji_table_compiler.swift:180-189 | the printed form, or nothing when there are no entries |
| `RomajiLookup.FromRows` | crates/client/src/engine/romaji_lookup.rs:16-47 | the index built by the loop holds exactly the non-empty prefixes, greatest lengths and first symbol rows of the table |
| `RomajiLookup.InsertPrefixes` | crates/client/src/engine/romaji_lookup.rs:49-55 | exactly the non-empty prefixes of the input are added |
| `RomajiLookup.IndexContexts` | crates/client/src/engine/romaji_lookup.rs:63-112 | on the truncated tail the index answers true exactly when some non-empty end of the whole input with the symbol begins an eligible row |
| `RomajiLookup.SymbolOutputRefines` | crates/client/src/engine/romaji_lookup.rs:114-124 | the indexed symbol output is the one a scan from the first row gives |

## Left out

- The kana-kanji converter, the composing text's cursor, insertion and deletion arithmetic and Zenzai: arbitrary functions of `Env`, under its contract where a lemma says so.
- Windows and text-service calls: only whether a composition is open, the text in it and the text committed; ranges, attributes, positions and the counting in UTF-16 units are not tracked, and other edits to the document are not modelled.
- The candidate window, live-conversion reading, logging, performance counters, configuration files, model download, the language-bar menu and the launcher.
- Named pipes and asynchronous calls: a call succeeds, fails before or fails after taking effect.
- Runs.ReachableStacks: the server's state is not lost during a run; session changes appear only as what the client notices, so the statement describes the server of a session that stays alive.
- A configuration reload in the middle of a composition, which can clear the server's stack from outside.
- TextService.TextService.Remove: the client drops one raw character and the server one displayed character; no equality between raw input and server input is claimed after it.
- `ClientAction::MoveCursor` and boundary steps other than one, which the planner never emits; `ClauseInvariants.AdjustBoundaryInv` is about steps -1, 0 and 1.
- ClauseTheorems.RightRefused: counts a negative count as refused where the server would trap; no reachable state has one.
- Activation, which leaves the composition alone, keys that cannot be read, which end like a disabled context, and a missing server connection, with which keys and focus changes are ignored.
- Retries of the idempotent `clear_text` and `set_context`, and failures of calls inside an action list other than a refused offset.
- ConversionServer.Server.ShrinkText: a negative count, which would trap at the server, is a refused call; `Ranges.ReachableRanges` shows that none is ever sent.
- CursorPrefix.Resolver.FirstClauseCount: assumes that measures with equal printed keys resolve alike, as the memo does.
- Texts are sequences of Unicode scalar values: grapheme clusters, UTF-8 byte offsets and the order of Swift strings beyond code points are not modelled, and the whitespace sets of the two languages are taken to be the same.
- The width of counters and split-group numbers; the marker that stops repeated moves compares the texts themselves instead of their hashes, and the repeated-answer check of steering compares the three parts instead of their printed form.
- The width and kana tables and the punctuation texts are parameters of `Settings` and `Env`.
