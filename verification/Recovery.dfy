/** Edits over a connection that can fail before or after the server applied them, and a server that
    can be replaced by a fresh one at any time.  An edit must not be applied twice, so the client
    refreshes first and replays only when the refreshed composition looks unchanged. */
module Recovery {
  import opened Text
  import opened Clauses
  import opened ConversionServer

  datatype Edit = Append(text: string, direct: bool) | Remove | Shrink(offset: int) | Move(offset: int)

  /** `None` is an edit the server refuses as an invalid argument. */
  function Apply(env: Env, s: ServerState, e: Edit): Option<Reply> {
    match e
    case Append(text, direct) => Some(AppendRpc(env, s, text, direct))
    case Remove => Some(RemoveRpc(env, s))
    case Shrink(offset) => ShrinkRpc(env, s, offset)
    case Move(offset) => MoveRpc(env, s, offset)
  }

  /** What happens to one request: the server may be replaced before it arrives, and the call may
      break before the server sees it or after it acted on it.  Some errors allow a reconnect. */
  datatype Fate = Delivered | LostBefore | LostAfter
  datatype Attempt = Attempt(restarted: bool, fate: Fate, reconnectable: bool)

  /** A failure pattern: one attempt each for the edit, the refresh and the replay. */
  datatype Pattern = Pattern(first: Attempt, reconnects: bool, refresh: Attempt, replay: Attempt)

  /** The live server with its session number, and for the edit in question the sessions in which
      it has been applied, in order. */
  datatype World = World(session: nat, server: ServerState, applied: seq<nat>)

  function Restarted(w: World, a: Attempt): World {
    if a.restarted then World(w.session + 1, EMPTY_SERVER, w.applied) else w
  }

  datatype Answer = Answer(candidates: Candidates, session: nat) | Broken(reconnectable: bool)

  /** One request for the edit. */
  function Send(env: Env, w: World, e: Edit, a: Attempt): (World, Answer) {
    var live := Restarted(w, a);
    if a.fate.LostBefore? then (live, Broken(a.reconnectable))
    else
      var r := Apply(env, live.server, e);
      if r.None? then (live, Broken(a.fate.LostAfter? && a.reconnectable))
      else
        var after := World(live.session, r.value.server, live.applied + [live.session]);
        if a.fate.LostAfter? then (after, Broken(a.reconnectable))
        else (after, Answer(r.value.candidates, live.session))
  }

  /** One request that only looks: cursor move 0. */
  function Refresh(env: Env, w: World, a: Attempt): (World, Answer) {
    var live := Restarted(w, a);
    if a.fate.Delivered? then (live, Answer(env.prefix(live.server.text), live.session))
    else (live, Broken(a.reconnectable))
  }

  /* ----- the client ----- */

  datatype Ipc = Ipc(session: Option<nat>, resetRecovered: bool)

  /** Session number 0 says nothing; a different number than before is remembered as a reset. */
  function Observe(ipc: Ipc, session: nat): Ipc {
    if session == 0 then ipc
    else Ipc(Some(session), ipc.resetRecovered || (ipc.session.Some? && ipc.session.value != session))
  }

  function Observed(ipc: Ipc, a: Answer): Ipc {
    if a.Answer? then Observe(ipc, a.session) else ipc
  }

  predicate RetryEdit(previous: Option<Candidates>, refreshed: Candidates) {
    previous.Some? && previous.value == refreshed && !refreshed.IsEmptyComposition()
  }

  predicate RetryAppend(previous: Option<Candidates>, refreshed: Candidates) {
    previous.Some? && (previous.value == refreshed || refreshed.IsEmptyComposition())
  }

  datatype Run = Run(ipc: Ipc, world: World, result: Option<Candidates>)

  function ResultOf(a: Answer): Option<Candidates> {
    if a.Answer? then Some(a.candidates) else None
  }

  /** remove_text, shrink_text and move_cursor. */
  function RunEdit(env: Env, ipc: Ipc, w: World, e: Edit, previous: Option<Candidates>, p: Pattern): Run {
    var first := Send(env, w, e, p.first);
    if first.1.Answer? || !first.1.reconnectable || !p.reconnects
    then Run(Observed(ipc, first.1), first.0, ResultOf(first.1))
    else
      var refresh := Refresh(env, first.0, p.refresh);
      if refresh.1.Broken? || !RetryEdit(previous, refresh.1.candidates)
      then Run(Observed(ipc, refresh.1), refresh.0, ResultOf(refresh.1))
      else
        var replay := Send(env, refresh.0, e, p.replay);
        Run(Observed(Observed(ipc, refresh.1), replay.1), replay.0, ResultOf(replay.1))
  }

  /** append_text: every error leads to a reconnect, and an emptied composition is replayed into. */
  function RunAppend(env: Env, ipc: Ipc, w: World, e: Edit, previous: Option<Candidates>, p: Pattern): Run
    requires e.Append?
  {
    var first := Send(env, w, e, p.first);
    if first.1.Answer? || !p.reconnects
    then Run(Observed(ipc, first.1), first.0, ResultOf(first.1))
    else
      var refresh := Refresh(env, first.0, p.refresh);
      if refresh.1.Broken? || !RetryAppend(previous, refresh.1.candidates)
      then Run(Observed(ipc, refresh.1), refresh.0, ResultOf(refresh.1))
      else
        var seen := Observed(ipc, refresh.1);
        var flagged := if refresh.1.candidates.IsEmptyComposition() then seen.(resetRecovered := true) else seen;
        var replay := Send(env, refresh.0, e, p.replay);
        Run(Observed(flagged, replay.1), replay.0, ResultOf(replay.1))
  }

  /* ----- how often an edit is applied ----- */

  function Times(applied: seq<nat>, session: nat): nat {
    if applied == [] then 0
    else Times(applied[..|applied| - 1], session) + (if applied[|applied| - 1] == session then 1 else 0)
  }

  ghost predicate Doubled(applied: seq<nat>) {
    exists session :: Times(applied, session) >= 2
  }

  lemma TimesShort(applied: seq<nat>, k: nat)
    requires |applied| <= 2
    ensures Times(applied, k)
         == (if |applied| >= 1 && applied[0] == k then 1 else 0) + (if |applied| == 2 && applied[1] == k then 1 else 0)
  {
    if |applied| == 1 {
      assert applied[..0] == [];
    } else if |applied| == 2 {
      assert applied[..1] == [applied[0]] && [applied[0]][..0] == [];
      assert Times([applied[0]], k) == if applied[0] == k then 1 else 0;
    }
  }

  /** What a refresh shows after the edit took effect in state `s`. */
  function Shown(env: Env, s: ServerState, e: Edit): Candidates {
    var r := Apply(env, s, e);
    if r.Some? then env.prefix(r.value.server.text) else NO_CANDIDATES
  }

  predicate Accepted(env: Env, s: ServerState, e: Edit) {
    Apply(env, s, e).Some?
  }

  /** The pattern that doubles an edit: it is applied, its answer is lost, nothing restarts, and the
      replay arrives. */
  function Doubling(restartFirst: bool): Pattern {
    Pattern(Attempt(restartFirst, LostAfter, true), true, Attempt(false, Delivered, true),
            Attempt(false, Delivered, true))
  }

  /** Applying the edit in `s` leaves on show just what was known before, not an empty composition, and the
      edit would be accepted once more. */
  predicate EditHidden(env: Env, s: ServerState, e: Edit, previous: Option<Candidates>) {
    && Accepted(env, s, e) && previous == Some(Shown(env, s, e)) && !Shown(env, s, e).IsEmptyComposition()
    && Accepted(env, Apply(env, s, e).value.server, e)
  }

  /** One request logs at most one application, in the session that is live. */
  lemma SendLogs(env: Env, w: World, e: Edit, a: Attempt)
    ensures var sent := Send(env, w, e, a).0;
            && sent.session == Restarted(w, a).session
            && (|| (sent.applied == w.applied && sent.server == Restarted(w, a).server)
                || (sent.applied == w.applied + [sent.session] && Accepted(env, Restarted(w, a).server, e)
                    && sent.server == Apply(env, Restarted(w, a).server, e).value.server))
  {
  }

  /** Both requests are applied in one session only where the refresh between them sees no change. */
  lemma AppliedTwice(env: Env, ipc: Ipc, w: World, e: Edit, previous: Option<Candidates>, p: Pattern)
    requires w.applied == []
    ensures var log := RunEdit(env, ipc, w, e, previous, p).world.applied;
            |log| <= 2
            && (|log| == 2 && log[0] == log[1] ==> EditHidden(env, Restarted(w, p.first).server, e, previous))
  {
    SendLogs(env, w, e, p.first);
    var refresh := Refresh(env, Send(env, w, e, p.first).0, p.refresh);
    SendLogs(env, refresh.0, e, p.replay);
  }

  lemma ShortLogDoubled(applied: seq<nat>)
    requires |applied| <= 2
    ensures Doubled(applied) <==> |applied| == 2 && applied[0] == applied[1]
  {
    if k :| Times(applied, k) >= 2 {
      TimesShort(applied, k);
    }
    if |applied| == 2 {
      TimesShort(applied, applied[0]);
    }
  }

  lemma EditAppliedOnce(env: Env, ipc: Ipc, w: World, e: Edit, previous: Option<Candidates>, p: Pattern)
    requires w.applied == []
    requires !EditHidden(env, w.server, e, previous) && !EditHidden(env, EMPTY_SERVER, e, previous)
    ensures !Doubled(RunEdit(env, ipc, w, e, previous, p).world.applied)
  {
    AppliedTwice(env, ipc, w, e, previous, p);
    ShortLogDoubled(RunEdit(env, ipc, w, e, previous, p).world.applied);
  }

  lemma HiddenEditDoubled(env: Env, ipc: Ipc, w: World, e: Edit, previous: Option<Candidates>, restart: bool)
    requires w.applied == []
    requires EditHidden(env, if restart then EMPTY_SERVER else w.server, e, previous)
    ensures Doubled(RunEdit(env, ipc, w, e, previous, Doubling(restart)).world.applied)
  {
    ShortLogDoubled(RunEdit(env, ipc, w, e, previous, Doubling(restart)).world.applied);
  }

  /** No failure pattern applies an edit twice within one server session exactly when its effect shows in the
      refreshed candidates, in the state it is sent to and in a freshly started server. */
  lemma EditAtMostOnce(env: Env, ipc: Ipc, w: World, e: Edit, previous: Option<Candidates>)
    requires w.applied == []
    ensures (forall p :: !Doubled(RunEdit(env, ipc, w, e, previous, p).world.applied))
      <==> !EditHidden(env, w.server, e, previous) && !EditHidden(env, EMPTY_SERVER, e, previous)
  {
    if !EditHidden(env, w.server, e, previous) && !EditHidden(env, EMPTY_SERVER, e, previous) {
      forall p ensures !Doubled(RunEdit(env, ipc, w, e, previous, p).world.applied) {
        EditAppliedOnce(env, ipc, w, e, previous, p);
      }
    } else if EditHidden(env, w.server, e, previous) {
      HiddenEditDoubled(env, ipc, w, e, previous, false);
    } else {
      HiddenEditDoubled(env, ipc, w, e, previous, true);
    }
  }

  /* ----- appending ----- */

  /** The composition looks untouched, or gone. */
  predicate Unmoved(known: Candidates, seen: Candidates) {
    seen == known || seen == NO_CANDIDATES
  }

  /** A refresh tells the situations apart: an untouched server and a fresh one show what was known before or
      nothing at all, and one that has applied the append, old or fresh, shows something else. */
  predicate Faithful(env: Env, s: ServerState, e: Edit, previous: Option<Candidates>) {
    previous.Some?
    && Unmoved(previous.value, env.prefix(s.text)) && Unmoved(previous.value, env.prefix(EMPTY_TEXT))
    && !Unmoved(previous.value, Shown(env, s, e)) && !Unmoved(previous.value, Shown(env, EMPTY_SERVER, e))
  }

  /** An append that returns a result is in the live session exactly once. */
  ghost predicate ExactlyOnce(r: Run) {
    r.result.Some? ==> Times(r.world.applied, r.world.session) == 1
  }

  /** The edit is logged in different sessions only, and a result comes from a session it is logged in last. */
  lemma FaithfulLog(env: Env, ipc: Ipc, w: World, e: Edit, previous: Option<Candidates>, p: Pattern)
    requires e.Append? && w.applied == [] && Faithful(env, w.server, e, previous)
    ensures var r := RunAppend(env, ipc, w, e, previous, p);
            var log := r.world.applied;
            && |log| <= 2 && (|log| == 2 ==> log[0] != log[1])
            && (r.result.Some? ==> log != [] && log[|log| - 1] == r.world.session)
  {
    SendLogs(env, w, e, p.first);
    var refresh := Refresh(env, Send(env, w, e, p.first).0, p.refresh);
    SendLogs(env, refresh.0, e, p.replay);
  }

  lemma ShortLogOnce(applied: seq<nat>)
    requires 1 <= |applied| <= 2 && (|applied| == 2 ==> applied[0] != applied[1])
    ensures Times(applied, applied[|applied| - 1]) == 1
  {
    TimesShort(applied, applied[|applied| - 1]);
  }

  lemma FaithfulAppendOnce(env: Env, ipc: Ipc, w: World, e: Edit, previous: Option<Candidates>, p: Pattern)
    requires e.Append? && w.applied == [] && Faithful(env, w.server, e, previous)
    ensures var r := RunAppend(env, ipc, w, e, previous, p); ExactlyOnce(r) && !Doubled(r.world.applied)
  {
    FaithfulLog(env, ipc, w, e, previous, p);
    var log := RunAppend(env, ipc, w, e, previous, p).world.applied;
    ShortLogDoubled(log);
    if log != [] {
      ShortLogOnce(log);
    }
  }

  function Dropping(restartFirst: bool): Pattern {
    Pattern(Attempt(restartFirst, LostBefore, true), true, Attempt(false, Delivered, true),
            Attempt(false, Delivered, true))
  }

  lemma UnfaithfulAppend(env: Env, ipc: Ipc, w: World, e: Edit, previous: Option<Candidates>) returns (p: Pattern)
    requires e.Append? && w.applied == [] && !Faithful(env, w.server, e, previous)
    ensures !ExactlyOnce(RunAppend(env, ipc, w, e, previous, p))
  {
    if previous.None? || !Unmoved(previous.value, env.prefix(w.server.text)) {
      p := Dropping(false);
    } else if !Unmoved(previous.value, env.prefix(EMPTY_TEXT)) {
      p := Dropping(true);
    } else if Unmoved(previous.value, Shown(env, w.server, e)) {
      p := Doubling(false);
    } else {
      p := Doubling(true);
    }
    var r := RunAppend(env, ipc, w, e, previous, p);
    TimesShort(r.world.applied, r.world.session);
  }

  /** For every failure pattern an append that returns a result is in the live session exactly once,
      if and only if the observations are faithful. */
  lemma AppendExactlyOnce(env: Env, ipc: Ipc, w: World, e: Edit, previous: Option<Candidates>)
    requires e.Append? && w.applied == []
    ensures (forall p :: ExactlyOnce(RunAppend(env, ipc, w, e, previous, p))) <==> Faithful(env, w.server, e, previous)
  {
    if Faithful(env, w.server, e, previous) {
      forall p ensures ExactlyOnce(RunAppend(env, ipc, w, e, previous, p)) {
        FaithfulAppendOnce(env, ipc, w, e, previous, p);
      }
    } else {
      var p := UnfaithfulAppend(env, ipc, w, e, previous);
    }
  }

  /** An append lost on its way to a server that stays up is sent again once the server has been seen
      untouched: it is applied, once, and its answer is the converter's answer to the longer text. */
  lemma LostAppendReplayed(env: Env, ipc: Ipc, w: World, e: Edit, reconnectable: bool)
    requires e.Append? && w.applied == []
    ensures var p := Pattern(Attempt(false, LostBefore, reconnectable), true, Attempt(false, Delivered, true),
                             Attempt(false, Delivered, true));
            var r := RunAppend(env, ipc, w, e, Some(env.prefix(w.server.text)), p);
            var text := env.inserted(w.server.text, e.text, e.direct);
            && r.world == World(w.session, w.server.(text := text), [w.session])
            && r.result == Some(env.full(text))
  {
  }

  /** So is another edit, if a refresh shows anything at all: every accepted one reaches the server once. */
  lemma LostEditReplayed(env: Env, ipc: Ipc, w: World, e: Edit)
    requires w.applied == [] && Accepted(env, w.server, e) && !env.prefix(w.server.text).IsEmptyComposition()
    ensures var p := Pattern(Attempt(false, LostBefore, true), true, Attempt(false, Delivered, true),
                             Attempt(false, Delivered, true));
            var r := RunEdit(env, ipc, w, e, Some(env.prefix(w.server.text)), p);
            var applied := Apply(env, w.server, e).value;
            r.world == World(w.session, applied.server, [w.session]) && r.result == Some(applied.candidates)
  {
  }

  /** An edit that took effect is never sent again once a refresh shows it: the refreshed candidates are the
      answer. */
  lemma AppliedEditKept(env: Env, ipc: Ipc, w: World, e: Edit, previous: Option<Candidates>)
    requires w.applied == [] && Accepted(env, w.server, e) && previous != Some(Shown(env, w.server, e))
    ensures var p := Doubling(false);
            var r := RunEdit(env, ipc, w, e, previous, p);
            r.world == World(w.session, Apply(env, w.server, e).value.server, [w.session])
            && r.result == Some(Shown(env, w.server, e))
  {
  }

  /* ----- the reset flag ----- */

  /** The append was replayed into a composition the refresh showed empty. */
  predicate ReplayedIntoEmpty(env: Env, w: World, e: Edit, previous: Option<Candidates>, p: Pattern)
    requires e.Append?
  {
    var first := Send(env, w, e, p.first);
    var refresh := Refresh(env, first.0, p.refresh);
    first.1.Broken? && p.reconnects && refresh.1.Answer?
    && previous.Some? && refresh.1.candidates.IsEmptyComposition()
  }

  /** A client that knew the server's session is told of a reset exactly when the result comes from another
      session or the append was replayed into an empty composition. */
  lemma AppendFlagsReset(env: Env, ipc: Ipc, w: World, e: Edit, previous: Option<Candidates>, p: Pattern)
    requires e.Append? && w.session > 0 && ipc == Ipc(Some(w.session), false)
    requires RunAppend(env, ipc, w, e, previous, p).result.Some?
    ensures var r := RunAppend(env, ipc, w, e, previous, p);
            r.ipc.resetRecovered <==> r.world.session != w.session || ReplayedIntoEmpty(env, w, e, previous, p)
    ensures RunAppend(env, ipc, w, e, previous,
                      p).ipc.session == Some(RunAppend(env, ipc, w, e, previous, p).world.session)
  {
  }

  /** The same for the other edits, which are never replayed into an empty composition. */
  lemma EditFlagsReset(env: Env, ipc: Ipc, w: World, e: Edit, previous: Option<Candidates>, p: Pattern)
    requires w.session > 0 && ipc == Ipc(Some(w.session), false)
    requires RunEdit(env, ipc, w, e, previous, p).result.Some?
    ensures var r := RunEdit(env, ipc, w, e, previous, p);
            r.ipc.resetRecovered <==> r.world.session != w.session
  {
  }

  /* ----- the snapshot push is not safe ----- */

  /** Pushing a snapshot changes nothing a refresh shows: with a faithful previous observation it can be
      pushed twice in one session. */
  lemma PushCanDouble(env: Env, ipc: Ipc, w: World)
    requires w.applied == [] && !env.prefix(w.server.text).IsEmptyComposition()
    ensures var r := RunEdit(env, ipc, w, Move(PUSH_SNAPSHOT), Some(env.prefix(w.server.text)), Doubling(false));
            r.result.Some? && Doubled(r.world.applied) && r.world.session == w.session
            && r.world.server.snapshots == w.server.snapshots + [w.server.text, w.server.text]
  {
    HiddenEditDoubled(env, ipc, w, Move(PUSH_SNAPSHOT), Some(env.prefix(w.server.text)), false);
  }

  /* ----- the client object ----- */

  class IpcService {
    const env: Env
    var session: Option<nat>
    var resetRecovered: bool
    var connectionId: nat
    /** The far side of the connection. */
    var world: World

    ghost function View(): Ipc
      reads this
    {
      Ipc(session, resetRecovered)
    }

    constructor (env: Env, world: World)
      ensures this.env == env && this.world == world && View() == Ipc(None, false)
    {
      this.env, this.world := env, world;
      session, resetRecovered, connectionId := None, false, 1;
    }

    method ObserveServerSession(id: nat)
      modifies this`session, this`resetRecovered
      ensures View() == Observe(old(View()), id)
    {
      if id == 0 {
        return;
      }
      if session.Some? && session.value != id {
        resetRecovered := true;
      }
      session := Some(id);
    }

    /** The flag is handed over once. */
    method TakeServerResetRecovered() returns (recovered: bool)
      modifies this`resetRecovered
      ensures recovered == old(resetRecovered) && !resetRecovered
    {
      recovered := resetRecovered;
      resetRecovered := false;
    }

    method SendEdit(e: Edit, a: Attempt) returns (r: Answer)
      modifies this`session, this`resetRecovered, this`world
      ensures (world, r) == Send(env, old(world), e, a) && View() == Observed(old(View()), r)
    {
      var sent := Send(env, world, e, a);
      world, r := sent.0, sent.1;
      if r.Answer? {
        ObserveServerSession(r.session);
      }
    }

    method SendRefresh(a: Attempt) returns (r: Answer)
      modifies this`session, this`resetRecovered, this`world
      ensures (world, r) == Refresh(env, old(world), a) && View() == Observed(old(View()), r)
    {
      var sent := Refresh(env, world, a);
      world, r := sent.0, sent.1;
      if r.Answer? {
        ObserveServerSession(r.session);
      }
    }

    method Reconnect(succeeds: bool)
      modifies this`connectionId
      ensures connectionId == if succeeds then old(connectionId) + 1 else old(connectionId)
    {
      if succeeds {
        connectionId := connectionId + 1;
      }
    }

    method RunNonIdempotentEditWithReconnect(e: Edit, previous: Option<Candidates>, p: Pattern)
      returns (r: Option<Candidates>)
      modifies this
      ensures Run(View(), world, r) == RunEdit(env, old(View()), old(world), e, previous, p)
    {
      var first := SendEdit(e, p.first);
      if first.Answer? {
        return Some(first.candidates);
      }
      if !first.reconnectable {
        return None;
      }
      Reconnect(p.reconnects);
      if !p.reconnects {
        return None;
      }
      var refresh := SendRefresh(p.refresh);
      if refresh.Broken? {
        return None;
      }
      if !RetryEdit(previous, refresh.candidates) {
        return Some(refresh.candidates);
      }
      var replay := SendEdit(e, p.replay);
      r := ResultOf(replay);
    }

    method AppendTextWithContext(e: Edit, previous: Option<Candidates>, p: Pattern) returns (r: Option<Candidates>)
      requires e.Append?
      modifies this
      ensures Run(View(), world, r) == RunAppend(env, old(View()), old(world), e, previous, p)
    {
      var first := SendEdit(e, p.first);
      if first.Answer? {
        return Some(first.candidates);
      }
      Reconnect(p.reconnects);
      if !p.reconnects {
        return None;
      }
      var refresh := SendRefresh(p.refresh);
      if refresh.Broken? {
        return None;
      }
      if !RetryAppend(previous, refresh.candidates) {
        return Some(refresh.candidates);
      }
      if previous.Some? && refresh.candidates.IsEmptyComposition() {
        resetRecovered := true;
      }
      var replay := SendEdit(e, p.replay);
      r := ResultOf(replay);
    }
  }
}
