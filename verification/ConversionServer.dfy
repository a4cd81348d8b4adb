/** The conversion server as the client drives it: one composing text, and a stack of saved
    texts moved by the coded cursor offsets 125, 126 and 127. */
module ConversionServer {
  import opened Text
  import opened DelayedN
  import opened Clauses

  const CLEAR_SNAPSHOTS := 125
  const PUSH_SNAPSHOT := 126
  const POP_SNAPSHOT := 127

  datatype ComposingText = ComposingText(input: seq<InputElement>, cursor: int)

  const EMPTY_TEXT := ComposingText([], 0)

  /** What lies outside this model: the kana-kanji converter, the cursor arithmetic of the
      composing text and the width tables, each an arbitrary function.
      `full` answers every edit and `prefix` answers cursor move 0. */
  datatype Env = Env(
    full: ComposingText -> Candidates,
    prefix: ComposingText -> Candidates,
    moved: (ComposingText, int) -> int,
    shrunk: (ComposingText, nat) -> int,
    inserted: (ComposingText, string, bool) -> ComposingText,
    deleted: ComposingText -> ComposingText,
    render: Render,
    symbol: (string, string) -> string)
  {
    /** Each offered candidate stands for at least one input, and an empty text has no candidates. */
    ghost predicate Contract() {
      && (forall t: ComposingText, i: int :: 0 <= i < |full(t).texts| ==> At(full(t).counts, i, 0) >= 1)
      && (forall t: ComposingText, i: int :: 0 <= i < |prefix(t).texts| ==> At(prefix(t).counts, i, 0) >= 1)
      && (forall t: ComposingText :: t.input == [] ==> full(t).IsEmptyComposition())
    }
  }

  datatype ServerState = ServerState(text: ComposingText, snapshots: seq<ComposingText>)

  const EMPTY_SERVER := ServerState(EMPTY_TEXT, [])

  datatype Reply = Reply(candidates: Candidates, server: ServerState)

  function Push(s: ServerState): ServerState {
    s.(snapshots := s.snapshots + [s.text])
  }

  function Pop(s: ServerState): ServerState {
    if s.snapshots == [] then s
    else ServerState(s.snapshots[|s.snapshots| - 1], s.snapshots[..|s.snapshots| - 1])
  }

  function MoveWithin(env: Env, s: ServerState, offset: int): ServerState {
    if offset == 0 then s else s.(text := s.text.(cursor := env.moved(s.text, offset)))
  }

  function Moved(env: Env, s: ServerState, offset: int): ServerState {
    if offset == CLEAR_SNAPSHOTS then s.(snapshots := [])
    else if offset == PUSH_SNAPSHOT then Push(s)
    else if offset == POP_SNAPSHOT then Pop(s)
    else MoveWithin(env, s, offset)
  }

  predicate FitsI8(offset: int) {
    -128 <= offset <= 127
  }

  /** `None` is a refused call: the offset does not fit the server's 8-bit parameter. */
  function MoveRpc(env: Env, s: ServerState, offset: int): Option<Reply> {
    if !FitsI8(offset) then None
    else
      var moved := Moved(env, s, offset);
      Some(Reply(if offset == 0 then env.prefix(moved.text) else env.full(moved.text), moved))
  }

  function ShrunkText(env: Env, t: ComposingText, count: nat): ComposingText {
    ComposingText(Skip(t.input, count), env.shrunk(t, count))
  }

  /** A negative count is refused as well: dropping a negative number of inputs traps. */
  function ShrinkRpc(env: Env, s: ServerState, offset: int): Option<Reply> {
    if !FitsI8(offset) || offset < 0 then None
    else
      var text := ShrunkText(env, s.text, offset);
      Some(Reply(env.full(text), s.(text := text)))
  }

  function AppendRpc(env: Env, s: ServerState, text: string, direct: bool): Reply {
    var t := env.inserted(s.text, text, direct);
    Reply(env.full(t), s.(text := t))
  }

  function RemoveRpc(env: Env, s: ServerState): Reply {
    var t := env.deleted(s.text);
    Reply(env.full(t), s.(text := t))
  }

  lemma PushPop(s: ServerState)
    ensures Pop(Push(s)) == s
  {
  }

  class Server {
    const env: Env
    var text: ComposingText
    var snapshots: seq<ComposingText>

    ghost function State(): ServerState
      reads this
    {
      ServerState(text, snapshots)
    }

    constructor (env: Env)
      ensures this.env == env && State() == EMPTY_SERVER
    {
      this.env := env;
      text, snapshots := EMPTY_TEXT, [];
    }

    method MoveCursor(offset: int) returns (r: Option<Candidates>)
      modifies this
      ensures r.None? <==> MoveRpc(env, old(State()), offset).None?
      ensures r.Some? ==> Reply(r.value, State()) == MoveRpc(env, old(State()), offset).value
      ensures r.None? ==> State() == old(State())
    {
      if offset < -128 || offset > 127 {
        return None;
      }
      if offset == CLEAR_SNAPSHOTS {
        snapshots := [];
      } else if offset == PUSH_SNAPSHOT {
        snapshots := snapshots + [text];
      } else if offset == POP_SNAPSHOT {
        if snapshots != [] {
          text := snapshots[|snapshots| - 1];
          snapshots := snapshots[..|snapshots| - 1];
        }
      } else if offset != 0 {
        text := text.(cursor := env.moved(text, offset));
      }
      r := Some(if offset == 0 then env.prefix(text) else env.full(text));
    }

    method ShrinkText(offset: int) returns (r: Option<Candidates>)
      modifies this
      ensures r.None? <==> ShrinkRpc(env, old(State()), offset).None?
      ensures r.Some? ==> Reply(r.value, State()) == ShrinkRpc(env, old(State()), offset).value
      ensures r.None? ==> State() == old(State())
    {
      if offset < -128 || offset > 127 || offset < 0 {
        return None;
      }
      text := ComposingText(Skip(text.input, offset), env.shrunk(text, offset));
      r := Some(env.full(text));
    }

    method AppendText(input: string, direct: bool) returns (r: Candidates)
      modifies this
      ensures Reply(r, State()) == AppendRpc(env, old(State()), input, direct)
    {
      text := env.inserted(text, input, direct);
      r := env.full(text);
    }

    method RemoveText() returns (r: Candidates)
      modifies this
      ensures Reply(r, State()) == RemoveRpc(env, old(State()))
    {
      text := env.deleted(text);
      r := env.full(text);
    }

    method ClearText()
      modifies this
      ensures State() == EMPTY_SERVER
    {
      text, snapshots := EMPTY_TEXT, [];
    }
  }
}
