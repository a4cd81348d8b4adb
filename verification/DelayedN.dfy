/** The delayed single `n`: a clause boundary that falls between a consonant and its vowel,
    just after an `n` that was still waiting to become a kana, is moved back by one input.
    The conversion server and the client each decide this on their own. */
module DelayedN {
  import opened Text

  /** One piece of the server's input sequence; a composition separator carries no character. */
  datatype InputElement = InputElement(ch: Option<char>, direct: bool)

  predicate IsLetter(c: char) {
    'a' <= c <= 'z' || 'A' <= c <= 'Z'
  }

  function Lower(c: char): char
    requires IsLetter(c)
  {
    if 'A' <= c <= 'Z' then (c as int + 32) as char else c
  }

  predicate IsVowel(c: char) {
    IsLetter(c) && Lower(c) in {'a', 'i', 'u', 'e', 'o'}
  }

  predicate IsN(c: char) {
    c == 'n' || c == 'N'
  }

  predicate IsConsonantExceptN(c: char) {
    IsLetter(c) && !IsVowel(c) && !IsN(c)
  }

  /* ----- the server ----- */

  function Clamped(input: seq<InputElement>, rawCount: int): nat {
    if rawCount <= 0 then 0 else if rawCount >= |input| then |input| else rawCount
  }

  predicate Typed(e: InputElement) {
    !e.direct && e.ch.Some?
  }

  function ServerSplit(input: seq<InputElement>, rawCount: int): (k: nat)
    ensures k <= |input|
    ensures Clamped(input, rawCount) - 1 <= k <= Clamped(input, rawCount)
  {
    var splitAt := Clamped(input, rawCount);
    if splitAt < 2 || splitAt >= |input| then splitAt
    else
      var previous, consumed, next := input[splitAt - 2], input[splitAt - 1], input[splitAt];
      if Typed(previous) && Typed(consumed) && Typed(next)
         && IsN(previous.ch.value) && IsConsonantExceptN(consumed.ch.value) && IsVowel(next.ch.value)
      then splitAt - 1
      else splitAt
  }

  /* ----- the client ----- */

  function LastLetter(s: string): Option<char> {
    if s == [] then None
    else if IsLetter(s[|s| - 1]) then Some(s[|s| - 1])
    else LastLetter(s[..|s| - 1])
  }

  function ClientSplit(rawInput: string, splitAt: nat): (k: nat)
    ensures k <= splitAt <= k + 1
  {
    if splitAt == 0 || splitAt >= |rawInput| then splitAt
    else if !IsConsonantExceptN(rawInput[splitAt - 1]) || !IsVowel(rawInput[splitAt]) then splitAt
    else
      var before := LastLetter(rawInput[..splitAt - 1]);
      if before.Some? && IsN(before.value) then splitAt - 1 else splitAt
  }

  /** The raw input that is left once a clause of `count` inputs is taken off the front. */
  function RawInputSuffix(rawInput: string, count: int): string {
    Skip(rawInput, ClientSplit(rawInput, if count <= 0 then 0 else if count >= |rawInput| then |rawInput| else count))
  }

  /* ----- what the two have in common ----- */

  lemma ServerSplitIdempotent(input: seq<InputElement>, rawCount: int)
    ensures ServerSplit(input, ServerSplit(input, rawCount)) == ServerSplit(input, rawCount)
  {
  }

  lemma ClientSplitIdempotent(rawInput: string, splitAt: nat)
    ensures ClientSplit(rawInput, ClientSplit(rawInput, splitAt)) == ClientSplit(rawInput, splitAt)
  {
  }

  /** `raw` spells the server's input, one character for each piece. */
  ghost predicate Spells(raw: string, input: seq<InputElement>) {
    |raw| == |input| && forall i :: 0 <= i < |raw| ==> input[i].ch == Some(raw[i])
  }

  /** The client sees an `n` the server does not act on: a non-letter stands between the
      `n` and the consonant, or one of the three pieces was entered directly. */
  predicate OnlyClientMoves(raw: string, input: seq<InputElement>, k: nat)
    requires |raw| == |input|
  {
    0 < k < |raw| && IsConsonantExceptN(raw[k - 1]) && IsVowel(raw[k])
    && LastLetter(raw[..k - 1]).Some? && IsN(LastLetter(raw[..k - 1]).value)
    && (!IsLetter(raw[k - 2]) || input[k - 2].direct || input[k - 1].direct || input[k].direct)
  }

  /** Client and server agree on what remains after a clause exactly when the client does not
      move the boundary on its own. */
  lemma SplitAgreement(raw: string, input: seq<InputElement>, rawCount: int)
    requires Spells(raw, input)
    ensures var k := ServerSplit(input, rawCount);
            RawInputSuffix(raw, k) == Skip(raw, k) <==> !OnlyClientMoves(raw, input, k)
  {
  }

  /** On letters typed through romaji conversion the two always split at the same place. */
  lemma SplitAgreementOnLetters(raw: string, input: seq<InputElement>, rawCount: int)
    requires Spells(raw, input)
    requires forall i :: 0 <= i < |raw| ==> IsLetter(raw[i]) && !input[i].direct
    ensures var k := ServerSplit(input, rawCount);
            RawInputSuffix(raw, k) == Skip(raw, k) && Spells(RawInputSuffix(raw, k), Skip(input, k))
  {
  }

  /** Off letters they can differ: the client steps over the digit to the `n`. */
  lemma SplitDisagreementExample()
    ensures var raw := "n1ka";
            var input := [InputElement(Some('n'), false), InputElement(Some('1'), false),
                          InputElement(Some('k'), false), InputElement(Some('a'), false)];
            ServerSplit(input, 3) == 3 && Skip(raw, 3) == "a" && RawInputSuffix(raw, 3) == "ka"
  {
  }
}
