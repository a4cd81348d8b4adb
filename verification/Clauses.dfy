/** The values the clause state machine works on: candidate lists, passed clauses,
    cached future clauses, and the pure rules that select and display them. */
module Clauses {
  import opened Text
  import opened DelayedN

  datatype Candidates = Candidates(texts: seq<string>, subTexts: seq<string>, hiragana: string, counts: seq<int>)
  {
    /** The server's answer when it holds no text at all. */
    predicate IsEmptyComposition() {
      texts == [] && subTexts == [] && hiragana == "" && counts == []
    }
  }

  const NO_CANDIDATES := Candidates([], [], "", [])

  datatype Selection = Selection(index: int, text: string, subText: string, hiragana: string, count: int)

  /** How a clause came to be: split off by a boundary edit, the remainder of one,
      right of one, and which edit it was. */
  datatype SplitMark = SplitMark(derived: bool, remainder: bool, leftNeighbor: bool, group: Option<nat>)

  const NO_SPLIT := SplitMark(false, false, false, None)

  datatype ClauseSnapshot = ClauseSnapshot(
    preview: string, suffix: string, rawInput: string, rawHiragana: string, fixedPrefix: string,
    count: int, selection: int, mark: SplitMark, candidates: Candidates)

  datatype FutureSnapshot = FutureSnapshot(
    clausePreview: string, suffix: string, rawInput: string, rawHiragana: string, conservative: bool,
    count: int, selection: int, mark: SplitMark, selectedText: string, selectedSubText: string,
    candidates: Candidates)

  datatype SetTextType = Hiragana | Katakana | HalfKatakana | FullLatin | HalfLatin

  /** The display text of a reading for one function key; the width and kana tables behind it are a parameter. */
  type Render = (SetTextType, string, string) -> string

  /* ----- selecting a candidate ----- */

  function Distance(a: int, b: int): nat {
    if a < b then b - a else a - b
  }

  function SelectCandidate(c: Candidates, desired: int): (r: Option<Selection>)
    ensures r.None? <==> c.texts == []
    ensures r.Some? ==> 0 <= r.value.index < |c.texts| && r.value.text == c.texts[r.value.index]
    ensures r.Some? ==>
      forall i :: 0 <= i < |c.texts| ==> Distance(desired, r.value.index) <= Distance(desired, i)
  {
    if c.texts == [] then None
    else
      var i := if desired < 0 then 0 else if desired >= |c.texts| then |c.texts| - 1 else desired;
      Some(Selection(i, c.texts[i], At(c.subTexts, i, ""), c.hiragana, At(c.counts, i, 0)))
  }

  /** The first candidate at or after `i` whose text and remainder together are the shown text. */
  function FirstExactSplit(c: Candidates, target: string, i: nat): (r: Option<nat>)
    requires i <= |c.texts|
    ensures r.Some? ==> i <= r.value < |c.texts|
    decreases |c.texts| - i
  {
    if i == |c.texts| then None
    else if StripPrefix(target, c.texts[i]) == Some(At(c.subTexts, i, "")) then Some(i)
    else FirstExactSplit(c, target, i + 1)
  }

  /** Among candidates `i..` that begin the shown text, the last one with the greatest
      (count, length); `best` is the winner so far. */
  function LongestBeginning(c: Candidates, target: string, i: nat, best: Option<nat>): (r: Option<nat>)
    requires i <= |c.texts| && (best.Some? ==> best.value < |c.texts|)
    ensures r.Some? ==> r.value < |c.texts|
    decreases |c.texts| - i
  {
    if i == |c.texts| then best
    else if c.texts[i] != "" && c.texts[i] <= target
         && (best.None?
             || At(c.counts, best.value, 0) < At(c.counts, i, 0)
             || (At(c.counts, best.value, 0) == At(c.counts, i, 0) && |c.texts[best.value]| <= |c.texts[i]|))
    then LongestBeginning(c, target, i + 1, Some(i))
    else LongestBeginning(c, target, i + 1, best)
  }

  function SelectForPreview(c: Candidates, preview: string, fixedPrefix: string, selection: int): (r: Option<Selection>)
    ensures r.None? <==> c.texts == []
    ensures r.Some? ==> 0 <= r.value.index < |c.texts|
  {
    var target := ClausePreview(preview, fixedPrefix);
    var exact := FirstExactSplit(c, target, 0);
    var longest := LongestBeginning(c, target, 0, None);
    if exact.Some? then SelectCandidate(c, exact.value)
    else if longest.Some? then SelectCandidate(c, longest.value)
    else SelectCandidate(c, selection)
  }

  /** The candidate with the greatest count below `limit`, the last of equals. */
  function SplitLeftFrom(c: Candidates, limit: int, i: nat, best: Option<Selection>): Option<Selection>
    requires i <= |c.texts|
    decreases |c.texts| - i
  {
    if i == |c.texts| then best
    else
      var s := SelectCandidate(c, i).value;
      if s.count < limit && (best.None? || best.value.count <= s.count)
      then SplitLeftFrom(c, limit, i + 1, Some(s))
      else SplitLeftFrom(c, limit, i + 1, best)
  }

  function SplitLeftCandidate(c: Candidates, limit: int): Option<Selection> {
    SplitLeftFrom(c, limit, 0, None)
  }

  predicate SplitsRawInput(s: Selection, rawInput: string) {
    0 < s.count < |rawInput| && s.subText != ""
  }

  /* ----- texts ----- */

  function Merge(fixedPrefix: string, clausePreview: string): string {
    if fixedPrefix == "" then clausePreview else fixedPrefix + clausePreview
  }

  function ClausePreview(preview: string, fixedPrefix: string): string {
    StripPrefix(preview, fixedPrefix).GetOr(preview)
  }

  lemma MergePreview(fixedPrefix: string, text: string)
    ensures Merge(fixedPrefix, text) == fixedPrefix + text
    ensures fixedPrefix <= Merge(fixedPrefix, text)
    ensures ClausePreview(Merge(fixedPrefix, text), fixedPrefix) == text
  {
  }

  lemma SplitPreview(preview: string, fixedPrefix: string)
    requires fixedPrefix <= preview
    ensures fixedPrefix + ClausePreview(preview, fixedPrefix) == preview
    ensures Merge(fixedPrefix, ClausePreview(preview, fixedPrefix)) == preview
  {
  }

  function SuffixAfterSelected(preview: string, fixedPrefix: string, suffix: string, s: Selection): string {
    var inPreview := StripPrefix(ClausePreview(preview, fixedPrefix), s.text);
    if inPreview.Some? then inPreview.value else StripPrefix(suffix, s.text).GetOr(s.subText)
  }

  function RawSuffix(rawHiragana: string, count: int): string {
    Skip(rawHiragana, count)
  }

  /** The first of the five function-key renderings that is what the clause shows now. */
  function DisplayOverride(render: Render, preview: string, fixedPrefix: string,
                           rawInput: string, rawHiragana: string): Option<SetTextType>
  {
    var shown := ClausePreview(preview, fixedPrefix);
    if render(Hiragana, rawInput, rawHiragana) == shown then Some(Hiragana)
    else if render(Katakana, rawInput, rawHiragana) == shown then Some(Katakana)
    else if render(HalfKatakana, rawInput, rawHiragana) == shown then Some(HalfKatakana)
    else if render(FullLatin, rawInput, rawHiragana) == shown then Some(FullLatin)
    else if render(HalfLatin, rawInput, rawHiragana) == shown then Some(HalfLatin)
    else None
  }

  /** A text cut before a known tail, or at a character count when the tail does not fit. */
  function CutBefore(s: string, tail: Option<string>, count: int): (string, string) {
    if tail.Some? && EndsWith(s, tail.value)
    then (StripSuffix(s, tail.value).value, tail.value)
    else (Take(s, count), Skip(s, count))
  }

  function OverrideSplit(render: Render, kind: SetTextType, rawInput: string, rawHiragana: string,
                         count: int, next: Option<FutureSnapshot>): (string, string)
  {
    var input := CutBefore(rawInput, if next.Some? then Some(next.value.rawInput) else None, count);
    var reading := CutBefore(rawHiragana, if next.Some? then Some(next.value.rawHiragana) else None, count);
    (render(kind, input.0, reading.0), render(kind, input.1, reading.1))
  }

  /* ----- future clauses ----- */

  function Display(f: FutureSnapshot): string {
    f.clausePreview + f.suffix
  }

  function Last<T>(s: seq<T>): Option<T> {
    if s == [] then None else Some(s[|s| - 1])
  }

  function ReplaceFutureSuffix(subText: string, f: FutureSnapshot): Option<string> {
    var head := StripSuffix(subText, f.rawHiragana);
    if head.Some? then Some(head.value + Display(f)) else None
  }

  function RestoreRawSuffix(subText: string, f: FutureSnapshot): Option<string> {
    var head := StripSuffix(subText, Display(f));
    if head.Some? then Some(head.value + f.rawHiragana) else None
  }

  /** Showing the cached clause instead of its reading, and the reading instead of the clause, undo each other. */
  lemma SuffixRoundTrip(subText: string, f: FutureSnapshot)
    ensures var shown := ReplaceFutureSuffix(subText, f);
            shown.Some? ==> RestoreRawSuffix(shown.value, f) == Some(subText)
    ensures var raw := RestoreRawSuffix(subText, f); raw.Some? ==> ReplaceFutureSuffix(raw.value, f) == Some(subText)
  {
  }

  /** Every candidate's remainder shown with the cached next clause instead of its reading. */
  function SyncedCandidates(c: Candidates, future: seq<FutureSnapshot>): Candidates {
    if future == [] then c
    else
      var f := future[|future| - 1];
      c.(subTexts := seq(|c.subTexts|, i requires 0 <= i < |c.subTexts| =>
        ReplaceFutureSuffix(c.subTexts[i], f).GetOr(c.subTexts[i])))
  }

  /** The displayed remainder of the selected candidate, read from synced candidates. */
  function SyncedSuffix(c: Candidates, selection: int, count: int, future: seq<FutureSnapshot>): string {
    var i := if selection < 0 then 0 else selection;
    if i < |c.subTexts| then SyncedCandidates(c, future).subTexts[i]
    else if future == [] then ""
    else RawSuffix(c.hiragana, count)
  }

  function Conservative(clausePreview: string, suffix: string, rawInput: string, rawHiragana: string,
                        count: int, mark: SplitMark): FutureSnapshot
  {
    FutureSnapshot(clausePreview, suffix, rawInput, rawHiragana, true, count, 0, mark, clausePreview, suffix,
                   Candidates([clausePreview], [suffix], rawHiragana, [count]))
  }

  /** The cached form of the clause under the cursor. */
  function BuildFuture(preview: string, suffix: string, rawInput: string, rawHiragana: string,
                       fixedPrefix: string, count: int, selection: int, candidates: Candidates,
                       mark: SplitMark): FutureSnapshot
  {
    var clause := ClausePreview(preview, fixedPrefix);
    var s := SelectCandidate(candidates, selection).GetOr(
      Selection(if selection < 0 then 0 else selection, clause, suffix, rawHiragana, count));
    FutureSnapshot(clause, suffix, rawInput, rawHiragana, false, count, s.index, mark, s.text, s.subText, candidates)
  }

  /** The first candidate that has the cached text, remainder and count. */
  function FirstCached(c: Candidates, text: string, subText: string, count: int, i: nat): (r: Option<nat>)
    ensures r.Some? ==> i <= r.value < |c.texts|
    decreases |c.texts| - i
  {
    if i >= |c.texts| || i >= |c.subTexts| || i >= |c.counts| then None
    else if c.texts[i] == text && c.subTexts[i] == subText && c.counts[i] == count then Some(i)
    else FirstCached(c, text, subText, count, i + 1)
  }

  function ResolveSelection(f: FutureSnapshot): int {
    var found := FirstCached(f.candidates, f.selectedText, f.selectedSubText, f.count, 0);
    var top := if |f.candidates.texts| == 0 then 0 else |f.candidates.texts| - 1;
    if found.Some? then found.value
    else if f.selection < 0 then 0 else if f.selection > top then top else f.selection
  }

  function CommonSuffixLength(a: string, b: string): (n: nat)
    ensures n <= |a| && n <= |b|
    ensures a[|a| - n..] == b[|b| - n..]
  {
    if a == "" || b == "" || a[|a| - 1] != b[|b| - 1] then 0
    else
      var n := CommonSuffixLength(a[..|a| - 1], b[..|b| - 1]);
      assert a[|a| - (n + 1)..] == a[..|a| - 1][|a| - 1 - n..] + [a[|a| - 1]];
      assert b[|b| - (n + 1)..] == b[..|b| - 1][|b| - 1 - n..] + [b[|b| - 1]];
      n + 1
  }

  /** The server reports a reading that differs from the cached one in its first character only. */
  predicate RecoverableReading(server: string, cached: string) {
    server != "" && |server| == |cached| && CommonSuffixLength(server, cached) + 1 == |cached|
  }

  /** The reading of the last clause as the full reading has it, when the server's differs in
      its first character only. */
  function RecoverReading(full: string, server: string): (r: Option<string>)
    ensures r.Some? ==> EndsWith(full, r.value) && |r.value| == |server|
  {
    var n := CommonSuffixLength(full, server);
    if server == "" || EndsWith(full, server) || n == 0 || n + 1 != |server| || |full| <= n then None
    else Some(full[|full| - n - 1..])
  }

  lemma {:induction false} CommonSuffixIsGreatest(a: string, b: string, n: nat)
    requires n <= |a| && n <= |b| && a[|a| - n..] == b[|b| - n..]
    ensures n <= CommonSuffixLength(a, b)
  {
    if n > 0 {
      var s, t := a[..|a| - 1], b[..|b| - 1];
      assert a[|a| - 1] == a[|a| - n..][n - 1] == b[|b| - n..][n - 1] == b[|b| - 1];
      assert s[|s| - (n - 1)..] == a[|a| - n..][..n - 1] == b[|b| - n..][..n - 1] == t[|t| - (n - 1)..];
      CommonSuffixIsGreatest(s, t, n - 1);
    }
  }

  /** A reading is recovered exactly when the server's differs from the end of the full one in its first
      character and in no other. */
  lemma RecoveredExactly(full: string, server: string)
    ensures RecoverReading(full, server).Some?
        <==> 2 <= |server| <= |full| && EndsWith(full, server[1..]) && !EndsWith(full, server)
  {
    var n := CommonSuffixLength(full, server);
    if 2 <= |server| <= |full| {
      if EndsWith(full, server[1..]) {
        CommonSuffixIsGreatest(full, server, |server| - 1);
      }
      if n + 1 == |server| {
        assert server[|server| - n..] == server[1..];
      }
    }
  }

  predicate FutureMatches(future: seq<FutureSnapshot>, server: Candidates) {
    future != [] &&
    var cached := future[|future| - 1].rawHiragana;
    cached <= server.hiragana || EndsWith(server.hiragana, cached) || EndsWith(cached, server.hiragana)
      || RecoverableReading(server.hiragana, cached)
  }

  /* ----- the display seen from the clauses already passed ----- */

  /** A passed clause whose displayed remainder follows an edit further right. */
  function SyncSnapshot(s: ClauseSnapshot, full: string): ClauseSnapshot {
    if !(s.preview <= full) then s
    else
      var rest := full[|s.preview|..];
      var subs := seq(|s.candidates.subTexts|, i requires 0 <= i < |s.candidates.subTexts| =>
        var head := StripSuffix(s.candidates.subTexts[i], s.suffix);
        if head.Some? then head.value + rest else s.candidates.subTexts[i]);
      var k := FirstWithCount(subs, s.candidates.counts, s.count, 0);
      s.(suffix := rest,
         candidates := s.candidates.(subTexts := if k.Some? then subs[k.value := rest] else subs))
  }

  function FirstWithCount(subs: seq<string>, counts: seq<int>, count: int, i: nat): (r: Option<nat>)
    ensures r.Some? ==> i <= r.value < |subs|
    decreases |subs| - i
  {
    if i >= |subs| || i >= |counts| then None
    else if counts[i] == count then Some(i)
    else FirstWithCount(subs, counts, count, i + 1)
  }

  function SyncSnapshots(passed: seq<ClauseSnapshot>, full: string): (r: seq<ClauseSnapshot>)
    ensures |r| == |passed|
    ensures forall i :: 0 <= i < |r| ==> r[i] == SyncSnapshot(passed[i], full)
  {
    if passed == [] then [] else [SyncSnapshot(passed[0], full)] + SyncSnapshots(passed[1..], full)
  }
}
