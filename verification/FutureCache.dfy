/** What a boundary edit does to the stack of cached future clauses.  The top of the stack is
    the next clause; each cached reading runs from its clause to the end of the sentence. */
module FutureCache {
  import opened Text
  import opened DelayedN
  import opened Clauses

  predicate MatchesReading(f: FutureSnapshot, reading: string) {
    EndsWith(reading, f.rawHiragana)
  }

  /** The topmost cached clause that was typed with exactly `rawInput`. */
  function CachedByInput(future: seq<FutureSnapshot>, rawInput: string): (r: Option<FutureSnapshot>)
    ensures r.Some? ==> r.value in future
  {
    if rawInput == "" || future == [] then None
    else if future[|future| - 1].rawInput == rawInput then Some(future[|future| - 1])
    else CachedByInput(future[..|future| - 1], rawInput)
  }

  /** The reading right of the new boundary, "" when it cannot be told. */
  function SplitReading(future: seq<FutureSnapshot>, rawInputSuffix: string, rawHiragana: string,
                        count: int, hint: string, allow: bool): string
  {
    var top := Last(future);
    var normalized := if top.Some? then RestoreRawSuffix(hint, top.value).GetOr(hint) else hint;
    var cached := CachedByInput(future, rawInputSuffix);
    if cached.Some? then cached.value.rawHiragana
    else if normalized != "" && EndsWith(rawHiragana, normalized) then normalized
    else if top.Some? && MatchesReading(top.value, normalized) then top.value.rawHiragana
    else if top.Some? && !allow then RawSuffix(rawHiragana, count)
    else ""
  }

  /** Cached clauses that do not end the given reading are dropped from the top. */
  function TrimStale(future: seq<FutureSnapshot>, reading: string): (r: seq<FutureSnapshot>)
    ensures r <= future
    ensures r != [] ==> MatchesReading(r[|r| - 1], reading)
  {
    if future == [] || MatchesReading(future[|future| - 1], reading) then future
    else TrimStale(future[..|future| - 1], reading)
  }

  function RefinedReading(reading: string, hint: string, top: FutureSnapshot): string {
    if hint == "" then reading
    else
      var restored := RestoreRawSuffix(hint, top);
      if restored.Some? then restored.value
      else if hint == Display(top) || hint == top.rawHiragana then top.rawHiragana
      else reading
  }

  function ReadingOf(f: Option<FutureSnapshot>): string {
    if f.Some? then f.value.rawHiragana else ""
  }

  function InputOf(f: Option<FutureSnapshot>): string {
    if f.Some? then f.value.rawInput else ""
  }

  /** The remainder of a split as one clause above `below`. */
  function Remainder(top: FutureSnapshot, below: Option<FutureSnapshot>, rawInputSuffix: string,
                     reading: string, mark: SplitMark): FutureSnapshot
  {
    Conservative(
      StripSuffix(reading, ReadingOf(below)).GetOr(reading), top.suffix, rawInputSuffix, reading,
      |StripSuffix(rawInputSuffix, InputOf(below)).GetOr(rawInputSuffix)|, mark)
  }

  /** The cache after the current clause now ends `count` inputs in. */
  function SplitFuture(future: seq<FutureSnapshot>, rawInput: string, rawHiragana: string, count: int,
                       hint: string, allow: bool, group: Option<nat>): (r: seq<FutureSnapshot>)
  {
    var rawInputSuffix := RawInputSuffix(rawInput, count);
    var first := SplitReading(future, rawInputSuffix, rawHiragana, count, hint, allow);
    if first == "" then future
    else if future == [] then (if allow then [Bootstrap(rawInputSuffix, first, hint, group)] else future)
    else SplitKept(future, rawInputSuffix, first, hint, group)
  }

  function SplitKept(future: seq<FutureSnapshot>, rawInputSuffix: string, first: string, hint: string,
                     group: Option<nat>): seq<FutureSnapshot>
  {
    var kept := TrimStale(future, first);
    if kept == [] then kept
    else SplitTop(kept, rawInputSuffix, RefinedReading(first, hint, kept[|kept| - 1]), group)
  }

  function Bootstrap(rawInputSuffix: string, reading: string, hint: string, group: Option<nat>): FutureSnapshot {
    var input := if rawInputSuffix == "" then reading else rawInputSuffix;
    Conservative(if hint == "" then reading else hint, "", input, reading, |input|,
                 SplitMark(group.Some?, true, true, group))
  }

  /** The next clause is itself what an earlier edit left over: a placeholder, or a real clause
      that this very split group left with another clause behind it. */
  predicate AbsorbsRemainder(kept: seq<FutureSnapshot>, group: Option<nat>)
    requires kept != []
  {
    var top := kept[|kept| - 1];
    top.conservative || (top.mark.remainder && top.mark.group == group && |kept| >= 2)
  }

  /** The last step: the top clause absorbs the remainder, or the remainder becomes a clause of its own. */
  function SplitTop(kept: seq<FutureSnapshot>, rawInputSuffix: string, reading: string,
                    group: Option<nat>): seq<FutureSnapshot>
    requires kept != []
  {
    var top, rest := kept[|kept| - 1], kept[..|kept| - 1];
    if AbsorbsRemainder(kept, group) then
      rest + [Remainder(top, Last(rest), rawInputSuffix, reading,
                        SplitMark(!top.conservative || group.Some?, true, true, group))]
    else
      var head := StripSuffix(reading, top.rawHiragana);
      if head.None? || head.value == "" then kept
      else
        var before := StripSuffix(rawInputSuffix, top.rawInput);
        kept + [Conservative(head.value, Display(top), rawInputSuffix, reading,
                             if before.Some? then |before.value| else |head.value|,
                             SplitMark(group.Some?, true, true, group))]
  }

  /* ----- conservation ----- */

  /** Each cached reading ends the one above it. */
  ghost predicate Chained(future: seq<FutureSnapshot>) {
    forall i :: 0 < i < |future| ==> EndsWith(future[i].rawHiragana, future[i - 1].rawHiragana)
  }

  /** The part of the sentence's reading that belongs to the top cached clause alone. */
  function TopShare(future: seq<FutureSnapshot>): string
    requires future != []
  {
    var below := if |future| == 1 then "" else future[|future| - 2].rawHiragana;
    Take(future[|future| - 1].rawHiragana, |future[|future| - 1].rawHiragana| - |below|)
  }

  function Shares(future: seq<FutureSnapshot>): string {
    if future == [] then "" else TopShare(future) + Shares(future[..|future| - 1])
  }

  lemma TopShareRest(future: seq<FutureSnapshot>)
    requires |future| >= 2 && Chained(future)
    ensures Chained(future[..|future| - 1])
    ensures TopShare(future) + ReadingOf(Last(future[..|future| - 1])) == ReadingOf(Last(future))
  {
    assert EndsWith(future[|future| - 1].rawHiragana, future[|future| - 2].rawHiragana);
  }

  /** The shares of the cached clauses, in reading order, are the whole remaining reading. */
  lemma {:induction false} SharesTelescope(future: seq<FutureSnapshot>)
    requires Chained(future)
    ensures Shares(future) == ReadingOf(Last(future))
  {
    if |future| >= 2 {
      SharesTelescope(future[..|future| - 1]);
      TopShareRest(future);
    } else if |future| == 1 {
      assert Shares(future[..0]) == "";
    }
  }

  /** What a boundary edit may do to the cache: keep a lower part of it, or put one new clause on
      top of a lower part.  The new clause then shows exactly its own share of the reading. */
  ghost predicate SplitResult(before: seq<FutureSnapshot>, after: seq<FutureSnapshot>) {
    || after <= before
    || (|after| >= 1 && after[..|after| - 1] <= before && after[|after| - 1].conservative
        && after[|after| - 1].clausePreview == TopShare(after)
        && after[|after| - 1].clausePreview + ReadingOf(Last(after[..|after| - 1])) == after[|after| - 1].rawHiragana)
  }

  /** Putting a clause that shows its own share on top of a lower part of the cache. */
  lemma PutOnTop(before: seq<FutureSnapshot>, rest: seq<FutureSnapshot>, p: FutureSnapshot)
    requires rest <= before && Chained(rest) && p.conservative
    requires p.clausePreview + ReadingOf(Last(rest)) == p.rawHiragana
    ensures Chained(rest + [p]) && SplitResult(before, rest + [p])
  {
  }

  lemma RemainderShare(top: FutureSnapshot, below: Option<FutureSnapshot>, rawInputSuffix: string,
                       reading: string, mark: SplitMark)
    requires MatchesReading(top, reading)
    requires below.Some? ==> EndsWith(top.rawHiragana, below.value.rawHiragana)
    ensures var p := Remainder(top, below, rawInputSuffix, reading, mark);
            p.conservative && p.rawHiragana == reading && p.clausePreview + ReadingOf(below) == reading
  {
  }

  lemma RefinedReadingEnds(reading: string, hint: string, top: FutureSnapshot)
    requires MatchesReading(top, reading)
    ensures MatchesReading(top, RefinedReading(reading, hint, top))
  {
  }

  lemma SplitTopConserves(kept: seq<FutureSnapshot>, rawInputSuffix: string, reading: string, group: Option<nat>)
    requires kept != [] && Chained(kept) && MatchesReading(kept[|kept| - 1], reading)
    ensures Chained(SplitTop(kept, rawInputSuffix, reading, group))
    ensures SplitResult(kept, SplitTop(kept, rawInputSuffix, reading, group))
  {
    var top, rest := kept[|kept| - 1], kept[..|kept| - 1];
    assert Chained(rest);
    var after := SplitTop(kept, rawInputSuffix, reading, group);
    if AbsorbsRemainder(kept, group) {
      var mark := SplitMark(!top.conservative || group.Some?, true, true, group);
      RemainderShare(top, Last(rest), rawInputSuffix, reading, mark);
      PutOnTop(kept, rest, Remainder(top, Last(rest), rawInputSuffix, reading, mark));
    } else if after != kept {
      PutOnTop(kept, kept, after[|kept|]);
    }
  }

  lemma SplitResultTrimmed(before: seq<FutureSnapshot>, kept: seq<FutureSnapshot>, after: seq<FutureSnapshot>)
    requires kept <= before && SplitResult(kept, after)
    ensures SplitResult(before, after)
  {
  }

  lemma BootstrapConserves(rawInputSuffix: string, reading: string, hint: string, group: Option<nat>)
    requires hint == "" || hint == reading
    ensures Chained([Bootstrap(rawInputSuffix, reading, hint, group)])
    ensures SplitResult([], [Bootstrap(rawInputSuffix, reading, hint, group)])
  {
  }

  /** With nothing cached, a split reading can only be the hint itself. */
  lemma BootstrapHint(rawInputSuffix: string, rawHiragana: string, count: int, hint: string, allow: bool)
    ensures SplitReading([], rawInputSuffix, rawHiragana, count, hint, allow) in {"", hint}
  {
  }

  lemma LowerPartChained(future: seq<FutureSnapshot>, kept: seq<FutureSnapshot>)
    requires Chained(future) && kept <= future
    ensures Chained(kept)
  {
    assert forall i :: 0 <= i < |kept| ==> kept[i] == future[i];
  }

  lemma SplitKeptConserves(future: seq<FutureSnapshot>, rawInputSuffix: string, first: string, hint: string,
                           group: Option<nat>)
    requires Chained(future)
    ensures Chained(SplitKept(future, rawInputSuffix, first, hint, group))
    ensures SplitResult(future, SplitKept(future, rawInputSuffix, first, hint, group))
  {
    var kept := TrimStale(future, first);
    LowerPartChained(future, kept);
    if kept != [] {
      var reading := RefinedReading(first, hint, kept[|kept| - 1]);
      RefinedReadingEnds(first, hint, kept[|kept| - 1]);
      SplitTopConserves(kept, rawInputSuffix, reading, group);
      SplitResultTrimmed(future, kept, SplitTop(kept, rawInputSuffix, reading, group));
    }
  }

  /** A boundary edit conserves the reading: the cached readings still nest, everything but the
      top is a lower part of the old cache, and a new top shows exactly its own share. */
  lemma SplitFutureConserves(future: seq<FutureSnapshot>, rawInput: string, rawHiragana: string, count: int,
                             hint: string, allow: bool, group: Option<nat>)
    requires Chained(future)
    ensures Chained(SplitFuture(future, rawInput, rawHiragana, count, hint, allow, group))
    ensures SplitResult(future, SplitFuture(future, rawInput, rawHiragana, count, hint, allow, group))
  {
    var rawInputSuffix := RawInputSuffix(rawInput, count);
    var first := SplitReading(future, rawInputSuffix, rawHiragana, count, hint, allow);
    if first == "" {
    } else if future == [] {
      BootstrapHint(rawInputSuffix, rawHiragana, count, hint, allow);
      BootstrapConserves(rawInputSuffix, first, hint, group);
    } else {
      SplitKeptConserves(future, rawInputSuffix, first, hint, group);
    }
  }

  /** The edit gives the sentence a clause it did not have: with a real clause cached next, the
      text between the new boundary and that clause becomes a clause displayed in front of it. */
  lemma SplitBeforeActualClause(kept: seq<FutureSnapshot>, rawInputSuffix: string, reading: string, group: Option<nat>)
    requires kept != [] && Chained(kept) && MatchesReading(kept[|kept| - 1], reading)
    requires !kept[|kept| - 1].conservative && !kept[|kept| - 1].mark.remainder
    requires |kept[|kept| - 1].rawHiragana| < |reading|
    ensures var after := SplitTop(kept, rawInputSuffix, reading, group);
            |after| == |kept| + 1 && after[..|kept|] == kept
            && after[|kept|].clausePreview + kept[|kept| - 1].rawHiragana == reading
            && after[|kept|].suffix == Display(kept[|kept| - 1])
  {
  }

  /* ----- what is kept ----- */

  /** The longest lower part of the cache whose top still ends the given reading. */
  ghost predicate LongestFit(kept: seq<FutureSnapshot>, future: seq<FutureSnapshot>, reading: string) {
    && kept <= future
    && (kept != [] ==> EndsWith(reading, kept[|kept| - 1].rawHiragana))
    && forall j :: |kept| <= j < |future| ==> !EndsWith(reading, future[j].rawHiragana)
  }

  lemma {:induction false} TrimKeepsLongest(future: seq<FutureSnapshot>, reading: string)
    ensures LongestFit(TrimStale(future, reading), future, reading)
  {
    if future != [] && !MatchesReading(future[|future| - 1], reading) {
      TrimKeepsLongest(future[..|future| - 1], reading);
    }
  }

  lemma LongestFitUnique(a: seq<FutureSnapshot>, b: seq<FutureSnapshot>, future: seq<FutureSnapshot>, reading: string)
    requires LongestFit(a, future, reading) && LongestFit(b, future, reading)
    ensures a == b
  {
  }

  /** The step below the top loses nothing but the top itself, and the new top reads as asked. */
  lemma SplitTopReads(kept: seq<FutureSnapshot>, rawInputSuffix: string, reading: string, group: Option<nat>)
    requires kept != [] && MatchesReading(kept[|kept| - 1], reading)
    ensures var after := SplitTop(kept, rawInputSuffix, reading, group);
            && |kept| <= |after| <= |kept| + 1 && kept[..|kept| - 1] <= after
            && after[|after| - 1].rawHiragana == reading
            && (!AbsorbsRemainder(kept, group) ==> kept <= after)
  {
    var top := kept[|kept| - 1];
    var head := StripSuffix(reading, top.rawHiragana);
    assert head.Some?;
    if head.value == "" {
      assert reading == "" + top.rawHiragana;
    }
  }

  /** What a split makes of a cache of which `kept` fits. */
  ghost predicate KeptSplit(after: seq<FutureSnapshot>, kept: seq<FutureSnapshot>, first: string, hint: string,
                            group: Option<nat>)
  {
    if kept == [] then after == []
    else
      && |kept| <= |after| <= |kept| + 1 && kept[..|kept| - 1] <= after
      && after[|after| - 1].rawHiragana == RefinedReading(first, hint, kept[|kept| - 1])
      && (!AbsorbsRemainder(kept, group) ==> kept <= after)
  }

  lemma SplitKeptKeeps(future: seq<FutureSnapshot>, rawInputSuffix: string, first: string, hint: string,
                       group: Option<nat>, kept: seq<FutureSnapshot>)
    requires LongestFit(kept, future, first)
    ensures KeptSplit(SplitKept(future, rawInputSuffix, first, hint, group), kept, first, hint, group)
  {
    TrimKeepsLongest(future, first);
    LongestFitUnique(kept, TrimStale(future, first), future, first);
    if kept != [] {
      RefinedReadingEnds(first, hint, kept[|kept| - 1]);
      SplitTopReads(kept, rawInputSuffix, RefinedReading(first, hint, kept[|kept| - 1]), group);
    }
  }

  /** A boundary edit over a cache: nothing that still fits is dropped but a top that takes the remainder in, and
      as long as anything fits the new top reads from the new boundary to the end of the sentence. */
  lemma SplitKeeps(future: seq<FutureSnapshot>, rawInput: string, rawHiragana: string, count: int, hint: string,
                   allow: bool, group: Option<nat>, kept: seq<FutureSnapshot>)
    requires future != []
    requires var first := SplitReading(future, RawInputSuffix(rawInput, count), rawHiragana, count, hint, allow);
             first != "" && LongestFit(kept, future, first)
    ensures var first := SplitReading(future, RawInputSuffix(rawInput, count), rawHiragana, count, hint, allow);
            KeptSplit(SplitFuture(future, rawInput, rawHiragana, count, hint, allow, group), kept, first, hint, group)
  {
    var first := SplitReading(future, RawInputSuffix(rawInput, count), rawHiragana, count, hint, allow);
    SplitKeptKeeps(future, RawInputSuffix(rawInput, count), first, hint, group, kept);
  }

  /* ----- a remainder given as it is read, or as it is displayed ----- */

  /** No cached clause was typed with exactly this input. */
  ghost predicate NotTyped(future: seq<FutureSnapshot>, rawInput: string) {
    forall f :: f in future ==> f.rawInput != rawInput
  }

  lemma {:induction false} NoneTyped(future: seq<FutureSnapshot>, rawInput: string)
    requires NotTyped(future, rawInput)
    ensures CachedByInput(future, rawInput).None?
  {
    if rawInput != "" && future != [] {
      assert future[|future| - 1] in future;
      NoneTyped(future[..|future| - 1], rawInput);
    }
  }

  /** No cached clause is mistaken for the end of the reading. */
  ghost predicate ReadPlainly(reading: string, future: seq<FutureSnapshot>) {
    forall i :: 0 <= i < |future| && EndsWith(reading, Display(future[i])) ==>
      Display(future[i]) == future[i].rawHiragana
  }

  /** The remainder is `reading`, and the candidate gives it as it is read, with no cached clause mistaken for its
      end, or displayed with the next cached clause. */
  ghost predicate Hints(hint: string, reading: string, future: seq<FutureSnapshot>)
    requires future != []
  {
    (hint == reading && ReadPlainly(reading, future)) || ShownAs(hint, reading, future[|future| - 1])
  }

  /** The same text, ending in a clause as displayed on one side and as read on the other. */
  predicate ShownAs(shown: string, reading: string, f: FutureSnapshot) {
    EndsWith(shown, Display(f)) && reading == shown[..|shown| - |Display(f)|] + f.rawHiragana
  }

  lemma HeadRestored(head: string, f: FutureSnapshot)
    ensures RestoreRawSuffix(head + Display(f), f) == Some(head + f.rawHiragana)
  {
  }

  lemma ReadRestored(reading: string, f: FutureSnapshot)
    requires EndsWith(reading, Display(f)) ==> Display(f) == f.rawHiragana
    ensures RestoreRawSuffix(reading, f).GetOr(reading) == reading
  {
  }

  lemma ShownRestored(hint: string, reading: string, f: FutureSnapshot)
    requires ShownAs(hint, reading, f)
    ensures RestoreRawSuffix(hint, f) == Some(reading) && EndsWith(reading, f.rawHiragana)
  {
    var head := hint[..|hint| - |Display(f)|];
    assert hint == head + Display(f);
    HeadRestored(head, f);
  }

  /** Such a remainder is understood. */
  lemma HintUnderstood(future: seq<FutureSnapshot>, rawInputSuffix: string, rawHiragana: string, count: int,
                       hint: string, allow: bool, reading: string)
    requires future != [] && NotTyped(future, rawInputSuffix) && reading != "" && EndsWith(rawHiragana, reading)
    requires Hints(hint, reading, future)
    ensures SplitReading(future, rawInputSuffix, rawHiragana, count, hint, allow) == reading
  {
    NoneTyped(future, rawInputSuffix);
    var top := future[|future| - 1];
    if ShownAs(hint, reading, top) {
      ShownRestored(hint, reading, top);
    } else {
      ReadRestored(reading, top);
    }
  }

  lemma RefinedRead(reading: string, f: FutureSnapshot)
    requires EndsWith(reading, Display(f)) ==> Display(f) == f.rawHiragana
    ensures RefinedReading(reading, reading, f) == reading
  {
    ReadRestored(reading, f);
  }

  lemma RefinedShown(hint: string, reading: string, f: FutureSnapshot)
    requires ShownAs(hint, reading, f)
    ensures RefinedReading(reading, hint, f) == reading
  {
    ShownRestored(hint, reading, f);
  }

  lemma HintRefined(future: seq<FutureSnapshot>, kept: seq<FutureSnapshot>, hint: string, reading: string)
    requires future != [] && kept != [] && Hints(hint, reading, future) && LongestFit(kept, future, reading)
    ensures RefinedReading(reading, hint, kept[|kept| - 1]) == reading
  {
    if ShownAs(hint, reading, future[|future| - 1]) {
      ShownRestored(hint, reading, future[|future| - 1]);
      assert |kept| == |future|;
      RefinedShown(hint, reading, future[|future| - 1]);
    } else {
      assert kept[|kept| - 1] == future[|kept| - 1];
      RefinedRead(reading, kept[|kept| - 1]);
    }
  }

  /** All of `kept` but its top is still there, and if anything was kept the shares are the reading. */
  ghost predicate KeptShares(after: seq<FutureSnapshot>, kept: seq<FutureSnapshot>, reading: string) {
    kept != [] ==>
      (&& kept[..|kept| - 1] <= after && after != [] && after[|after| - 1].rawHiragana == reading
       && Shares(after) == reading)
  }

  /** With such a remainder the cache is kept as far as it fits, and the shares of what the edit leaves are the
      remainder's reading. */
  lemma SplitSharesReading(future: seq<FutureSnapshot>, rawInput: string, rawHiragana: string, count: int,
                           hint: string, allow: bool, group: Option<nat>, reading: string, kept: seq<FutureSnapshot>)
    requires future != [] && Chained(future) && NotTyped(future, RawInputSuffix(rawInput, count))
    requires reading != "" && EndsWith(rawHiragana, reading) && Hints(hint, reading, future)
    requires LongestFit(kept, future, reading)
    ensures KeptShares(SplitFuture(future, rawInput, rawHiragana, count, hint, allow, group), kept, reading)
  {
    HintUnderstood(future, RawInputSuffix(rawInput, count), rawHiragana, count, hint, allow, reading);
    SplitKeeps(future, rawInput, rawHiragana, count, hint, allow, group, kept);
    SplitFutureConserves(future, rawInput, rawHiragana, count, hint, allow, group);
    if kept != [] {
      HintRefined(future, kept, hint, reading);
    }
    SharesKept(SplitFuture(future, rawInput, rawHiragana, count, hint, allow, group), kept, reading, hint, group);
  }

  lemma SharesKept(after: seq<FutureSnapshot>, kept: seq<FutureSnapshot>, reading: string, hint: string,
                   group: Option<nat>)
    requires Chained(after) && KeptSplit(after, kept, reading, hint, group)
    requires kept != [] ==> RefinedReading(reading, hint, kept[|kept| - 1]) == reading
    ensures KeptShares(after, kept, reading)
  {
    SharesTelescope(after);
  }

  /** A remainder that is understood and that the next clause ends is given to the last step with the whole cache. */
  lemma WholeKept(future: seq<FutureSnapshot>, rawInput: string, rawHiragana: string, count: int, hint: string,
                  allow: bool, group: Option<nat>, reading: string)
    requires future != [] && NotTyped(future, RawInputSuffix(rawInput, count))
    requires reading != "" && EndsWith(rawHiragana, reading) && Hints(hint, reading, future)
    requires EndsWith(reading, future[|future| - 1].rawHiragana)
    ensures SplitFuture(future, rawInput, rawHiragana, count, hint, allow, group)
         == SplitTop(future, RawInputSuffix(rawInput, count), reading, group)
  {
    HintUnderstood(future, RawInputSuffix(rawInput, count), rawHiragana, count, hint, allow, reading);
    assert LongestFit(future, future, reading);
    HintRefined(future, future, hint, reading);
    TrimKeepsLongest(future, reading);
    LongestFitUnique(future, TrimStale(future, reading), future, reading);
  }

  /** A remainder that is just the clause left on top, as displayed or as read, puts nothing in front of a real one. */
  lemma NothingBetween(future: seq<FutureSnapshot>, rawInputSuffix: string, first: string, hint: string,
                       group: Option<nat>, kept: seq<FutureSnapshot>)
    requires LongestFit(kept, future, first) && kept != [] && !AbsorbsRemainder(kept, group) && hint != ""
    requires var top := kept[|kept| - 1];
             hint == Display(top) || (hint == top.rawHiragana && !EndsWith(hint, Display(top)))
    ensures SplitKept(future, rawInputSuffix, first, hint, group) == kept
  {
    TrimKeepsLongest(future, first);
    LongestFitUnique(kept, TrimStale(future, first), future, first);
    var top := kept[|kept| - 1];
    assert "" + top.rawHiragana == top.rawHiragana;
    if hint == Display(top) {
      assert hint == "" + Display(top);
      HeadRestored("", top);
    }
  }

  /** With a real clause cached next, the text between the new boundary and that clause becomes a clause of its
      own in front of it, typed and read as what lies between, and the whole cache stays below. */
  lemma SplitsInFront(future: seq<FutureSnapshot>, rawInput: string, rawHiragana: string, count: int, hint: string,
                      allow: bool, group: Option<nat>, head: string)
    requires future != [] && NotTyped(future, RawInputSuffix(rawInput, count)) && head != ""
    requires var top := future[|future| - 1];
             !top.conservative && !top.mark.remainder && EndsWith(rawHiragana, head + top.rawHiragana)
             && Hints(hint, head + top.rawHiragana, future)
    ensures var after := SplitFuture(future, rawInput, rawHiragana, count, hint, allow, group);
            var top := future[|future| - 1];
            && |after| == |future| + 1 && after[..|future|] == future
            && var p := after[|future|];
               && p.clausePreview == head && p.suffix == Display(top) && p.rawHiragana == head + top.rawHiragana
               && p.rawInput == RawInputSuffix(rawInput, count) && p.conservative
               && (EndsWith(p.rawInput, top.rawInput) ==> p.count == |p.rawInput| - |top.rawInput|)
  {
    var top := future[|future| - 1];
    var reading := head + top.rawHiragana;
    assert EndsWith(reading, top.rawHiragana);
    WholeKept(future, rawInput, rawHiragana, count, hint, allow, group, reading);
    assert StripSuffix(reading, top.rawHiragana) == Some(head);
  }

  /* ----- a remainder that is not understood ----- */

  /** What was typed counts first: a cached clause typed with exactly the remaining input gives the reading. */
  lemma {:induction false} TypedFirst(future: seq<FutureSnapshot>, rawInput: string, k: nat)
    requires k < |future| && rawInput != "" && future[k].rawInput == rawInput
    requires forall j :: k < j < |future| ==> future[j].rawInput != rawInput
    ensures CachedByInput(future, rawInput) == Some(future[k])
  {
    if k < |future| - 1 {
      TypedFirst(future[..|future| - 1], rawInput, k);
    }
  }

  lemma TypedUnderstood(future: seq<FutureSnapshot>, rawInputSuffix: string, rawHiragana: string, count: int,
                        hint: string, allow: bool, k: nat)
    requires k < |future| && rawInputSuffix != "" && future[k].rawInput == rawInputSuffix
    requires forall j :: k < j < |future| ==> future[j].rawInput != rawInputSuffix
    ensures SplitReading(future, rawInputSuffix, rawHiragana, count, hint, allow) == future[k].rawHiragana
  {
    TypedFirst(future, rawInputSuffix, k);
  }

  /** A remainder that says nothing leaves the count to decide: the reading behind that many characters. */
  lemma CountDecides(future: seq<FutureSnapshot>, rawInputSuffix: string, rawHiragana: string, count: int, hint: string)
    requires future != [] && NotTyped(future, rawInputSuffix)
    requires var top := future[|future| - 1];
             !EndsWith(hint, Display(top)) && !EndsWith(hint, top.rawHiragana) && !EndsWith(rawHiragana, hint)
    ensures SplitReading(future, rawInputSuffix, rawHiragana, count, hint, false) == Skip(rawHiragana, count)
  {
    NoneTyped(future, rawInputSuffix);
  }

  /** With nothing cached a clause is made of the remainder only where the edit allows it. */
  lemma BootstrapOnly(rawInput: string, rawHiragana: string, count: int, hint: string, allow: bool, group: Option<nat>)
    ensures var after := SplitFuture([], rawInput, rawHiragana, count, hint, allow, group);
            if allow && hint != "" && EndsWith(rawHiragana, hint)
            then |after| == 1 && after[0].clausePreview == hint && after[0].rawHiragana == hint && after[0].suffix == ""
                 && (RawInputSuffix(rawInput, count) != "" ==> after[0].rawInput == RawInputSuffix(rawInput, count))
            else after == []
  {
  }
}
