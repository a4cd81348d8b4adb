/** What the compiled romaji table says, in terms of the user's rows and not of the compiler's rules. */
module RomajiMeaning {
  import opened Text
  import opened RomajiRows
  import opened RomajiTable
  import opened RomajiTableProofs

  /* ----- rows ----- */

  function In(row: RomajiRow): string { NormalizeCell(row.input) }

  function Out(row: RomajiRow): string { NormalizeCell(row.output) }

  function Next(row: RomajiRow): string { NormalizeCell(row.nextInput.GetOr("")) }

  predicate Usable(row: RomajiRow) {
    In(row) != "" && Out(row) != ""
  }

  /** The places of the rows that count. */
  function UsablePlaces(rows: seq<RomajiRow>): seq<nat> {
    if rows == [] then []
    else if Usable(rows[|rows| - 1]) then UsablePlaces(rows[..|rows| - 1]) + [|rows| - 1]
    else UsablePlaces(rows[..|rows| - 1])
  }

  /** The rule says what the row says, cell by cell. */
  ghost predicate IsRuleOf(r: Rule, row: RomajiRow) {
    Usable(row) && r.input == In(row) && r.output == Out(row) && r.next == Next(row)
  }

  lemma RowNormalized(row: RomajiRow)
    ensures NormalizeRow(row).Some? <==> Usable(row)
    ensures NormalizeRow(row).Some? ==> IsRuleOf(NormalizeRow(row).value, row)
  {
  }

  ghost predicate AscendWithin(at: seq<nat>, n: nat) {
    (forall i :: 0 <= i < |at| ==> at[i] < n) && forall i, j :: 0 <= i < j < |at| ==> at[i] < at[j]
  }

  lemma {:induction false} PlacesAscend(rows: seq<RomajiRow>)
    ensures AscendWithin(UsablePlaces(rows), |rows|)
  {
    if rows != [] {
      var n := |rows| - 1;
      var short := rows[..n];
      PlacesAscend(short);
      assert |short| == n;
      AscendMore(UsablePlaces(short), n);
    }
  }

  lemma AscendMore(at: seq<nat>, n: nat)
    requires AscendWithin(at, n)
    ensures AscendWithin(at, n + 1) && AscendWithin(at + [n], n + 1)
  {
  }

  lemma {:induction false} PlaceFound(rows: seq<RomajiRow>, k: nat)
    requires k < |rows| && Usable(rows[k])
    ensures k in UsablePlaces(rows)
    decreases |rows|
  {
    var n := |rows| - 1;
    if k < n {
      assert rows[..n][k] == rows[k];
      PlaceFound(rows[..n], k);
    } else {
      assert UsablePlaces(rows)[|UsablePlaces(rows[..n])|] == n;
    }
  }

  lemma {:induction false} RulesAtPlaces(rows: seq<RomajiRow>)
    ensures var at, rules := UsablePlaces(rows), Normalized(rows);
            |rules| == |at| && forall i :: 0 <= i < |at| ==> at[i] < |rows| && IsRuleOf(rules[i], rows[at[i]])
  {
    if rows != [] {
      var n := |rows| - 1;
      RulesAtPlaces(rows[..n]);
      RowNormalized(rows[n]);
      assert forall k :: 0 <= k < n ==> rows[..n][k] == rows[k];
    }
  }

  /** The rules are the usable rows, in order and once each, cell by cell. */
  lemma NormalizedRows(rows: seq<RomajiRow>)
    ensures var at, rules := UsablePlaces(rows), Normalized(rows);
            && |rules| == |at|
            && (forall i :: 0 <= i < |at| ==> at[i] < |rows| && IsRuleOf(rules[i], rows[at[i]]))
            && AscendWithin(at, |rows|)
            && (forall k :: 0 <= k < |rows| && Usable(rows[k]) ==> k in at)
  {
    PlacesAscend(rows);
    RulesAtPlaces(rows);
    forall k | 0 <= k < |rows| && Usable(rows[k]) ensures k in UsablePlaces(rows) {
      PlaceFound(rows, k);
    }
  }

  lemma RuleRow(rows: seq<RomajiRow>, r: Rule) returns (k: nat)
    requires r in Normalized(rows)
    ensures k < |rows| && Usable(rows[k])
    ensures r.input == In(rows[k]) && r.output == Out(rows[k]) && r.next == Next(rows[k])
  {
    NormalizedRows(rows);
    var i :| 0 <= i < |Normalized(rows)| && Normalized(rows)[i] == r;
    k := UsablePlaces(rows)[i];
  }

  lemma RowRule(rows: seq<RomajiRow>, k: nat) returns (r: Rule)
    requires k < |rows| && Usable(rows[k])
    ensures r in Normalized(rows) && r.input == In(rows[k]) && r.output == Out(rows[k]) && r.next == Next(rows[k])
  {
    NormalizedRows(rows);
    var i :| 0 <= i < |UsablePlaces(rows)| && UsablePlaces(rows)[i] == k;
    r := Normalized(rows)[i];
  }

  /* ----- held back ----- */

  predicate IsRow(rows: seq<RomajiRow>, i: int) {
    0 <= i < |rows| && Usable(rows[i])
  }

  /** A row with this input leaves nothing waiting, and some row's input goes on from it. */
  ghost predicate Held(rows: seq<RomajiRow>, input: string) {
    && (exists i :: IsRow(rows, i) && In(rows[i]) == input && Next(rows[i]) == "")
    && (exists j :: IsRow(rows, j) && input < In(rows[j]))
  }

  lemma HeldRows(rows: seq<RomajiRow>, input: string)
    ensures IsDelayed(Normalized(rows), input) <==> Held(rows, input)
  {
    var rules := Normalized(rows);
    if IsDelayed(rules, input) {
      var i :| 0 <= i < |rules| && rules[i].input == input && rules[i].next == "";
      var j :| 0 <= j < |rules| && |rules[j].input| > |input| && input <= rules[j].input;
      var k := RuleRow(rows, rules[i]);
      var l := RuleRow(rows, rules[j]);
      assert IsRow(rows, k) && IsRow(rows, l);
    }
    if Held(rows, input) {
      var i :| IsRow(rows, i) && In(rows[i]) == input && Next(rows[i]) == "";
      var j :| IsRow(rows, j) && input < In(rows[j]);
      var r := RowRule(rows, i);
      var l := RowRule(rows, j);
    }
  }

  lemma InputRows(rows: seq<RomajiRow>, text: string)
    ensures IsInput(Normalized(rows), text) <==> exists i :: IsRow(rows, i) && In(rows[i]) == text
  {
    var rules := Normalized(rows);
    if IsInput(rules, text) {
      var i :| 0 <= i < |rules| && rules[i].input == text;
      var k := RuleRow(rows, rules[i]);
      assert IsRow(rows, k);
    }
    if i :| IsRow(rows, i) && In(rows[i]) == text {
      var r := RowRule(rows, i);
    }
  }

  /* ----- what an entry may say ----- */

  /** A row that is not held back. */
  ghost predicate Own(rows: seq<RomajiRow>, key: string, value: string) {
    exists i :: IsRow(rows, i) && !Held(rows,
                                        In(rows[i])) && key == In(rows[i]) && value == Out(rows[i]) + Next(rows[i])
  }

  /** What row `i` displays, read on as if it were still its input, is row `j`. */
  ghost predicate RereadAs(rows: seq<RomajiRow>, i: int, j: int, key: string, value: string) {
    && IsRow(rows, i) && IsRow(rows, j) && Next(rows[i]) != "" && In(rows[i]) < In(rows[j])
    && key == Out(rows[i]) + Next(rows[i]) + In(rows[j])[|In(rows[i])|..] && value == Out(rows[j]) + Next(rows[j])
  }

  /** Row `i`, and then row `j` on what row `i` has left waiting. */
  ghost predicate ThenRow(rows: seq<RomajiRow>, i: int, j: int, key: string, value: string) {
    && IsRow(rows, i) && IsRow(rows, j) && Next(rows[i]) != "" && Next(rows[i]) <= In(rows[j])
    && key == In(rows[i]) + In(rows[j])[|Next(rows[i])|..] && value == Out(rows[i]) + Out(rows[j]) + Next(rows[j])
  }

  /** The held-back row `i` committed by the single character of row `j`. */
  ghost predicate CommittedWith(rows: seq<RomajiRow>, i: int, j: int, key: string, value: string) {
    && IsRow(rows, i) && IsRow(rows, j) && Held(rows, In(rows[i])) && |In(rows[j])| == 1
    && key == In(rows[i]) + In(rows[j]) && value == Out(rows[i]) + Out(rows[j]) + Next(rows[j])
  }

  /** On the way from the held-back row `i` to row `j`, with no row of its own, the text stands for itself. */
  ghost predicate Between(rows: seq<RomajiRow>, i: int, j: int, key: string, value: string) {
    && IsRow(rows, i) && IsRow(rows, j) && Held(rows, In(rows[i])) && In(rows[i]) < key < In(rows[j])
    && key == value && forall k :: IsRow(rows, k) ==> In(rows[k]) != key
  }

  ghost predicate Pairs(rows: seq<RomajiRow>, key: string, value: string) {
    exists i, j ::
      || RereadAs(rows, i, j, key, value) || ThenRow(rows, i, j, key, value)
      || CommittedWith(rows, i, j, key, value) || Between(rows, i, j, key, value)
  }

  /** The held-back row `i` committed at the end of the composition, or before any other character. */
  ghost predicate TokenOf(rows: seq<RomajiRow>, i: int, e: Entry) {
    && IsRow(rows, i) && Held(rows, In(rows[i]))
    && (|| e == Entry(Escape(In(rows[i])) + "{composition-separator}", Escape(Out(rows[i])))
        || e == Entry(Escape(In(rows[i])) + "{any character}", Escape(Out(rows[i])) + "{any character}"))
  }

  ghost predicate Plain(rows: seq<RomajiRow>, e: Entry, key: string, value: string) {
    e == Entry(Escape(key), Escape(value)) && (Own(rows, key, value) || Pairs(rows, key, value))
  }

  /** The entry is one of the things the rows say. */
  ghost predicate Said(rows: seq<RomajiRow>, e: Entry) {
    (exists key, value :: Plain(rows, e, key, value)) || (exists i :: TokenOf(rows, i, e))
  }

  /* ----- the rules say the same ----- */

  lemma OneStepIs(rules: seq<Rule>, r: Rule)
    requires r in rules && !IsDelayed(rules, r.input)
    ensures OneStep(rules, r.input, r.output + r.next)
  {
    assert "" + r.output == r.output && "" + r.input == r.input;
  }

  lemma OneStepOf(rules: seq<Rule>, key: string, value: string) returns (r: Rule)
    requires OneStep(rules, key, value)
    ensures r in rules && !IsDelayed(rules, r.input) && key == r.input && value == r.output + r.next
  {
    r :| r in rules && !IsDelayed(rules, r.input) && key == r.input
      && value == Display(Fire(Type(BLANK, r.input), r));
    assert "" + r.output == r.output;
  }

  lemma OwnRules(rows: seq<RomajiRow>, key: string, value: string)
    ensures OneStep(Normalized(rows), key, value) <==> Own(rows, key, value)
  {
    var rules := Normalized(rows);
    if OneStep(rules, key, value) {
      var r := OneStepOf(rules, key, value);
      var i := RuleRow(rows, r);
      HeldRows(rows, r.input);
      assert IsRow(rows, i);
    }
    if Own(rows, key, value) {
      var i :| IsRow(rows, i) && !Held(rows,
                                       In(rows[i])) && key == In(rows[i]) && value == Out(rows[i]) + Next(rows[i]);
      var r := RowRule(rows, i);
      HeldRows(rows, r.input);
      OneStepIs(rules, r);
    }
  }

  lemma RereadRules(rows: seq<RomajiRow>, base: Rule, key: string, value: string) returns (i: int, j: int)
    requires base in Normalized(rows) && base.next != "" && RereadingFrom(Normalized(rows), base, key, value)
    ensures RereadAs(rows, i, j, key, value)
  {
    var longer, suffix :| longer in Normalized(rows) && suffix != "" && longer.input == base.input + suffix
      && key == Display(Fire(Type(BLANK, base.input), base)) + suffix
      && value == Display(Fire(Type(BLANK, longer.input), longer));
    i := RuleRow(rows, base);
    j := RuleRow(rows, longer);
    assert "" + base.output == base.output && "" + longer.output == longer.output;
  }

  lemma RereadIs(rules: seq<Rule>, base: Rule, longer: Rule)
    requires base in rules && longer in rules && base.next != "" && base.input < longer.input
    ensures RunOn(rules, base.output + base.next + longer.input[|base.input|..], longer.output + longer.next)
  {
    var suffix := longer.input[|base.input|..];
    RereadSuffix(base, longer, suffix);
    assert longer.input == base.input + suffix;
    assert RereadingFrom(rules, base, base.output + base.next + suffix, longer.output + longer.next);
  }

  lemma RereadRows(rows: seq<RomajiRow>, i: int, j: int, key: string, value: string)
    requires RereadAs(rows, i, j, key, value)
    ensures RunOn(Normalized(rows), key, value)
  {
    var base := RowRule(rows, i);
    var longer := RowRule(rows, j);
    RereadIs(Normalized(rows), base, longer);
  }

  lemma ThenRules(rows: seq<RomajiRow>, base: Rule, key: string, value: string) returns (i: int, j: int)
    requires base in Normalized(rows) && base.next != "" && TwoStepsFrom(Normalized(rows), base, key, value)
    ensures ThenRow(rows, i, j, key, value)
  {
    var follow, suffix :| follow in Normalized(rows) && follow.input == base.next + suffix && key == base.input + suffix
      && value == Display(Fire(Type(Fire(Type(BLANK, base.input), base), suffix), follow));
    i := RuleRow(rows, base);
    j := RuleRow(rows, follow);
    assert "" + base.output == base.output;
  }

  lemma ThenIs(rules: seq<Rule>, base: Rule, follow: Rule)
    requires base in rules && follow in rules && base.next != "" && base.next <= follow.input
    ensures RunOn(rules, base.input + follow.input[|base.next|..], base.output + follow.output + follow.next)
  {
    var suffix := follow.input[|base.next|..];
    assert "" + base.input == base.input && "" + base.output == base.output;
    assert follow.input == base.next + suffix;
    assert TwoStepsFrom(rules, base, base.input + suffix, base.output + follow.output + follow.next);
  }

  lemma ThenRows(rows: seq<RomajiRow>, i: int, j: int, key: string, value: string)
    requires ThenRow(rows, i, j, key, value)
    ensures RunOn(Normalized(rows), key, value)
  {
    var base := RowRule(rows, i);
    var follow := RowRule(rows, j);
    ThenIs(Normalized(rows), base, follow);
  }

  lemma RunOnRules(rows: seq<RomajiRow>, key: string, value: string)
    ensures RunOn(Normalized(rows), key, value)
        <==> exists i, j :: RereadAs(rows, i, j, key, value) || ThenRow(rows, i, j, key, value)
  {
    var rules := Normalized(rows);
    if RunOn(rules, key, value) {
      var base :| base in rules && base.next != "" && RunOnFrom(rules, base, key, value);
      if RereadingFrom(rules, base, key, value) {
        var i, j := RereadRules(rows, base, key, value);
      } else {
        var i, j := ThenRules(rows, base, key, value);
      }
    }
    if i, j :| RereadAs(rows, i, j, key, value) || ThenRow(rows, i, j, key, value) {
      if RereadAs(rows, i, j, key, value) {
        RereadRows(rows, i, j, key, value);
      } else {
        ThenRows(rows, i, j, key, value);
      }
    }
  }

  lemma CommittedOf(rules: seq<Rule>, base: Rule, key: string, value: string) returns (follow: Rule)
    requires CommittedBy(rules, base, key, value)
    ensures follow in rules && |follow.input| == 1 && key == base.input + follow.input
    ensures value == base.output + follow.output + follow.next
  {
    follow :| follow in rules && |follow.input| == 1 && key == base.input + follow.input
      && value == base.output + Display(Fire(Type(BLANK, follow.input), follow));
    SingleMeaning(base, follow);
  }

  lemma HeldRules(rows: seq<RomajiRow>, base: Rule, key: string, value: string) returns (i: int, j: int)
    requires base in Normalized(rows) && IsDelayed(Normalized(rows), base.input)
    requires CommittedBy(Normalized(rows), base, key, value) || OnTheWay(Normalized(rows), base, key, value)
    ensures CommittedWith(rows, i, j, key, value) || Between(rows, i, j, key, value)
  {
    var rules := Normalized(rows);
    i := RuleRow(rows, base);
    HeldRows(rows, base.input);
    if CommittedBy(rules, base, key, value) {
      var follow := CommittedOf(rules, base, key, value);
      j := RuleRow(rows, follow);
    } else {
      InputRows(rows, key);
      var longer :| longer in rules && base.input < key < longer.input;
      j := RuleRow(rows, longer);
    }
  }

  lemma CommittedIs(rules: seq<Rule>, base: Rule, follow: Rule)
    requires follow in rules && |follow.input| == 1
    ensures CommittedBy(rules, base, base.input + follow.input, base.output + follow.output + follow.next)
  {
    SingleMeaning(base, follow);
  }

  lemma CommittedRows(rows: seq<RomajiRow>, i: int, j: int, key: string, value: string) returns (base: Rule)
    requires CommittedWith(rows, i, j, key, value)
    ensures base in Normalized(rows) && IsDelayed(Normalized(rows), base.input)
    ensures CommittedBy(Normalized(rows), base, key, value)
  {
    base := RowRule(rows, i);
    var follow := RowRule(rows, j);
    HeldRows(rows, base.input);
    CommittedIs(Normalized(rows), base, follow);
  }

  lemma BetweenRows(rows: seq<RomajiRow>, i: int, j: int, key: string, value: string) returns (base: Rule)
    requires Between(rows, i, j, key, value)
    ensures base in Normalized(rows) && IsDelayed(Normalized(rows), base.input)
    ensures OnTheWay(Normalized(rows), base, key, value)
  {
    base := RowRule(rows, i);
    var longer := RowRule(rows, j);
    HeldRows(rows, base.input);
    InputRows(rows, key);
  }

  lemma TokenRules(rows: seq<RomajiRow>, base: Rule, r: Request) returns (i: int)
    requires base in Normalized(rows) && IsDelayed(Normalized(rows), base.input) && Token(base, r)
    ensures TokenOf(rows, i, Entry(Key(r), Value(r)))
  {
    i := RuleRow(rows, base);
    HeldRows(rows, base.input);
  }

  /** A justified request becomes an entry the rows say. */
  lemma JustifiedSaid(rows: seq<RomajiRow>, r: Request)
    requires Justified(Normalized(rows), r)
    ensures Said(rows, Entry(Key(r), Value(r)))
  {
    var rules, e := Normalized(rows), Entry(Key(r), Value(r));
    OwnRules(rows, r.rawKey, r.rawValue);
    RunOnRules(rows, r.rawKey, r.rawValue);
    if HeldBack(rules, r) {
      var base :| base in rules && IsDelayed(rules, base.input) && HeldBackFrom(rules, base, r);
      if Token(base, r) {
        var i := TokenRules(rows, base, r);
      } else {
        var i, j := HeldRules(rows, base, r.rawKey, r.rawValue);
        assert Plain(rows, e, r.rawKey, r.rawValue);
      }
    } else {
      assert Plain(rows, e, r.rawKey, r.rawValue);
    }
  }

  lemma PairsJustified(rows: seq<RomajiRow>, key: string, value: string)
    requires Pairs(rows, key, value)
    ensures Justified(Normalized(rows), Request(key, value, false, false))
  {
    var rules, r := Normalized(rows), Request(key, value, false, false);
    RunOnRules(rows, key, value);
    var i, j :| RereadAs(rows, i, j, key, value) || ThenRow(rows, i, j, key, value)
      || CommittedWith(rows, i, j, key, value) || Between(rows, i, j, key, value);
    if CommittedWith(rows, i, j, key, value) {
      var base := CommittedRows(rows, i, j, key, value);
      assert HeldBackFrom(rules, base, r);
    } else if Between(rows, i, j, key, value) {
      var base := BetweenRows(rows, i, j, key, value);
      assert HeldBackFrom(rules, base, r);
    }
  }

  lemma TokenJustified(rows: seq<RomajiRow>, i: int, e: Entry) returns (r: Request)
    requires TokenOf(rows, i, e)
    ensures Justified(Normalized(rows), r) && e == Entry(Key(r), Value(r))
  {
    var base := RowRule(rows, i);
    HeldRows(rows, base.input);
    r := if e.key == Escape(base.input) + "{composition-separator}" && e.value == Escape(base.output)
         then SeparatorRequest(base) else AnyCharacterRequest(base);
    assert HeldBackFrom(Normalized(rows), base, r);
  }

  lemma SaidJustified(rows: seq<RomajiRow>, e: Entry) returns (r: Request)
    requires Said(rows, e)
    ensures Justified(Normalized(rows), r) && e == Entry(Key(r), Value(r))
  {
    if key, value :| Plain(rows, e, key, value) {
      OwnRules(rows, key, value);
      if Own(rows, key, value) {
        r := Request(key, value, true, false);
      } else {
        PairsJustified(rows, key, value);
        r := Request(key, value, false, false);
      }
    } else {
      var i :| TokenOf(rows, i, e);
      r := TokenJustified(rows, i, e);
    }
  }

  /* ----- the compiled table ----- */

  /** Every compiled entry is something the rows say. */
  lemma CompiledRowsSound(rows: seq<RomajiRow>, e: Entry)
    ensures e in Compiled(Normalized(rows)).entries ==> Said(rows, e)
  {
    NormalizedGood(rows);
    CompiledSound(Normalized(rows), e);
    if e in Compiled(Normalized(rows)).entries {
      var r :| Justified(Normalized(rows), r) && e == Entry(Key(r), Value(r));
      JustifiedSaid(rows, r);
    }
  }

  /** The compiled keys are exactly those of what the rows say. */
  lemma CompiledRowsKeys(rows: seq<RomajiRow>, key: string)
    ensures key in Compiled(Normalized(rows)).indexByKey <==> exists e :: Said(rows, e) && e.key == key
  {
    NormalizedGood(rows);
    CompiledKeys(Normalized(rows), key);
    if r :| Justified(Normalized(rows), r) && Key(r) == key {
      JustifiedSaid(rows, r);
      assert Entry(Key(r), Value(r)).key == key;
    }
    if e :| Said(rows, e) && e.key == key {
      var r := SaidJustified(rows, e);
    }
  }

  /** A row that is not held back and is the last with its input keeps its meaning: its entry is its output and
      next input, whatever else is compiled. */
  lemma PlainRowKept(rows: seq<RomajiRow>, k: nat)
    requires IsRow(rows, k) && !Held(rows, In(rows[k]))
    requires forall j :: k < j && IsRow(rows, j) ==> In(rows[j]) != In(rows[k])
    ensures RomajiTable.Lookup(Compiled(Normalized(rows)), Escape(In(rows[k])))
         == Some(Escape(Out(rows[k]) + Next(rows[k])))
  {
    NormalizedGood(rows);
    HeldRows(rows, In(rows[k]));
    var i := LastRowRule(rows, k);
    PlainRuleKept(Normalized(rows), In(rows[k]));
  }

  lemma {:induction false} LastRuleIs(rules: seq<Rule>, input: string, i: nat, k: nat)
    requires i < k <= |rules| && rules[i].input == input
    requires forall j :: i < j < k ==> rules[j].input != input
    ensures LastRule(rules, input, k) == Some(rules[i])
    decreases k
  {
    if i < k - 1 {
      LastRuleIs(rules, input, i, k - 1);
    }
  }

  lemma LastRowRule(rows: seq<RomajiRow>, k: nat) returns (i: nat)
    requires IsRow(rows, k) && forall j :: k < j && IsRow(rows, j) ==> In(rows[j]) != In(rows[k])
    ensures var rules := Normalized(rows);
            && i < |rules| && rules[i].output == Out(rows[k]) && rules[i].next == Next(rows[k])
            && LastRule(rules, In(rows[k]), |rules|) == Some(rules[i])
  {
    NormalizedRows(rows);
    var at, rules := UsablePlaces(rows), Normalized(rows);
    i :| 0 <= i < |at| && at[i] == k;
    forall j | i < j < |rules| ensures rules[j].input != In(rows[k]) {
      assert IsRow(rows, at[j]);
    }
    LastRuleIs(rules, In(rows[k]), i, |rules|);
  }

  /* ----- cells ----- */

  lemma {:induction false} BreaksKept(s: string)
    requires forall i :: 0 <= i < |s| ==> !IsLineBreak(s[i])
    ensures WithoutBreaks(s) == s
  {
    if s != "" {
      BreaksKept(s[1..]);
      assert s == [s[0]] + s[1..];
    }
  }

  lemma {:induction false} WithoutBreaksParts(s: string, t: string)
    ensures WithoutBreaks(s + t) == WithoutBreaks(s) + WithoutBreaks(t)
  {
    if s == "" {
      assert s + t == t;
    } else {
      assert (s + t)[1..] == s[1..] + t;
      WithoutBreaksParts(s[1..], t);
    }
  }

  predicate Blank(s: string) {
    forall i :: 0 <= i < |s| ==> IsWhitespace(s[i])
  }

  lemma {:induction false} BlankStart(a: string, s: string)
    requires Blank(a) && (s != "" ==> !IsWhitespace(s[0]))
    ensures TrimStart(a + s) == s
  {
    if a == "" {
      assert a + s == s;
    } else {
      assert (a + s)[1..] == a[1..] + s;
      BlankStart(a[1..], s);
    }
  }

  lemma {:induction false} BlankEnd(s: string, b: string)
    requires Blank(b) && (s != "" ==> !IsWhitespace(s[|s| - 1]))
    ensures TrimEnd(s + b) == s
  {
    if b == "" {
      assert s + b == s;
    } else {
      assert (s + b)[..|s + b| - 1] == s + b[..|b| - 1];
      BlankEnd(s, b[..|b| - 1]);
    }
  }

  lemma {:induction false} BlankWithoutBreaks(a: string)
    requires Blank(a)
    ensures Blank(WithoutBreaks(a))
  {
    if a != "" {
      BlankWithoutBreaks(a[1..]);
    }
  }

  lemma BlankCell(a: string)
    requires Blank(a)
    ensures NormalizeCell(a) == ""
  {
    BlankWithoutBreaks(a);
    BlankStart(WithoutBreaks(a), "");
    assert WithoutBreaks(a) + "" == WithoutBreaks(a);
  }

  lemma TrimmedBetween(x: string, core: string, y: string)
    requires Blank(x) && Blank(y) && core != "" && !IsWhitespace(core[0]) && !IsWhitespace(core[|core| - 1])
    ensures Trim(x + core + y) == core
  {
    assert x + core + y == x + (core + y);
    assert (core + y)[0] == core[0];
    BlankStart(x, core + y);
    BlankEnd(core, y);
  }

  /** Of a cell the blanks at both ends are dropped, */
  lemma CellTrimmed(a: string, core: string, b: string)
    requires Blank(a) && Blank(b) && core != "" && !IsWhitespace(core[0]) && !IsWhitespace(core[|core| - 1])
    requires forall i :: 0 <= i < |core| ==> !IsLineBreak(core[i])
    ensures NormalizeCell(a + core + b) == core
  {
    WithoutBreaksParts(a + core, b);
    WithoutBreaksParts(a, core);
    BreaksKept(core);
    BlankWithoutBreaks(a);
    BlankWithoutBreaks(b);
    TrimmedBetween(WithoutBreaks(a), core, WithoutBreaks(b));
  }

  lemma OneDropped(c: char)
    requires c == '\t' || c == '\n' || c == '\r'
    ensures WithoutBreaks([c]) == ""
  {
    assert [c][1..] == "";
  }

  /** and every tab and line break, wherever it stands. */
  lemma BreakDropped(s: string, c: char, t: string)
    requires c == '\t' || c == '\n' || c == '\r'
    ensures NormalizeCell(s + [c] + t) == NormalizeCell(s + t)
  {
    WithoutBreaksParts(s + [c], t);
    WithoutBreaksParts(s, [c]);
    WithoutBreaksParts(s, t);
    OneDropped(c);
    assert WithoutBreaks(s) + "" == WithoutBreaks(s);
  }
}
