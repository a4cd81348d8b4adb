/** Every entry of the compiled table is justified by the rules, every justified key is there,
    plain rules keep their meaning, and the printed text reads back as the entry list. */
module RomajiTableProofs {
  import opened Text
  import opened RomajiRows
  import opened RomajiTable

  /* ----- why an entry may exist ----- */

  /** Typing against the rules: what is already committed, and what still waits for a rule. */
  datatype Line = Line(shown: string, waiting: string)

  function Type(l: Line, keys: string): Line {
    l.(waiting := l.waiting + keys)
  }

  /** A rule fires on exactly what is waiting: its output is committed and its next input waits. */
  function Fire(l: Line, rule: Rule): Line
    requires l.waiting == rule.input
  {
    Line(l.shown + rule.output, rule.next)
  }

  function Display(l: Line): string {
    l.shown + l.waiting
  }

  const BLANK := Line("", "")

  /** Typing the whole input of one rule that is not waiting for a longer one. */
  ghost predicate OneStep(rules: seq<Rule>, key: string, value: string) {
    exists r :: r in rules && !IsDelayed(rules, r.input)
      && key == r.input && value == Display(Fire(Type(BLANK, r.input), r))
  }

  /** Typing the input of `base` and then what completes its waiting next input to another rule. */
  ghost predicate TwoStepsFrom(rules: seq<Rule>, base: Rule, key: string, value: string) {
    exists follow, suffix :: follow in rules && follow.input == base.next + suffix
      && key == base.input + suffix
      && value == Display(Fire(Type(Fire(Type(BLANK, base.input), base), suffix), follow))
  }

  /** What `base` displays, typed on as if it were still its input, is the longer rule. */
  ghost predicate RereadingFrom(rules: seq<Rule>, base: Rule, key: string, value: string) {
    exists longer, suffix :: longer in rules && suffix != "" && longer.input == base.input + suffix
      && key == Display(Fire(Type(BLANK, base.input), base)) + suffix
      && value == Display(Fire(Type(BLANK, longer.input), longer))
  }

  /** Either of the two, for a rule that leaves something waiting. */
  ghost predicate RunOnFrom(rules: seq<Rule>, base: Rule, key: string, value: string) {
    RereadingFrom(rules, base, key, value) || TwoStepsFrom(rules, base, key, value)
  }

  ghost predicate RunOn(rules: seq<Rule>, key: string, value: string) {
    exists base :: base in rules && base.next != "" && RunOnFrom(rules, base, key, value)
  }

  /** A held-back rule commits when a single-character rule follows. */
  ghost predicate CommittedBy(rules: seq<Rule>, base: Rule, key: string, value: string) {
    exists follow :: follow in rules && |follow.input| == 1
      && key == base.input + follow.input
      && value == base.output + Display(Fire(Type(BLANK, follow.input), follow))
  }

  /** On the way from a held-back input to a longer one the text stands for itself. */
  ghost predicate OnTheWay(rules: seq<Rule>, base: Rule, key: string, value: string) {
    key == value && !IsInput(rules, key) && exists longer :: longer in rules && base.input < key < longer.input
  }

  /** A held-back rule commits at the end of the composition or before any other character. */
  ghost predicate Token(base: Rule, r: Request) {
    r == SeparatorRequest(base) || r == AnyCharacterRequest(base)
  }

  ghost predicate HeldBackFrom(rules: seq<Rule>, base: Rule, r: Request) {
    || Token(base, r)
    || (Generated(r) && (CommittedBy(rules, base, r.rawKey, r.rawValue) || OnTheWay(rules, base, r.rawKey, r.rawValue)))
  }

  ghost predicate HeldBack(rules: seq<Rule>, r: Request) {
    exists base :: base in rules && IsDelayed(rules, base.input) && HeldBackFrom(rules, base, r)
  }

  ghost predicate Generated(r: Request) {
    !r.literal && !r.explicit
  }

  /** The reasons an entry may have. */
  ghost predicate Justified(rules: seq<Rule>, r: Request) {
    || (!r.literal && r.explicit && OneStep(rules, r.rawKey, r.rawValue))
    || (Generated(r) && RunOn(rules, r.rawKey, r.rawValue))
    || HeldBack(rules, r)
  }

  /* ----- the nested loops produce exactly the justified requests ----- */

  lemma {:induction false} FlattenMembers(parts: seq<seq<Request>>, r: Request)
    ensures r in Flatten(parts) <==> exists i :: 0 <= i < |parts| && r in parts[i]
  {
    if parts != [] {
      var n := |parts| - 1;
      FlattenMembers(parts[..n], r);
      assert forall i :: 0 <= i < n ==> parts[..n][i] == parts[i];
    }
  }

  lemma RereadSuffix(base: Rule, longer: Rule, suffix: string)
    requires longer.input == base.input + suffix && Longer(longer, base)
    ensures RereadRequest(base, longer).rawKey == Display(Fire(Type(BLANK, base.input), base)) + suffix
    ensures RereadRequest(base, longer).rawValue == Display(Fire(Type(BLANK, longer.input), longer))
  {
  }

  lemma RereadMembers(rules: seq<Rule>, base: Rule, r: Request)
    ensures r in Flatten(LongerParts(rules, base)) <==> Generated(r) && RereadingFrom(rules, base, r.rawKey, r.rawValue)
  {
    var parts := LongerParts(rules, base);
    FlattenMembers(parts, r);
    if r in Flatten(parts) {
      var j :| 0 <= j < |parts| && r in parts[j];
      RereadSuffix(base, rules[j], rules[j].input[|base.input|..]);
      assert rules[j] in rules;
    }
    if Generated(r) && RereadingFrom(rules, base, r.rawKey, r.rawValue) {
      var longer, suffix :| longer in rules && suffix != "" && longer.input == base.input + suffix
        && r.rawKey == Display(Fire(Type(BLANK, base.input), base)) + suffix
        && r.rawValue == Display(Fire(Type(BLANK, longer.input), longer));
      var j :| 0 <= j < |rules| && rules[j] == longer;
      RereadSuffix(base, longer, suffix);
      assert r == RereadRequest(base, longer);
      assert r in parts[j];
    }
  }

  lemma TwoStepMembers(rules: seq<Rule>, base: Rule, r: Request)
    ensures r in Flatten(FollowParts(rules, base)) <==> Generated(r) && TwoStepsFrom(rules, base, r.rawKey, r.rawValue)
  {
    var parts := FollowParts(rules, base);
    FlattenMembers(parts, r);
    assert "" + base.input == base.input && "" + base.output == base.output;
    if r in Flatten(parts) {
      var j :| 0 <= j < |parts| && r in parts[j];
      var suffix := rules[j].input[|base.next|..];
      assert rules[j].input == base.next + suffix;
      assert rules[j] in rules;
    }
    if Generated(r) && TwoStepsFrom(rules, base, r.rawKey, r.rawValue) {
      var follow, suffix :| follow in rules && follow.input == base.next + suffix && r.rawKey == base.input + suffix
        && r.rawValue == Display(Fire(Type(Fire(Type(BLANK, base.input), base), suffix), follow));
      var j :| 0 <= j < |rules| && rules[j] == follow;
      assert follow.input[|base.next|..] == suffix;
      assert r == TwoStepRequest(base, follow);
      assert r in parts[j];
    }
  }

  lemma SingleMeaning(base: Rule, follow: Rule)
    requires |follow.input| == 1
    ensures SingleRequest(base, follow).rawValue == base.output + Display(Fire(Type(BLANK, follow.input), follow))
  {
    assert "" + follow.output == follow.output && "" + follow.input == follow.input;
    assert base.output + follow.output + follow.next == base.output + (follow.output + follow.next);
  }

  lemma CommitMembers(rules: seq<Rule>, base: Rule, r: Request)
    ensures r in Flatten(SingleParts(rules, base)) <==> Generated(r) && CommittedBy(rules, base, r.rawKey, r.rawValue)
  {
    var parts := SingleParts(rules, base);
    FlattenMembers(parts, r);
    if r in Flatten(parts) {
      var j :| 0 <= j < |parts| && r in parts[j];
      SingleMeaning(base, rules[j]);
      assert rules[j] in rules;
    }
    if Generated(r) && CommittedBy(rules, base, r.rawKey, r.rawValue) {
      var follow :| follow in rules && |follow.input| == 1 && r.rawKey == base.input + follow.input
        && r.rawValue == base.output + Display(Fire(Type(BLANK, follow.input), follow));
      var j :| 0 <= j < |rules| && rules[j] == follow;
      SingleMeaning(base, follow);
      assert r == SingleRequest(base, follow);
      assert r in parts[j];
    }
  }

  lemma {:induction false} IntermediateMembers(rules: seq<Rule>, base: Rule, k: nat, p: string)
    requires k <= |rules|
    ensures p in Intermediates(rules, base, k) <==> exists j :: 0 <= j < k && base.input < p < rules[j].input
  {
    if k > 0 {
      IntermediateMembers(rules, base, k - 1, p);
      if Longer(rules[k - 1], base) {
        assert PrefixWithin(p, rules[k - 1].input, |base.input| + 1, |rules[k - 1].input|)
          <==> base.input < p < rules[k - 1].input;
      }
    }
  }

  lemma IdentityMembers(rules: seq<Rule>, base: Rule, r: Request)
    ensures r in Flatten(IdentityParts(rules, Intermediates(rules, base, |rules|)))
      <==> Generated(r) && OnTheWay(rules, base, r.rawKey, r.rawValue)
  {
    var prefixes := Intermediates(rules, base, |rules|);
    var parts := IdentityParts(rules, prefixes);
    FlattenMembers(parts, r);
    IntermediateMembers(rules, base, |rules|, r.rawKey);
    if r in Flatten(parts) {
      var j :| 0 <= j < |parts| && r in parts[j];
      assert r.rawKey in prefixes;
    }
    if Generated(r) && OnTheWay(rules, base, r.rawKey, r.rawValue) {
      var j :| 0 <= j < |prefixes| && prefixes[j] == r.rawKey;
      assert r == IdentityRequest(prefixes[j]);
      assert r in parts[j];
    }
  }

  /** What the first block of loops asks for. */
  lemma RunJustified(rules: seq<Rule>, r: Request)
    ensures r in Flatten(RunParts(rules)) <==> Generated(r) && RunOn(rules, r.rawKey, r.rawValue)
  {
    var parts := RunParts(rules);
    FlattenMembers(parts, r);
    forall i | 0 <= i < |rules|
      ensures r in parts[i]
          <==> (rules[i].next != "" && Generated(r) && RunOnFrom(rules, rules[i], r.rawKey, r.rawValue))
    {
      RereadMembers(rules, rules[i], r);
      TwoStepMembers(rules, rules[i], r);
    }
  }

  lemma DelayedPartMembers(rules: seq<Rule>, base: Rule, r: Request)
    ensures r in DelayedPart(rules, base) <==> (IsDelayed(rules, base.input) && HeldBackFrom(rules, base, r))
  {
    CommitMembers(rules, base, r);
    IdentityMembers(rules, base, r);
  }

  /** What the loops over held-back inputs ask for. */
  lemma DelayedJustified(rules: seq<Rule>, r: Request)
    ensures r in Flatten(DelayedParts(rules)) <==> HeldBack(rules, r)
  {
    var parts := DelayedParts(rules);
    FlattenMembers(parts, r);
    forall i | 0 <= i < |rules| {
      DelayedPartMembers(rules, rules[i], r);
    }
  }

  lemma ExplicitJustified(rules: seq<Rule>, r: Request)
    ensures r in Flatten(ExplicitParts(rules)) <==> !r.literal && r.explicit && OneStep(rules, r.rawKey, r.rawValue)
  {
    var parts := ExplicitParts(rules);
    FlattenMembers(parts, r);
    if r in Flatten(parts) {
      var i :| 0 <= i < |parts| && r in parts[i];
      assert "" + rules[i].output == rules[i].output;
      assert rules[i] in rules;
    }
    if !r.literal && r.explicit && OneStep(rules, r.rawKey, r.rawValue) {
      var rule :| rule in rules && !IsDelayed(rules, rule.input)
        && r.rawKey == rule.input && r.rawValue == Display(Fire(Type(BLANK, rule.input), rule));
      var i :| 0 <= i < |rules| && rules[i] == rule;
      assert "" + rule.output == rule.output;
      assert r == ExplicitRequest(rules[i]);
      assert r in parts[i];
    }
  }

  /** All loops together ask for exactly what the rules justify. */
  lemma RequestsJustified(rules: seq<Rule>, r: Request)
    ensures r in Requests(rules) <==> Justified(rules, r)
  {
    RunJustified(rules, r);
    DelayedJustified(rules, r);
    ExplicitJustified(rules, r);
  }

  /* ----- requests are effective and clean ----- */

  ghost predicate CleanRequest(r: Request) {
    Effective(r) && Clean(Key(r)) && Clean(Value(r))
  }

  lemma CleanSlices(s: string, n: nat)
    requires Clean(s) && n <= |s|
    ensures Clean(s[..n]) && Clean(s[n..])
  {
  }

  lemma PlainRequestClean(r: Request)
    requires !r.literal && Effective(r) && Clean(r.rawKey) && Clean(r.rawValue)
    ensures CleanRequest(r)
  {
    EscapeClean(r.rawKey);
    EscapeClean(r.rawValue);
  }

  lemma TokenClean(base: Rule, r: Request)
    requires GoodRule(base) && Token(base, r)
    ensures CleanRequest(r)
  {
    EscapeClean(base.input);
    EscapeClean(base.output);
    CleanAppend(Escape(base.input), SEPARATOR);
    CleanAppend(Escape(base.input), ANY_CHARACTER);
    CleanAppend(Escape(base.output), ANY_CHARACTER);
  }

  lemma RereadClean(rules: seq<Rule>, base: Rule, r: Request)
    requires GoodRules(rules) && GoodRule(base) && Generated(r)
    requires RereadingFrom(rules, base, r.rawKey, r.rawValue)
    ensures CleanRequest(r)
  {
    var longer, suffix :| longer in rules && suffix != "" && longer.input == base.input + suffix
      && r.rawKey == Display(Fire(Type(BLANK, base.input), base)) + suffix
      && r.rawValue == Display(Fire(Type(BLANK, longer.input), longer));
    assert suffix == longer.input[|base.input|..];
    CleanSlices(longer.input, |base.input|);
    PlainRequestClean(r);
  }

  lemma TwoStepClean(rules: seq<Rule>, base: Rule, r: Request)
    requires GoodRules(rules) && GoodRule(base) && Generated(r)
    requires TwoStepsFrom(rules, base, r.rawKey, r.rawValue)
    ensures CleanRequest(r)
  {
    var follow, suffix :| follow in rules && follow.input == base.next + suffix && r.rawKey == base.input + suffix
      && r.rawValue == Display(Fire(Type(Fire(Type(BLANK, base.input), base), suffix), follow));
    assert suffix == follow.input[|base.next|..];
    CleanSlices(follow.input, |base.next|);
    PlainRequestClean(r);
  }

  lemma RunOnClean(rules: seq<Rule>, base: Rule, r: Request)
    requires GoodRules(rules) && GoodRule(base) && Generated(r)
    requires RunOnFrom(rules, base, r.rawKey, r.rawValue)
    ensures CleanRequest(r)
  {
    if RereadingFrom(rules, base, r.rawKey, r.rawValue) {
      RereadClean(rules, base, r);
    } else {
      TwoStepClean(rules, base, r);
    }
  }

  lemma HeldBackClean(rules: seq<Rule>, base: Rule, r: Request)
    requires GoodRules(rules) && GoodRule(base) && HeldBackFrom(rules, base, r)
    ensures CleanRequest(r)
  {
    if Token(base, r) {
      TokenClean(base, r);
    } else {
      if OnTheWay(rules, base, r.rawKey, r.rawValue) {
        var longer :| longer in rules && base.input < r.rawKey < longer.input;
        assert r.rawKey == longer.input[..|r.rawKey|];
        CleanSlices(longer.input, |r.rawKey|);
      }
      PlainRequestClean(r);
    }
  }

  lemma JustifiedClean(rules: seq<Rule>, r: Request)
    requires GoodRules(rules) && Justified(rules, r)
    ensures CleanRequest(r)
  {
    if HeldBack(rules, r) {
      var base :| base in rules && IsDelayed(rules, base.input) && HeldBackFrom(rules, base, r);
      HeldBackClean(rules, base, r);
    } else if Generated(r) {
      var base :| base in rules && base.next != "" && RunOnFrom(rules, base, r.rawKey, r.rawValue);
      RunOnClean(rules, base, r);
    } else {
      var rule :| rule in rules && r.rawKey == rule.input && r.rawValue == Display(Fire(Type(BLANK, rule.input), rule));
      PlainRequestClean(r);
    }
  }

  lemma RequestsClean(rules: seq<Rule>)
    requires GoodRules(rules)
    ensures forall r :: r in Requests(rules) ==> CleanRequest(r)
    ensures AllEffective(Requests(rules))
  {
    forall r | r in Requests(rules) ensures CleanRequest(r) {
      RequestsJustified(rules, r);
      JustifiedClean(rules, r);
    }
    var rs := Requests(rules);
    forall i | 0 <= i < |rs| ensures Effective(rs[i]) {
      assert CleanRequest(rs[i]);
    }
  }

  /* ----- the compiled table ----- */

  ghost predicate JustifiedEntry(rules: seq<Rule>, e: Entry) {
    exists r :: Justified(rules, r) && e == Entry(Key(r), Value(r))
  }

  /** Every entry is a justified one. */
  lemma CompiledSound(rules: seq<Rule>, e: Entry)
    requires GoodRules(rules)
    ensures e in Compiled(rules).entries ==> JustifiedEntry(rules, e)
  {
    var t := Compiled(rules);
    if i :| 0 <= i < |t.entries| && t.entries[i] == e {
      RequestsClean(rules);
      UpsertAllWinner(Requests(rules), e.key);
      WinnerIsRequest(Requests(rules), e.key);
      assert t.indexByKey[t.entries[i].key] == i;
      RequestsJustified(rules, Winner(Requests(rules), e.key).value);
    }
  }

  /** The table's keys are exactly the justified keys. */
  lemma CompiledKeys(rules: seq<Rule>, key: string)
    requires GoodRules(rules)
    ensures key in Compiled(rules).indexByKey <==> exists r :: Justified(rules, r) && Key(r) == key
  {
    RequestsClean(rules);
    UpsertAllWinner(Requests(rules), key);
    if key in Compiled(rules).indexByKey {
      CompiledSound(rules, Compiled(rules).entries[Compiled(rules).indexByKey[key]]);
    }
    if r :| Justified(rules, r) && Key(r) == key {
      RequestsJustified(rules, r);
      RequestedHasWinner(Requests(rules), r);
    }
  }

  /** The last rule with a given input. */
  function LastRule(rules: seq<Rule>, input: string, k: nat): Option<Rule>
    requires k <= |rules|
  {
    if k == 0 then None
    else if rules[k - 1].input == input then Some(rules[k - 1])
    else LastRule(rules, input, k - 1)
  }

  lemma WinnerAppended(rs: seq<Request>, r: Request, key: string)
    ensures var before := Winner(rs, key);
            Winner(rs + [r], key)
              == if Key(r) == key && (before.None? || r.explicit || !before.value.explicit) then Some(r) else before
  {
    assert (rs + [r])[..|rs|] == rs;
  }

  lemma FlattenLast(parts: seq<seq<Request>>, k: nat)
    requires 0 < k <= |parts|
    ensures Flatten(parts[..k]) == Flatten(parts[..k - 1]) + parts[k - 1]
  {
    assert parts[..k][..k - 1] == parts[..k - 1];
  }

  lemma {:induction false} ExplicitWinner(rules: seq<Rule>, input: string, k: nat)
    requires k <= |rules| && !IsDelayed(rules, input)
    ensures var w, last := Winner(Flatten(ExplicitParts(rules)[..k]), Escape(input)), LastRule(rules, input, k);
            w == if last.Some? then Some(ExplicitRequest(last.value)) else None
  {
    if k > 0 {
      ExplicitWinner(rules, input, k - 1);
      var before := Flatten(ExplicitParts(rules)[..k - 1]);
      FlattenLast(ExplicitParts(rules), k);
      if IsDelayed(rules, rules[k - 1].input) {
        assert before + [] == before;
      } else {
        WinnerAppended(before, ExplicitRequest(rules[k - 1]), Escape(input));
        if Escape(rules[k - 1].input) == Escape(input) {
          EscapeInjective(rules[k - 1].input, input);
        }
      }
    }
  }

  /** A later explicit request decides, whatever came before. */
  lemma {:induction false} ExplicitDecides(a: seq<Request>, b: seq<Request>, key: string)
    requires forall i :: 0 <= i < |b| ==> b[i].explicit
    ensures Winner(b, key).Some? ==> Winner(a + b, key) == Winner(b, key)
    ensures Winner(b, key).None? ==> Winner(a + b, key) == Winner(a, key)
  {
    if b == [] {
      assert a + b == a;
    } else {
      assert (a + b)[..|a + b| - 1] == a + b[..|b| - 1];
      ExplicitDecides(a, b[..|b| - 1], key);
    }
  }

  lemma ExplicitPartsExplicit(rules: seq<Rule>)
    ensures var rs := Flatten(ExplicitParts(rules)); forall i :: 0 <= i < |rs| ==> rs[i].explicit
  {
    var rs := Flatten(ExplicitParts(rules));
    forall i | 0 <= i < |rs| ensures rs[i].explicit {
      ExplicitJustified(rules, rs[i]);
    }
  }

  lemma PlainRuleLast(rules: seq<Rule>, input: string)
    requires !IsDelayed(rules, input) && LastRule(rules, input, |rules|).Some?
    ensures Winner(Flatten(ExplicitParts(rules)), Escape(input))
         == Some(ExplicitRequest(LastRule(rules, input, |rules|).value))
  {
    ExplicitWinner(rules, input, |rules|);
    assert ExplicitParts(rules)[..|rules|] == ExplicitParts(rules);
  }

  lemma PlainRuleWins(rules: seq<Rule>, input: string)
    requires !IsDelayed(rules, input) && LastRule(rules, input, |rules|).Some?
    ensures Winner(Requests(rules), Escape(input)) == Some(ExplicitRequest(LastRule(rules, input, |rules|).value))
  {
    PlainRuleLast(rules, input);
    ExplicitPartsExplicit(rules);
    ExplicitDecides(Flatten(RunParts(rules)) + Flatten(DelayedParts(rules)), Flatten(ExplicitParts(rules)),
                    Escape(input));
  }

  /** A rule that waits for nothing longer keeps its meaning: its input's entry is the output and next
      input of the last such rule, whatever else was generated for that key. */
  lemma PlainRuleKept(rules: seq<Rule>, input: string)
    requires GoodRules(rules) && !IsDelayed(rules, input) && LastRule(rules, input, |rules|).Some?
    ensures var last := LastRule(rules, input, |rules|).value;
            RomajiTable.Lookup(Compiled(rules), Escape(input)) == Some(Escape(last.output + last.next))
  {
    RequestsClean(rules);
    UpsertAllWinner(Requests(rules), Escape(input));
    PlainRuleWins(rules, input);
  }

  /** A non-empty rule list always compiles to something. */
  lemma CompiledNonEmpty(rules: seq<Rule>)
    requires GoodRules(rules) && rules != []
    ensures Compiled(rules).entries != []
  {
    var rule := rules[0];
    var r := if IsDelayed(rules, rule.input) then SeparatorRequest(rule) else ExplicitRequest(rule);
    assert rule in rules;
    assert "" + rule.output == rule.output && "" + rule.input == rule.input;
    assert Justified(rules, r);
    CompiledKeys(rules, Key(r));
  }

  /* ----- the prefixes an identity entry is made for come sorted and once each ----- */

  ghost predicate Ascending(s: seq<string>) {
    forall i, j :: 0 <= i < j < |s| ==> Before(s[i], s[j])
  }

  lemma {:induction false} LexTotal(a: string, b: string)
    requires |a| == |b|
    ensures LexLess(a, b) || a == b || LexLess(b, a)
  {
    if a != "" && a[0] == b[0] {
      LexTotal(a[1..], b[1..]);
      assert a == [a[0]] + a[1..] && b == [b[0]] + b[1..];
    }
  }

  lemma {:induction false} LexTransitive(a: string, b: string, c: string)
    requires LexLess(a, b) && LexLess(b, c)
    ensures LexLess(a, c)
  {
    if a != "" && a[0] == b[0] && b[0] == c[0] {
      LexTransitive(a[1..], b[1..], c[1..]);
    }
  }

  lemma BeforeTransitive(a: string, b: string, c: string)
    requires Before(a, b) && Before(b, c)
    ensures Before(a, c)
  {
    if |a| == |c| {
      LexTransitive(a, b, c);
    }
  }

  lemma {:induction false} InsertedAscending(s: seq<string>, x: string)
    requires Ascending(s)
    ensures Ascending(Inserted(s, x))
  {
    if s != [] && s[0] != x {
      if Before(x, s[0]) {
        forall j | 0 <= j < |s| ensures Before(x, s[j]) {
          if j > 0 {
            BeforeTransitive(x, s[0], s[j]);
          }
        }
      } else {
        if |x| == |s[0]| {
          LexTotal(x, s[0]);
        }
        InsertedAscending(s[1..], x);
        var rest := Inserted(s[1..], x);
        forall j | 0 <= j < |rest| ensures Before(s[0], rest[j]) {
          assert rest[j] in rest;
        }
      }
    }
  }

  lemma {:induction false} PrefixesAscending(s: seq<string>, longer: string, lo: nat, hi: nat)
    requires hi <= |longer| && Ascending(s)
    ensures Ascending(PrefixesOf(s, longer, lo, hi))
    decreases hi
  {
    if lo < hi {
      PrefixesAscending(s, longer, lo, hi - 1);
      InsertedAscending(PrefixesOf(s, longer, lo, hi - 1), longer[..hi - 1]);
    }
  }

  lemma {:induction false} IntermediatesAscending(rules: seq<Rule>, base: Rule, k: nat)
    requires k <= |rules|
    ensures Ascending(Intermediates(rules, base, k))
  {
    if k > 0 {
      IntermediatesAscending(rules, base, k - 1);
      if Longer(rules[k - 1], base) {
        PrefixesAscending(Intermediates(rules, base, k - 1), rules[k - 1].input, |base.input| + 1,
                          |rules[k - 1].input|);
      }
    }
  }

  /* ----- the printed table ----- */

  function PrintEntry(e: Entry): string {
    e.key + "\t" + e.value
  }

  function Print(es: seq<Entry>): string
    requires es != []
  {
    if |es| == 1 then PrintEntry(es[0]) else PrintEntry(es[0]) + "\n" + Print(es[1..])
  }

  function Content(rows: seq<RomajiRow>): Option<string> {
    var entries := Compiled(Normalized(rows)).entries;
    if entries == [] then None else Some(Print(entries))
  }

  /** The first position of a separator, the length if there is none. */
  function IndexOf(s: string, sep: char): (i: nat)
    ensures i <= |s|
    ensures i < |s| ==> s[i] == sep
    ensures forall k :: 0 <= k < i ==> s[k] != sep
  {
    if s == "" || s[0] == sep then 0 else 1 + IndexOf(s[1..], sep)
  }

  function ReadEntry(line: string): Entry {
    var i := IndexOf(line, '\t');
    Entry(line[..i], if i < |line| then line[i + 1..] else "")
  }

  function Read(text: string): seq<Entry>
    decreases |text|
  {
    var i := IndexOf(text, '\n');
    if i == |text| then [ReadEntry(text)] else [ReadEntry(text[..i])] + Read(text[i + 1..])
  }

  ghost predicate CleanEntries(es: seq<Entry>) {
    forall i :: 0 <= i < |es| ==> Clean(es[i].key) && Clean(es[i].value)
  }

  lemma IndexOfAt(head: string, sep: char, tail: string)
    requires forall k :: 0 <= k < |head| ==> head[k] != sep
    ensures IndexOf(head + [sep] + tail, sep) == |head|
  {
    var s := head + [sep] + tail;
    var i := IndexOf(s, sep);
    assert s[|head|] == sep;
    assert forall k :: 0 <= k < |head| ==> s[k] == head[k];
  }

  lemma ReadPrintedEntry(e: Entry)
    requires Clean(e.key) && Clean(e.value)
    ensures ReadEntry(PrintEntry(e)) == e
    ensures forall k :: 0 <= k < |PrintEntry(e)| ==> PrintEntry(e)[k] != '\n'
  {
    IndexOfAt(e.key, '\t', e.value);
    assert PrintEntry(e) == e.key + ['\t'] + e.value;
  }

  lemma ReadLine(head: string, tail: string)
    requires forall k :: 0 <= k < |head| ==> head[k] != '\n'
    ensures Read(head + ['\n'] + tail) == [ReadEntry(head)] + Read(tail)
  {
    IndexOfAt(head, '\n', tail);
    var text := head + ['\n'] + tail;
    assert text[..|head|] == head && text[|head| + 1..] == tail;
  }

  /** Splitting the text on newlines and each line on its tab gives the entries back. */
  lemma {:induction false} ReadPrinted(es: seq<Entry>)
    requires es != [] && CleanEntries(es)
    ensures Read(Print(es)) == es
  {
    ReadPrintedEntry(es[0]);
    if |es| > 1 {
      ReadPrinted(es[1..]);
      ReadLine(PrintEntry(es[0]), Print(es[1..]));
      assert Print(es) == PrintEntry(es[0]) + ['\n'] + Print(es[1..]);
    }
  }

  lemma CompiledClean(rules: seq<Rule>)
    requires GoodRules(rules)
    ensures CleanEntries(Compiled(rules).entries)
  {
    RequestsClean(rules);
    forall i | 0 <= i < |Compiled(rules).entries|
      ensures Clean(Compiled(rules).entries[i].key) && Clean(Compiled(rules).entries[i].value)
    {
      CompiledSound(rules, Compiled(rules).entries[i]);
      var r :| Justified(rules, r) && Compiled(rules).entries[i] == Entry(Key(r), Value(r));
      RequestsJustified(rules, r);
    }
  }

  /** Whatever the rows contain, the printed table reads back as the compiled entries. */
  lemma ContentReadsBack(rows: seq<RomajiRow>)
    ensures Content(rows).Some? ==> Read(Content(rows).value) == Compiled(Normalized(rows)).entries
  {
    if Content(rows).Some? {
      NormalizedGood(rows);
      CompiledClean(Normalized(rows));
      ReadPrinted(Compiled(Normalized(rows)).entries);
    }
  }

  lemma {:induction false} NormalizedEmpty(rows: seq<RomajiRow>)
    ensures Normalized(rows) == [] <==> forall i :: 0 <= i < |rows| ==> NormalizeRow(rows[i]).None?
  {
    if rows != [] {
      NormalizedEmpty(rows[..|rows| - 1]);
      assert forall i :: 0 <= i < |rows| - 1 ==> rows[..|rows| - 1][i] == rows[i];
    }
  }

  /** There is no table exactly when no row has both an input and an output. */
  lemma ContentNone(rows: seq<RomajiRow>)
    ensures Content(rows).None?
      <==> forall i :: 0 <= i < |rows| ==> NormalizeCell(rows[i].input) == "" || NormalizeCell(rows[i].output) == ""
  {
    NormalizedGood(rows);
    NormalizedEmpty(rows);
    if Normalized(rows) != [] {
      CompiledNonEmpty(Normalized(rows));
      assert exists i :: 0 <= i < |rows| && NormalizeRow(rows[i]).Some?;
    } else {
      assert Requests([]) == [];
      forall i | 0 <= i < |rows| ensures NormalizeCell(rows[i].input) == "" || NormalizeCell(rows[i].output) == "" {
        assert NormalizeRow(rows[i]).None?;
      }
    }
  }
}
