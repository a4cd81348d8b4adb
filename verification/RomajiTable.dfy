/** The romaji table compiler: rules of input, output and next input become the keys and values
    of a flat input table, written out as text. */
module RomajiTable {
  import opened Text
  import opened RomajiRows

  datatype Rule = Rule(input: string, output: string, next: string)

  datatype Entry = Entry(key: string, value: string)

  /** One call of the compiler's insertion routine; a literal text is not escaped. */
  datatype Request = Request(rawKey: string, rawValue: string, explicit: bool, literal: bool)

  /* ----- cells ----- */

  predicate IsLineBreak(c: char) {
    c == '\t' || c == '\n' || c == '\r'
  }

  function WithoutBreaks(s: string): string {
    if s == "" then "" else (if IsLineBreak(s[0]) then "" else [s[0]]) + WithoutBreaks(s[1..])
  }

  function NormalizeCell(s: string): string {
    Trim(WithoutBreaks(s))
  }

  function NormalizeRow(row: RomajiRow): Option<Rule> {
    var input, output := NormalizeCell(row.input), NormalizeCell(row.output);
    if input == "" || output == "" then None
    else Some(Rule(input, output, NormalizeCell(row.nextInput.GetOr(""))))
  }

  function Normalized(rows: seq<RomajiRow>): seq<Rule> {
    if rows == [] then []
    else
      var rest := Normalized(rows[..|rows| - 1]);
      var last := NormalizeRow(rows[|rows| - 1]);
      if last.Some? then rest + [last.value] else rest
  }

  /** No tab and no line break: what the printed table separates entries with. */
  ghost predicate Clean(s: string) {
    forall i :: 0 <= i < |s| ==> s[i] != '\t' && s[i] != '\n'
  }

  ghost predicate GoodRule(r: Rule) {
    r.input != "" && r.output != "" && Clean(r.input) && Clean(r.output) && Clean(r.next)
  }

  ghost predicate GoodRules(rules: seq<Rule>) {
    forall i :: 0 <= i < |rules| ==> GoodRule(rules[i])
  }

  lemma {:induction false} WithoutBreaksClean(s: string)
    ensures Clean(WithoutBreaks(s))
  {
    if s != "" {
      WithoutBreaksClean(s[1..]);
    }
  }

  lemma NormalizeCellClean(s: string)
    ensures Clean(NormalizeCell(s))
  {
    WithoutBreaksClean(s);
    var n := NormalizeCell(s);
    forall i | 0 <= i < |n| ensures n[i] != '\t' && n[i] != '\n' {
      TrimCharacters(WithoutBreaks(s), n[i]);
    }
  }

  lemma {:induction false} NormalizedGood(rows: seq<RomajiRow>)
    ensures GoodRules(Normalized(rows))
  {
    if rows != [] {
      NormalizedGood(rows[..|rows| - 1]);
      var row := rows[|rows| - 1];
      NormalizeCellClean(row.input);
      NormalizeCellClean(row.output);
      NormalizeCellClean(row.nextInput.GetOr(""));
    }
  }

  /* ----- escaping ----- */

  const LBRACKET := "{lbracket}"
  const RBRACKET := "{rbracket}"

  function EscapeChar(c: char): string {
    if c == '{' then LBRACKET else if c == '}' then RBRACKET else [c]
  }

  function Escape(s: string): (r: string)
    ensures s != "" ==> r != ""
  {
    if s == "" then "" else EscapeChar(s[0]) + Escape(s[1..])
  }

  /** Reads an escaped text back. */
  function Unescape(s: string): string {
    if s == "" then ""
    else if LBRACKET <= s then "{" + Unescape(s[|LBRACKET|..])
    else if RBRACKET <= s then "}" + Unescape(s[|RBRACKET|..])
    else [s[0]] + Unescape(s[1..])
  }

  lemma UnescapeHead(c: char, tail: string)
    ensures Unescape(EscapeChar(c) + tail) == [c] + Unescape(tail)
  {
    var all := EscapeChar(c) + tail;
    assert all[|EscapeChar(c)|..] == tail;
    if c == '{' {
      assert LBRACKET <= all;
    } else if c == '}' {
      assert RBRACKET <= all && all[1] == 'r' && LBRACKET[1] == 'l';
    } else {
      assert all[0] == c && LBRACKET[0] == '{' && RBRACKET[0] == '{';
    }
  }

  lemma {:induction false} EscapeUndone(s: string)
    ensures Unescape(Escape(s)) == s
  {
    if s != "" {
      EscapeUndone(s[1..]);
      UnescapeHead(s[0], Escape(s[1..]));
      assert s == [s[0]] + s[1..];
    }
  }

  /** Different texts stay different. */
  lemma EscapeInjective(a: string, b: string)
    requires Escape(a) == Escape(b)
    ensures a == b
  {
    EscapeUndone(a);
    EscapeUndone(b);
  }

  lemma CleanAppend(a: string, b: string)
    requires Clean(a) && Clean(b)
    ensures Clean(a + b)
  {
  }

  lemma {:induction false} EscapeClean(s: string)
    requires Clean(s)
    ensures Clean(Escape(s))
  {
    if s != "" {
      EscapeClean(s[1..]);
      CleanAppend(EscapeChar(s[0]), Escape(s[1..]));
    }
  }

  function Key(r: Request): string {
    if r.literal then r.rawKey else Escape(r.rawKey)
  }

  function Value(r: Request): string {
    if r.literal then r.rawValue else Escape(r.rawValue)
  }

  /* ----- the insertion-ordered table ----- */

  datatype Table = Table(entries: seq<Entry>, indexByKey: map<string, nat>, explicitByKey: map<string, bool>)

  const EMPTY_TABLE := Table([], map[], map[])

  /** The index is exactly the position map of the entries, so the keys are unique. */
  ghost predicate Exact(t: Table) {
    && (forall i :: 0 <= i < |t.entries| ==> t.entries[i].key in t.indexByKey && t.indexByKey[t.entries[i].key] == i)
    && (forall k :: k in t.indexByKey ==> t.indexByKey[k] < |t.entries| && t.entries[t.indexByKey[k]].key == k)
    && t.explicitByKey.Keys == t.indexByKey.Keys
  }

  lemma ExactKeysUnique(t: Table, i: nat, j: nat)
    requires Exact(t) && i < |t.entries| && j < |t.entries| && t.entries[i].key == t.entries[j].key
    ensures i == j
  {
  }

  /** A known key keeps its place; an explicit entry gives way only to another explicit one. */
  function Put(t: Table, key: string, value: string, explicit: bool): (u: Table)
    requires Exact(t)
    ensures Exact(u)
  {
    if key in t.indexByKey then
      if t.explicitByKey[key] && !explicit then t
      else t.(entries := t.entries[t.indexByKey[key] := Entry(key, value)],
              explicitByKey := t.explicitByKey[key := explicit])
    else
      Table(t.entries + [Entry(key, value)], t.indexByKey[key := |t.entries|], t.explicitByKey[key := explicit])
  }

  function Upsert(t: Table, r: Request): (u: Table)
    requires Exact(t)
    ensures Exact(u)
  {
    var key, value := Key(r), Value(r);
    if r.rawKey == "" || r.rawValue == "" || key == "" || value == "" then t
    else Put(t, key, value, r.explicit)
  }

  function UpsertAll(t: Table, rs: seq<Request>): (u: Table)
    requires Exact(t)
    ensures Exact(u)
  {
    if rs == [] then t else Upsert(UpsertAll(t, rs[..|rs| - 1]), rs[|rs| - 1])
  }

  lemma {:induction false} UpsertAllAppend(t: Table, a: seq<Request>, b: seq<Request>)
    requires Exact(t)
    ensures UpsertAll(t, a + b) == UpsertAll(UpsertAll(t, a), b)
  {
    if b == [] {
      assert a + b == a;
    } else {
      assert (a + b)[..|a + b| - 1] == a + b[..|b| - 1];
      UpsertAllAppend(t, a, b[..|b| - 1]);
    }
  }

  ghost predicate Effective(r: Request) {
    r.rawKey != "" && r.rawValue != ""
  }

  ghost predicate AllEffective(rs: seq<Request>) {
    forall i :: 0 <= i < |rs| ==> Effective(rs[i])
  }

  /** The request that decides a key: the last explicit one, else the last one. */
  function Winner(rs: seq<Request>, key: string): Option<Request> {
    if rs == [] then None
    else
      var r, before := rs[|rs| - 1], Winner(rs[..|rs| - 1], key);
      if Key(r) == key && (before.None? || r.explicit || !before.value.explicit) then Some(r) else before
  }

  function Lookup(t: Table, key: string): Option<string>
    requires Exact(t)
  {
    if key in t.indexByKey then Some(t.entries[t.indexByKey[key]].value) else None
  }

  predicate HeldExplicit(t: Table, key: string) {
    key in t.explicitByKey && t.explicitByKey[key]
  }

  lemma PutLookup(t: Table, at: string, value: string, explicit: bool, key: string)
    requires Exact(t)
    ensures var u, wins := Put(t, at, value, explicit), at == key && (explicit || !HeldExplicit(t, key));
            Lookup(u, key) == (if wins then Some(value) else Lookup(t, key))
            && HeldExplicit(u, key) == (if wins then explicit else HeldExplicit(t, key))
  {
  }

  lemma UpsertLookup(t: Table, r: Request, key: string)
    requires Exact(t) && Effective(r)
    ensures var u, wins := Upsert(t, r), Key(r) == key && (r.explicit || !HeldExplicit(t, key));
            Lookup(u, key) == (if wins then Some(Value(r)) else Lookup(t, key))
            && HeldExplicit(u, key) == (if wins then r.explicit else HeldExplicit(t, key))
  {
    PutLookup(t, Key(r), Value(r), r.explicit, key);
  }

  /** The finished table gives every key the value of its deciding request, and has no other keys. */
  lemma {:induction false} UpsertAllWinner(rs: seq<Request>, key: string)
    requires AllEffective(rs)
    ensures var w := Winner(rs, key); var t := UpsertAll(EMPTY_TABLE, rs);
            Lookup(t, key) == (if w.Some? then Some(Value(w.value)) else None)
            && HeldExplicit(t, key) == (w.Some? && w.value.explicit)
  {
    if rs != [] {
      UpsertAllWinner(rs[..|rs| - 1], key);
      UpsertLookup(UpsertAll(EMPTY_TABLE, rs[..|rs| - 1]), rs[|rs| - 1], key);
    }
  }

  lemma {:induction false} WinnerIsRequest(rs: seq<Request>, key: string)
    ensures var w := Winner(rs, key); w.Some? ==> w.value in rs && Key(w.value) == key
  {
    if rs != [] {
      WinnerIsRequest(rs[..|rs| - 1], key);
    }
  }

  lemma {:induction false} RequestedHasWinner(rs: seq<Request>, r: Request)
    requires r in rs
    ensures Winner(rs, Key(r)).Some?
    ensures r.explicit ==> Winner(rs, Key(r)).value.explicit
  {
    var n := |rs| - 1;
    if r != rs[n] {
      assert r in rs[..n];
      RequestedHasWinner(rs[..n], r);
    }
  }

  /* ----- the compiler's requests ----- */

  predicate Longer(longer: Rule, base: Rule) {
    |longer.input| > |base.input| && base.input <= longer.input
  }

  predicate IsDelayed(rules: seq<Rule>, input: string) {
    && (exists i :: 0 <= i < |rules| && rules[i].input == input && rules[i].next == "")
    && (exists j :: 0 <= j < |rules| && |rules[j].input| > |input| && input <= rules[j].input)
  }

  predicate IsInput(rules: seq<Rule>, text: string) {
    exists i :: 0 <= i < |rules| && rules[i].input == text
  }

  function RereadRequest(base: Rule, longer: Rule): Request
    requires Longer(longer, base)
  {
    Request(base.output + base.next + longer.input[|base.input|..], longer.output + longer.next, false, false)
  }

  function TwoStepRequest(base: Rule, follow: Rule): Request
    requires base.next <= follow.input
  {
    Request(base.input + follow.input[|base.next|..], base.output + follow.output + follow.next, false, false)
  }

  function SingleRequest(base: Rule, follow: Rule): Request {
    Request(base.input + follow.input, base.output + follow.output + follow.next, false, false)
  }

  const SEPARATOR := "{composition-separator}"
  const ANY_CHARACTER := "{any character}"

  function SeparatorRequest(base: Rule): Request {
    Request(Escape(base.input) + SEPARATOR, Escape(base.output), false, true)
  }

  function AnyCharacterRequest(base: Rule): Request {
    Request(Escape(base.input) + ANY_CHARACTER, Escape(base.output) + ANY_CHARACTER, false, true)
  }

  function IdentityRequest(prefix: string): Request {
    Request(prefix, prefix, false, false)
  }

  function ExplicitRequest(r: Rule): Request {
    Request(r.input, r.output + r.next, true, false)
  }

  /** The requests of one loop: those of each round, in order. */
  function Flatten(parts: seq<seq<Request>>): seq<Request> {
    if parts == [] then [] else Flatten(parts[..|parts| - 1]) + parts[|parts| - 1]
  }

  function LongerPart(base: Rule, longer: Rule): seq<Request> {
    if Longer(longer, base) then [RereadRequest(base, longer)] else []
  }

  function LongerParts(rules: seq<Rule>, base: Rule): (ps: seq<seq<Request>>)
    ensures |ps| == |rules| && forall j :: 0 <= j < |rules| ==> ps[j] == LongerPart(base, rules[j])
  {
    seq(|rules|, j requires 0 <= j < |rules| => LongerPart(base, rules[j]))
  }

  function FollowPart(base: Rule, follow: Rule): seq<Request> {
    if base.next <= follow.input then [TwoStepRequest(base, follow)] else []
  }

  function FollowParts(rules: seq<Rule>, base: Rule): (ps: seq<seq<Request>>)
    ensures |ps| == |rules| && forall j :: 0 <= j < |rules| ==> ps[j] == FollowPart(base, rules[j])
  {
    seq(|rules|, j requires 0 <= j < |rules| => FollowPart(base, rules[j]))
  }

  function RunPart(rules: seq<Rule>, base: Rule): seq<Request> {
    if base.next == "" then [] else Flatten(LongerParts(rules, base)) + Flatten(FollowParts(rules, base))
  }

  function RunParts(rules: seq<Rule>): (ps: seq<seq<Request>>)
    ensures |ps| == |rules| && forall j :: 0 <= j < |rules| ==> ps[j] == RunPart(rules, rules[j])
  {
    seq(|rules|, j requires 0 <= j < |rules| => RunPart(rules, rules[j]))
  }

  function SinglePart(base: Rule, follow: Rule): seq<Request> {
    if |follow.input| == 1 then [SingleRequest(base, follow)] else []
  }

  function SingleParts(rules: seq<Rule>, base: Rule): (ps: seq<seq<Request>>)
    ensures |ps| == |rules| && forall j :: 0 <= j < |rules| ==> ps[j] == SinglePart(base, rules[j])
  {
    seq(|rules|, j requires 0 <= j < |rules| => SinglePart(base, rules[j]))
  }

  /* The proper prefixes between a delayed input and the longer inputs, in the order (length, text). */

  predicate LexLess(a: string, b: string) {
    b != "" && (a == "" || a[0] < b[0] || (a[0] == b[0] && LexLess(a[1..], b[1..])))
  }

  predicate Before(a: string, b: string) {
    |a| < |b| || (|a| == |b| && LexLess(a, b))
  }

  function Inserted(s: seq<string>, x: string): (r: seq<string>)
    ensures forall y :: y in r <==> y in s || y == x
  {
    if s == [] then [x]
    else if s[0] == x then s
    else if Before(x, s[0]) then [x] + s
    else
      var r := [s[0]] + Inserted(s[1..], x);
      assert forall y :: y in r <==> y == s[0] || y in Inserted(s[1..], x);
      assert forall y :: y in s <==> y == s[0] || y in s[1..];
      r
  }

  predicate PrefixWithin(p: string, longer: string, lo: nat, hi: nat) {
    lo <= |p| < hi && p <= longer
  }

  function PrefixesOf(s: seq<string>, longer: string, lo: nat, hi: nat): (r: seq<string>)
    requires hi <= |longer|
    ensures forall y :: y in r <==> y in s || PrefixWithin(y, longer, lo, hi)
    decreases hi
  {
    if hi <= lo then s else Inserted(PrefixesOf(s, longer, lo, hi - 1), longer[..hi - 1])
  }

  /** Collected over the first `k` rules. */
  function Intermediates(rules: seq<Rule>, base: Rule, k: nat): seq<string>
    requires k <= |rules|
  {
    if k == 0 then []
    else
      var s := Intermediates(rules, base, k - 1);
      if Longer(rules[k - 1], base) then PrefixesOf(s, rules[k - 1].input, |base.input| + 1,
                                                    |rules[k - 1].input|) else s
  }

  function IdentityPart(rules: seq<Rule>, prefix: string): seq<Request> {
    if IsInput(rules, prefix) then [] else [IdentityRequest(prefix)]
  }

  function IdentityParts(rules: seq<Rule>, prefixes: seq<string>): (ps: seq<seq<Request>>)
    ensures |ps| == |prefixes| && forall j :: 0 <= j < |prefixes| ==> ps[j] == IdentityPart(rules, prefixes[j])
  {
    seq(|prefixes|, j requires 0 <= j < |prefixes| => IdentityPart(rules, prefixes[j]))
  }

  function DelayedPart(rules: seq<Rule>, base: Rule): seq<Request> {
    if !IsDelayed(rules, base.input) then []
    else Flatten(SingleParts(rules, base)) + [SeparatorRequest(base), AnyCharacterRequest(base)]
         + Flatten(IdentityParts(rules, Intermediates(rules, base, |rules|)))
  }

  function DelayedParts(rules: seq<Rule>): (ps: seq<seq<Request>>)
    ensures |ps| == |rules| && forall j :: 0 <= j < |rules| ==> ps[j] == DelayedPart(rules, rules[j])
  {
    seq(|rules|, j requires 0 <= j < |rules| => DelayedPart(rules, rules[j]))
  }

  function ExplicitPart(rules: seq<Rule>, r: Rule): seq<Request> {
    if IsDelayed(rules, r.input) then [] else [ExplicitRequest(r)]
  }

  function ExplicitParts(rules: seq<Rule>): (ps: seq<seq<Request>>)
    ensures |ps| == |rules| && forall j :: 0 <= j < |rules| ==> ps[j] == ExplicitPart(rules, rules[j])
  {
    seq(|rules|, j requires 0 <= j < |rules| => ExplicitPart(rules, rules[j]))
  }

  function Requests(rules: seq<Rule>): seq<Request> {
    Flatten(RunParts(rules)) + Flatten(DelayedParts(rules)) + Flatten(ExplicitParts(rules))
  }

  function Compiled(rules: seq<Rule>): (t: Table)
    ensures Exact(t)
  {
    UpsertAll(EMPTY_TABLE, Requests(rules))
  }
}
