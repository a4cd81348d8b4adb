/** The client's index over the romaji table: which texts begin a row, and which single symbols a
    row maps.  Queries look only at a truncated tail of the input and at sets built once. */
module RomajiLookup {
  import opened Text
  import opened RomajiRows

  datatype Lookup = Lookup(
    maxInputLen: nat, maxMultiLen: nat, prefixes: set<string>, multiPrefixes: set<string>,
    outputs: map<char, string>, order: map<char, nat>)

  const EMPTY_LOOKUP := Lookup(0, 0, {}, {}, map[], map[])

  /* ----- what the rows themselves say ----- */

  /** `p` begins some row whose input has at least `minLen` characters. */
  ghost predicate BeginsRow(rows: seq<RomajiRow>, p: string, minLen: nat) {
    exists i :: 0 <= i < |rows| && minLen <= |Trim(rows[i].input)| && p <= Trim(rows[i].input)
  }

  /** The single symbol a row maps outright, if it is such a row. */
  function MappedSymbol(row: RomajiRow): Option<char> {
    var input := Trim(row.input);
    if |input| == 1 && Trim(row.nextInput.GetOr("")) == "" && row.output != "" then Some(input[0]) else None
  }

  function MappedSymbols(rows: seq<RomajiRow>): (r: seq<Option<char>>)
    ensures |r| == |rows|
    ensures forall i :: 0 <= i < |rows| ==> r[i] == MappedSymbol(rows[i])
  {
    seq(|rows|, i requires 0 <= i < |rows| => MappedSymbol(rows[i]))
  }

  ghost predicate PrefixesOf(prefixes: set<string>, rows: seq<RomajiRow>, minLen: nat) {
    forall p :: p in prefixes <==> p != "" && BeginsRow(rows, p, minLen)
  }

  /** `m` is the length of the longest input of at least `minLen` characters, 0 if there is none. */
  ghost predicate LongestOf(m: nat, rows: seq<RomajiRow>, minLen: nat) {
    && (forall i :: 0 <= i < |rows| && minLen <= |Trim(rows[i].input)| ==> |Trim(rows[i].input)| <= m)
    && (m == 0 || exists i :: 0 <= i < |rows| && minLen <= |Trim(rows[i].input)| == m)
  }

  /** `order` gives for each mapped symbol the first row that maps it. */
  ghost predicate FirstOf(order: map<char, nat>, symbols: seq<Option<char>>) {
    && (forall c :: c in order ==> order[c] < |symbols| && symbols[order[c]] == Some(c))
    && (forall i :: 0 <= i < |symbols| && symbols[i].Some? ==>
          symbols[i].value in order && order[symbols[i].value] <= i)
  }

  ghost predicate SymbolsOf(outputs: map<char, string>, order: map<char, nat>, rows: seq<RomajiRow>) {
    && outputs.Keys == order.Keys
    && FirstOf(order, MappedSymbols(rows))
    && (forall c :: c in order ==> outputs[c] == rows[order[c]].output)
  }

  ghost predicate Indexes(l: Lookup, rows: seq<RomajiRow>) {
    && PrefixesOf(l.prefixes, rows, 1) && PrefixesOf(l.multiPrefixes, rows, 2)
    && LongestOf(l.maxInputLen, rows, 1) && LongestOf(l.maxMultiLen, rows, 2)
    && SymbolsOf(l.outputs, l.order, rows)
  }

  /* ----- building the index ----- */

  method InsertPrefixes(input: string, prefixes: set<string>) returns (r: set<string>)
    ensures forall p :: p in r <==> p in prefixes || (p != "" && p <= input)
  {
    r := prefixes;
    for end := 0 to |input|
      invariant forall p :: p in r <==> p in prefixes || (p != "" && |p| <= end && p <= input)
    {
      var before := r;
      r := r + {input[..end + 1]};
      forall p ensures p in r <==> p in prefixes || (p != "" && |p| <= end + 1 && p <= input) {
        assert p in r <==> p in before || p == input[..end + 1];
      }
    }
  }

  lemma PrefixesExtend(before: set<string>, after: set<string>, rows: seq<RomajiRow>, i: nat, minLen: nat)
    requires i < |rows| && PrefixesOf(before, rows[..i], minLen)
    requires forall p ::
      p in after <==> p in before || (p != "" && minLen <= |Trim(rows[i].input)| && p <= Trim(rows[i].input))
    ensures PrefixesOf(after, rows[..i + 1], minLen)
  {
  }

  lemma LongestExtend(m: nat, rows: seq<RomajiRow>, i: nat, minLen: nat)
    requires i < |rows| && LongestOf(m, rows[..i], minLen)
    ensures var n := |Trim(rows[i].input)|;
            LongestOf(if minLen <= n && m < n then n else m, rows[..i + 1], minLen)
  {
  }

  lemma FirstOfExtend(order: map<char, nat>, symbols: seq<Option<char>>, next: Option<char>)
    requires FirstOf(order, symbols)
    ensures FirstOf(if next.Some? && next.value !in order then order[next.value := |symbols|] else order,
                    symbols + [next])
  {
  }

  ghost predicate OutputsOf(outputs: map<char, string>, order: map<char, nat>, rows: seq<RomajiRow>, n: nat)
    requires n <= |rows|
  {
    outputs.Keys == order.Keys && forall c :: c in order ==> order[c] < n && outputs[c] == rows[order[c]].output
  }

  lemma OutputsExtend(outputs: map<char, string>, order: map<char, nat>, rows: seq<RomajiRow>, i: nat, c: char)
    requires i < |rows| && OutputsOf(outputs, order, rows, i)
    ensures OutputsOf(outputs, order, rows, i + 1)
    ensures OutputsOf(outputs[c := rows[i].output], order[c := i], rows, i + 1)
  {
  }

  lemma SymbolsSplit(outputs: map<char, string>, order: map<char, nat>, rows: seq<RomajiRow>, n: nat)
    requires n <= |rows|
    ensures SymbolsOf(outputs, order, rows[..n])
        <==> FirstOf(order, MappedSymbols(rows[..n])) && OutputsOf(outputs, order, rows, n)
  {
  }

  /** The first row to map a symbol is entered, a later one changes nothing. */
  lemma SymbolsExtend(outputs: map<char, string>, order: map<char, nat>, rows: seq<RomajiRow>, i: nat)
    requires i < |rows| && SymbolsOf(outputs, order, rows[..i])
    ensures var next := MappedSymbol(rows[i]);
            if next.Some? && next.value !in order
            then SymbolsOf(outputs[next.value := rows[i].output], order[next.value := i], rows[..i + 1])
            else SymbolsOf(outputs, order, rows[..i + 1])
  {
    var next := MappedSymbol(rows[i]);
    var enters := next.Some? && next.value !in order;
    var c := if next.Some? then next.value else ' ';
    SymbolsSplit(outputs, order, rows, i);
    OutputsExtend(outputs, order, rows, i, c);
    assert MappedSymbols(rows[..i + 1]) == MappedSymbols(rows[..i]) + [next];
    FirstOfExtend(order, MappedSymbols(rows[..i]), next);
    SymbolsSplit(if enters then outputs[c := rows[i].output] else outputs, if enters then order[c := i] else order,
                 rows, i + 1);
  }

  /** What one row adds to the index. */
  ghost predicate RowAdded(before: Lookup, after: Lookup, row: RomajiRow, i: nat) {
    var input, next := Trim(row.input), MappedSymbol(row);
    && (forall p :: p in after.prefixes <==> p in before.prefixes || (p != "" && 1 <= |input| && p <= input))
    && (forall p :: p in after.multiPrefixes <==> p in before.multiPrefixes || (p != "" && 2 <= |input| && p <= input))
    && after.maxInputLen == (if 1 <= |input| && before.maxInputLen < |input| then |input| else before.maxInputLen)
    && after.maxMultiLen == (if 2 <= |input| && before.maxMultiLen < |input| then |input| else before.maxMultiLen)
    && (if next.Some? && next.value !in before.order
        then after.outputs == before.outputs[next.value := row.output] && after.order == before.order[next.value := i]
        else after.outputs == before.outputs && after.order == before.order)
  }

  method AddRow(before: Lookup, row: RomajiRow, i: nat) returns (lookup: Lookup)
    requires before.outputs.Keys == before.order.Keys
    ensures RowAdded(before, lookup, row, i)
  {
    lookup := before;
    var input := Trim(row.input);
    if input != "" {
      lookup := lookup.(maxInputLen := if lookup.maxInputLen < |input| then |input| else lookup.maxInputLen);
      var prefixes := InsertPrefixes(input, lookup.prefixes);
      lookup := lookup.(prefixes := prefixes);
      if |input| > 1 {
        var multi := InsertPrefixes(input, lookup.multiPrefixes);
        lookup := lookup.(maxMultiLen := if lookup.maxMultiLen < |input| then |input| else lookup.maxMultiLen,
                          multiPrefixes := multi);
      } else if Trim(row.nextInput.GetOr("")) == "" && row.output != "" {
        if input[0] !in lookup.outputs {
          lookup := lookup.(outputs := lookup.outputs[input[0] := row.output]);
        }
        if input[0] !in lookup.order {
          lookup := lookup.(order := lookup.order[input[0] := i]);
        }
      }
    }
  }

  lemma IndexesExtend(before: Lookup, after: Lookup, rows: seq<RomajiRow>, i: nat)
    requires i < |rows| && Indexes(before, rows[..i]) && RowAdded(before, after, rows[i], i)
    ensures Indexes(after, rows[..i + 1])
  {
    PrefixesExtend(before.prefixes, after.prefixes, rows, i, 1);
    PrefixesExtend(before.multiPrefixes, after.multiPrefixes, rows, i, 2);
    LongestExtend(before.maxInputLen, rows, i, 1);
    LongestExtend(before.maxMultiLen, rows, i, 2);
    SymbolsExtend(before.outputs, before.order, rows, i);
  }

  method FromRows(rows: seq<RomajiRow>) returns (lookup: Lookup)
    ensures Indexes(lookup, rows)
  {
    lookup := EMPTY_LOOKUP;
    for i := 0 to |rows|
      invariant Indexes(lookup, rows[..i])
    {
      ghost var before := lookup;
      lookup := AddRow(lookup, rows[i], i);
      IndexesExtend(before, lookup, rows, i);
    }
    assert rows[..|rows|] == rows;
  }

  /* ----- queries ----- */

  function HasContext(rawInputBefore: string, symbol: char, maxLen: nat, prefixes: set<string>): bool {
    if maxLen == 0 || prefixes == {} then false
    else
      var combined := Skip(rawInputBefore, |rawInputBefore| - (maxLen - 1)) + [symbol];
      exists start :: 0 <= start < |combined| && combined[start..] in prefixes
  }

  predicate HasRomajiTableContext(l: Lookup, rawInputBefore: string, symbol: char) {
    HasContext(rawInputBefore, symbol, l.maxInputLen, l.prefixes)
  }

  predicate HasMultiCharacterContext(l: Lookup, rawInputBefore: string, symbol: char) {
    HasContext(rawInputBefore, symbol, l.maxMultiLen, l.multiPrefixes)
  }

  /** Some non-empty end of the whole input, the new symbol included, begins a row. */
  ghost predicate InContext(rows: seq<RomajiRow>, rawInputBefore: string, symbol: char, minLen: nat) {
    exists start :: 0 <= start <= |rawInputBefore| && BeginsRow(rows, (rawInputBefore + [symbol])[start..], minLen)
  }

  /** A truncated tail ends where the whole input ends. */
  lemma TailSuffix(raw: string, symbol: char, keep: int, start: nat)
    requires start <= |Skip(raw, |raw| - keep)|
    ensures var skipped := if |raw| < keep then 0 else if keep < 0 then |raw| else |raw| - keep;
            (Skip(raw, |raw| - keep) + [symbol])[start..] == (raw + [symbol])[skipped + start..]
  {
  }

  lemma KnownPrefix(prefixes: set<string>, rows: seq<RomajiRow>, minLen: nat, p: string)
    requires PrefixesOf(prefixes, rows, minLen)
    ensures p in prefixes <==> p != "" && BeginsRow(rows, p, minLen)
  {
  }

  lemma EndBeginsRow(rows: seq<RomajiRow>, minLen: nat, rawInputBefore: string, symbol: char, start: nat)
    requires start <= |rawInputBefore| && BeginsRow(rows, (rawInputBefore + [symbol])[start..], minLen)
    ensures InContext(rows, rawInputBefore, symbol, minLen)
  {
  }

  /** What is found in the tail is found in the whole input. */
  lemma FoundInWhole(prefixes: set<string>, maxLen: nat, raw: string, symbol: char) returns (start: nat)
    requires HasContext(raw, symbol, maxLen, prefixes)
    ensures start <= |raw| && (raw + [symbol])[start..] in prefixes
  {
    var combined := Skip(raw, |raw| - (maxLen - 1)) + [symbol];
    var k :| 0 <= k < |combined| && combined[k..] in prefixes;
    TailSuffix(raw, symbol, maxLen - 1, k);
    start := k + if |raw| < maxLen - 1 then 0 else |raw| - (maxLen - 1);
  }

  lemma ContextSound(prefixes: set<string>, maxLen: nat, rows: seq<RomajiRow>, minLen: nat,
                     rawInputBefore: string, symbol: char)
    requires PrefixesOf(prefixes, rows, minLen) && HasContext(rawInputBefore, symbol, maxLen, prefixes)
    ensures InContext(rows, rawInputBefore, symbol, minLen)
  {
    var start := FoundInWhole(prefixes, maxLen, rawInputBefore, symbol);
    KnownPrefix(prefixes, rows, minLen, (rawInputBefore + [symbol])[start..]);
    EndBeginsRow(rows, minLen, rawInputBefore, symbol, start);
  }

  lemma BeginsRowLength(rows: seq<RomajiRow>, p: string, maxLen: nat, minLen: nat)
    requires BeginsRow(rows, p, minLen) && LongestOf(maxLen, rows, minLen)
    ensures |p| <= maxLen
  {
  }

  /** A known prefix short enough to fit the tail is found there. */
  lemma TailHas(prefixes: set<string>, maxLen: nat, raw: string, symbol: char, start: nat)
    requires start <= |raw| && (raw + [symbol])[start..] in prefixes && |raw| + 1 - start <= maxLen
    ensures HasContext(raw, symbol, maxLen, prefixes)
  {
    var skipped := if |raw| < maxLen - 1 then 0 else |raw| - (maxLen - 1);
    TailSuffix(raw, symbol, maxLen - 1, start - skipped);
    var combined := Skip(raw, |raw| - (maxLen - 1)) + [symbol];
    assert combined[start - skipped..] in prefixes;
  }

  lemma ContextComplete(prefixes: set<string>, maxLen: nat, rows: seq<RomajiRow>, minLen: nat,
                        rawInputBefore: string, symbol: char)
    requires PrefixesOf(prefixes, rows, minLen) && LongestOf(maxLen, rows, minLen)
    requires InContext(rows, rawInputBefore, symbol, minLen)
    ensures HasContext(rawInputBefore, symbol, maxLen, prefixes)
  {
    var all := rawInputBefore + [symbol];
    var start :| 0 <= start <= |rawInputBefore| && BeginsRow(rows, all[start..], minLen);
    BeginsRowLength(rows, all[start..], maxLen, minLen);
    KnownPrefix(prefixes, rows, minLen, all[start..]);
    TailHas(prefixes, maxLen, rawInputBefore, symbol, start);
  }

  /** Looking only at the truncated tail loses nothing. */
  lemma ContextRefines(prefixes: set<string>, maxLen: nat, rows: seq<RomajiRow>, minLen: nat,
                       rawInputBefore: string, symbol: char)
    requires PrefixesOf(prefixes, rows, minLen) && LongestOf(maxLen, rows, minLen)
    ensures HasContext(rawInputBefore, symbol, maxLen, prefixes) <==> InContext(rows, rawInputBefore, symbol, minLen)
  {
    if HasContext(rawInputBefore, symbol, maxLen, prefixes) {
      ContextSound(prefixes, maxLen, rows, minLen, rawInputBefore, symbol);
    }
    if InContext(rows, rawInputBefore, symbol, minLen) {
      ContextComplete(prefixes, maxLen, rows, minLen, rawInputBefore, symbol);
    }
  }

  lemma IndexContexts(l: Lookup, rows: seq<RomajiRow>, rawInputBefore: string, symbol: char)
    requires Indexes(l, rows)
    ensures HasRomajiTableContext(l, rawInputBefore, symbol) <==> InContext(rows, rawInputBefore, symbol, 1)
    ensures HasMultiCharacterContext(l, rawInputBefore, symbol) <==> InContext(rows, rawInputBefore, symbol, 2)
  {
    ContextRefines(l.prefixes, l.maxInputLen, rows, 1, rawInputBefore, symbol);
    ContextRefines(l.multiPrefixes, l.maxMultiLen, rows, 2, rawInputBefore, symbol);
  }

  /** The output of the mapped symbol whose row comes first; `best` is the winner so far. */
  function BestSymbol(l: Lookup, symbols: seq<char>, best: Option<char>): (r: Option<char>)
    requires l.outputs.Keys == l.order.Keys && (best.Some? ==> best.value in l.order)
    ensures r.Some? ==> r.value in l.order && (r == best || r.value in symbols)
    ensures r.None? ==> best.None? && forall c :: c in symbols ==> c !in l.order
    ensures r.Some? && best.Some? ==> l.order[r.value] <= l.order[best.value]
    ensures r.Some? ==> forall c :: c in symbols && c in l.order ==> l.order[r.value] <= l.order[c]
  {
    if symbols == [] then best
    else if symbols[0] in l.order && (best.None? || l.order[symbols[0]] < l.order[best.value])
    then BestSymbol(l, symbols[1..], Some(symbols[0]))
    else BestSymbol(l, symbols[1..], best)
  }

  function SingleSymbolOutput(l: Lookup, symbols: seq<char>): Option<string>
    requires l.outputs.Keys == l.order.Keys
  {
    var best := BestSymbol(l, symbols, None);
    if best.Some? then Some(l.outputs[best.value]) else None
  }

  /** The plain reading of the table: the first row that maps any of the symbols. */
  function FirstMapping(rows: seq<RomajiRow>, symbols: seq<char>): Option<string> {
    if rows == [] then None
    else
      var c := MappedSymbol(rows[0]);
      if c.Some? && c.value in symbols then Some(rows[0].output) else FirstMapping(rows[1..], symbols)
  }

  predicate Maps(c: Option<char>, symbols: seq<char>) {
    c.Some? && c.value in symbols
  }

  lemma {:induction false} FirstMappingAt(rows: seq<RomajiRow>, symbols: seq<char>, i: nat)
    requires i < |rows| && Maps(MappedSymbol(rows[i]), symbols)
    requires forall k :: 0 <= k < i ==> !Maps(MappedSymbols(rows)[k], symbols)
    ensures FirstMapping(rows, symbols) == Some(rows[i].output)
  {
    if i > 0 {
      assert !Maps(MappedSymbols(rows)[0], symbols);
      assert MappedSymbols(rows[1..]) == MappedSymbols(rows)[1..];
      FirstMappingAt(rows[1..], symbols, i - 1);
    }
  }

  lemma {:induction false} FirstMappingNone(rows: seq<RomajiRow>, symbols: seq<char>)
    requires forall k :: 0 <= k < |rows| ==> !Maps(MappedSymbols(rows)[k], symbols)
    ensures FirstMapping(rows, symbols) == None
  {
    if rows != [] {
      assert !Maps(MappedSymbols(rows)[0], symbols);
      assert MappedSymbols(rows[1..]) == MappedSymbols(rows)[1..];
      FirstMappingNone(rows[1..], symbols);
    }
  }

  /** The indexed answer is the one a scan of the table from the top gives. */
  lemma SymbolOutputRefines(l: Lookup, rows: seq<RomajiRow>, symbols: seq<char>)
    requires Indexes(l, rows)
    ensures SingleSymbolOutput(l, symbols) == FirstMapping(rows, symbols)
  {
    var best := BestSymbol(l, symbols, None);
    if best.Some? {
      assert MappedSymbols(rows)[l.order[best.value]] == Some(best.value);
      FirstMappingAt(rows, symbols, l.order[best.value]);
    } else {
      FirstMappingNone(rows, symbols);
    }
  }
}
