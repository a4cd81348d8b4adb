/** The romaji table compiler in the form it runs: nested loops that insert into one growing table. */
module RomajiTableBuilder {
  import opened Text
  import opened RomajiRows
  import opened RomajiTable
  import Proofs = RomajiTableProofs

  lemma FlattenStep(parts: seq<seq<Request>>, k: nat)
    requires k < |parts|
    ensures Flatten(parts[..k + 1]) == Flatten(parts[..k]) + parts[k]
  {
    assert parts[..k + 1][..k] == parts[..k];
  }

  /** One more round of a loop, entered with the table `t`. */
  lemma Round(t: Table, parts: seq<seq<Request>>, k: nat)
    requires Exact(t) && k < |parts|
    ensures UpsertAll(t, Flatten(parts[..k + 1])) == UpsertAll(UpsertAll(t, Flatten(parts[..k])), parts[k])
  {
    FlattenStep(parts, k);
    UpsertAllAppend(t, Flatten(parts[..k]), parts[k]);
  }

  lemma UpsertOne(t: Table, r: Request)
    requires Exact(t)
    ensures UpsertAll(t, [r]) == Upsert(t, r)
  {
  }

  class TableBuilder {
    var entries: seq<Entry>
    var indexByKey: map<string, nat>
    var explicitByKey: map<string, bool>

    ghost function View(): Table
      reads this
    {
      Table(entries, indexByKey, explicitByKey)
    }

    constructor ()
      ensures View() == EMPTY_TABLE
    {
      entries, indexByKey, explicitByKey := [], map[], map[];
    }

    method UpsertEntry(r: Request)
      requires Exact(View())
      modifies this
      ensures Exact(View()) && View() == Upsert(old(View()), r)
    {
      if r.rawKey == "" || r.rawValue == "" {
        return;
      }
      var key := if r.literal then r.rawKey else Escape(r.rawKey);
      var value := if r.literal then r.rawValue else Escape(r.rawValue);
      if key == "" || value == "" {
        return;
      }
      PutEntry(key, value, r.explicit);
    }

    method PutEntry(key: string, value: string, explicit: bool)
      requires Exact(View())
      modifies this
      ensures View() == Put(old(View()), key, value, explicit)
    {
      if key in indexByKey {
        if explicitByKey[key] && !explicit {
          return;
        }
        entries := entries[indexByKey[key] := Entry(key, value)];
        explicitByKey := explicitByKey[key := explicit];
        return;
      }
      indexByKey := indexByKey[key := |entries|];
      explicitByKey := explicitByKey[key := explicit];
      entries := entries + [Entry(key, value)];
    }

    method AddLonger(rules: seq<Rule>, base: Rule)
      requires Exact(View())
      modifies this
      ensures Exact(View()) && View() == UpsertAll(old(View()), Flatten(LongerParts(rules, base)))
    {
      ghost var parts := LongerParts(rules, base);
      for k := 0 to |rules|
        invariant Exact(View()) && View() == UpsertAll(old(View()), Flatten(parts[..k]))
      {
        Round(old(View()), parts, k);
        if |rules[k].input| > |base.input| && base.input <= rules[k].input {
          UpsertOne(View(), RereadRequest(base, rules[k]));
          var suffix := rules[k].input[|base.input|..];
          UpsertEntry(Request(base.output + base.next + suffix, rules[k].output + rules[k].next, false, false));
        }
      }
      assert parts[..|rules|] == parts;
    }

    method AddFollowing(rules: seq<Rule>, base: Rule)
      requires Exact(View())
      modifies this
      ensures Exact(View()) && View() == UpsertAll(old(View()), Flatten(FollowParts(rules, base)))
    {
      ghost var parts := FollowParts(rules, base);
      for k := 0 to |rules|
        invariant Exact(View()) && View() == UpsertAll(old(View()), Flatten(parts[..k]))
      {
        Round(old(View()), parts, k);
        if base.next <= rules[k].input {
          UpsertOne(View(), TwoStepRequest(base, rules[k]));
          var suffix := rules[k].input[|base.next|..];
          UpsertEntry(Request(base.input + suffix, base.output + rules[k].output + rules[k].next, false, false));
        }
      }
      assert parts[..|rules|] == parts;
    }

    method AddRuns(rules: seq<Rule>)
      requires Exact(View())
      modifies this
      ensures Exact(View()) && View() == UpsertAll(old(View()), Flatten(RunParts(rules)))
    {
      ghost var parts := RunParts(rules);
      for k := 0 to |rules|
        invariant Exact(View()) && View() == UpsertAll(old(View()), Flatten(parts[..k]))
      {
        Round(old(View()), parts, k);
        if rules[k].next != "" {
          UpsertAllAppend(View(), Flatten(LongerParts(rules, rules[k])), Flatten(FollowParts(rules, rules[k])));
          AddLonger(rules, rules[k]);
          AddFollowing(rules, rules[k]);
        }
      }
      assert parts[..|rules|] == parts;
    }

    method AddSingles(rules: seq<Rule>, base: Rule)
      requires Exact(View())
      modifies this
      ensures Exact(View()) && View() == UpsertAll(old(View()), Flatten(SingleParts(rules, base)))
    {
      ghost var parts := SingleParts(rules, base);
      for k := 0 to |rules|
        invariant Exact(View()) && View() == UpsertAll(old(View()), Flatten(parts[..k]))
      {
        Round(old(View()), parts, k);
        if |rules[k].input| == 1 {
          UpsertOne(View(), SingleRequest(base, rules[k]));
          UpsertEntry(Request(base.input + rules[k].input, base.output + rules[k].output + rules[k].next, false,
                              false));
        }
      }
      assert parts[..|rules|] == parts;
    }

    method AddIdentities(rules: seq<Rule>, inputs: set<string>, prefixes: seq<string>)
      requires Exact(View())
      requires forall x :: x in inputs <==> IsInput(rules, x)
      modifies this
      ensures Exact(View()) && View() == UpsertAll(old(View()), Flatten(IdentityParts(rules, prefixes)))
    {
      ghost var parts := IdentityParts(rules, prefixes);
      for k := 0 to |prefixes|
        invariant Exact(View()) && View() == UpsertAll(old(View()), Flatten(parts[..k]))
      {
        Round(old(View()), parts, k);
        if prefixes[k] !in inputs {
          UpsertOne(View(), IdentityRequest(prefixes[k]));
          UpsertEntry(Request(prefixes[k], prefixes[k], false, false));
        }
      }
      assert parts[..|prefixes|] == parts;
    }

    /** The separator and any-character rules of one held-back input. */
    method AddTokens(base: Rule)
      requires Exact(View())
      modifies this
      ensures Exact(View()) && View() == UpsertAll(old(View()), [SeparatorRequest(base), AnyCharacterRequest(base)])
    {
      var input, output := Escape(base.input), Escape(base.output);
      UpsertOne(View(), SeparatorRequest(base));
      UpsertAllAppend(View(), [SeparatorRequest(base)], [AnyCharacterRequest(base)]);
      UpsertEntry(Request(input + SEPARATOR, output, false, true));
      UpsertOne(View(), AnyCharacterRequest(base));
      UpsertEntry(Request(input + ANY_CHARACTER, output + ANY_CHARACTER, false, true));
      assert [SeparatorRequest(base)] + [AnyCharacterRequest(base)]
          == [SeparatorRequest(base), AnyCharacterRequest(base)];
    }

    method AddHeldBack(rules: seq<Rule>, inputs: set<string>, base: Rule)
      requires Exact(View())
      requires forall x :: x in inputs <==> IsInput(rules, x)
      requires IsDelayed(rules, base.input)
      modifies this
      ensures Exact(View()) && View() == UpsertAll(old(View()), DelayedPart(rules, base))
    {
      ghost var singles := Flatten(SingleParts(rules, base));
      ghost var tokens := [SeparatorRequest(base), AnyCharacterRequest(base)];
      ghost var identities := Flatten(IdentityParts(rules, Intermediates(rules, base, |rules|)));
      UpsertAllAppend(View(), singles, tokens);
      UpsertAllAppend(View(), singles + tokens, identities);
      AddSingles(rules, base);
      AddTokens(base);
      var prefixes := CollectIntermediates(rules, base);
      AddIdentities(rules, inputs, prefixes);
    }

    method AddAllHeldBack(rules: seq<Rule>, inputs: set<string>, delayed: set<string>)
      requires Exact(View())
      requires forall x :: x in inputs <==> IsInput(rules, x)
      requires forall x :: x in delayed <==> IsDelayed(rules, x)
      modifies this
      ensures Exact(View()) && View() == UpsertAll(old(View()), Flatten(DelayedParts(rules)))
    {
      ghost var parts := DelayedParts(rules);
      for k := 0 to |rules|
        invariant Exact(View()) && View() == UpsertAll(old(View()), Flatten(parts[..k]))
      {
        Round(old(View()), parts, k);
        if rules[k].input in delayed {
          AddHeldBack(rules, inputs, rules[k]);
        }
      }
      assert parts[..|rules|] == parts;
    }

    method AddExplicit(rules: seq<Rule>, delayed: set<string>)
      requires Exact(View())
      requires forall x :: x in delayed <==> IsDelayed(rules, x)
      modifies this
      ensures Exact(View()) && View() == UpsertAll(old(View()), Flatten(ExplicitParts(rules)))
    {
      ghost var parts := ExplicitParts(rules);
      for k := 0 to |rules|
        invariant Exact(View()) && View() == UpsertAll(old(View()), Flatten(parts[..k]))
      {
        Round(old(View()), parts, k);
        if rules[k].input !in delayed {
          UpsertOne(View(), ExplicitRequest(rules[k]));
          UpsertEntry(Request(rules[k].input, rules[k].output + rules[k].next, true, false));
        }
      }
      assert parts[..|rules|] == parts;
    }
  }

  method CollectIntermediates(rules: seq<Rule>, base: Rule) returns (prefixes: seq<string>)
    ensures prefixes == Intermediates(rules, base, |rules|) && Proofs.Ascending(prefixes)
  {
    prefixes := [];
    for k := 0 to |rules|
      invariant prefixes == Intermediates(rules, base, k)
    {
      if |rules[k].input| > |base.input| && base.input <= rules[k].input {
        var longer, n := rules[k].input, |base.input| + 1;
        while n < |longer|
          invariant |base.input| + 1 <= n <= |longer|
          invariant prefixes == PrefixesOf(Intermediates(rules, base, k), longer, |base.input| + 1, n)
        {
          prefixes := Inserted(prefixes, longer[..n]);
          n := n + 1;
        }
      }
    }
    Proofs.IntermediatesAscending(rules, base, |rules|);
  }

  method Normalize(rows: seq<RomajiRow>) returns (rules: seq<Rule>)
    ensures rules == Normalized(rows)
  {
    rules := [];
    for k := 0 to |rows|
      invariant rules == Normalized(rows[..k])
    {
      var rule := NormalizeRow(rows[k]);
      assert rows[..k + 1][..k] == rows[..k];
      if rule.Some? {
        rules := rules + [rule.value];
      }
    }
    assert rows[..|rows|] == rows;
  }

  method CollectDelayed(rules: seq<Rule>) returns (delayed: set<string>)
    ensures forall x :: x in delayed <==> IsDelayed(rules, x)
  {
    delayed := {};
    for k := 0 to |rules|
      invariant forall x ::
        x in delayed <==> IsDelayed(rules, x) && exists i :: 0 <= i < k && rules[i].input == x && rules[i].next == ""
    {
      if rules[k].next == ""
         && exists j :: 0 <= j < |rules| && |rules[j].input| > |rules[k].input| && rules[k].input <= rules[j].input {
        delayed := delayed + {rules[k].input};
      }
    }
  }

  method BuildEntries(rows: seq<RomajiRow>) returns (entries: seq<Entry>)
    ensures entries == Compiled(Normalized(rows)).entries
  {
    var rules := Normalize(rows);
    if rules == [] {
      return [];
    }
    var inputs := set r | r in rules :: r.input;
    assert forall x :: x in inputs <==> IsInput(rules, x);
    var delayed := CollectDelayed(rules);
    ghost var runs, held := Flatten(RunParts(rules)), Flatten(DelayedParts(rules));
    ghost var plain := Flatten(ExplicitParts(rules));
    UpsertAllAppend(EMPTY_TABLE, runs, held);
    UpsertAllAppend(EMPTY_TABLE, runs + held, plain);
    var builder := new TableBuilder();
    builder.AddRuns(rules);
    builder.AddAllHeldBack(rules, inputs, delayed);
    builder.AddExplicit(rules, delayed);
    entries := builder.entries;
  }

  method BuildContent(rows: seq<RomajiRow>) returns (content: Option<string>)
    ensures content == Proofs.Content(rows)
  {
    var entries := BuildEntries(rows);
    if entries == [] {
      return None;
    }
    content := Some(Proofs.Print(entries));
  }
}
