/** Rows of the user's romaji table, as the client and the server both read them. */
module RomajiRows {
  import opened Text

  datatype RomajiRow = RomajiRow(input: string, output: string, nextInput: Option<string>)

  predicate IsWhitespace(c: char) {
    '\U{0009}' <= c <= '\U{000D}' || c in {'\U{0020}', '\U{0085}', '\U{00A0}', '\U{1680}', '\U{2028}', '\U{2029}',
                                           '\U{202F}', '\U{205F}', '\U{3000}'}
      || '\U{2000}' <= c <= '\U{200A}'
  }

  function TrimStart(s: string): (r: string)
    ensures |r| <= |s|
    ensures r != "" ==> !IsWhitespace(r[0])
  {
    if s != "" && IsWhitespace(s[0]) then TrimStart(s[1..]) else s
  }

  function TrimEnd(s: string): (r: string)
    ensures r <= s
    ensures r != "" ==> !IsWhitespace(r[|r| - 1])
  {
    if s != "" && IsWhitespace(s[|s| - 1]) then TrimEnd(s[..|s| - 1]) else s
  }

  function Trim(s: string): string {
    TrimEnd(TrimStart(s))
  }

  lemma {:induction false} TrimStartDrops(s: string)
    ensures exists k :: 0 <= k <= |s| && TrimStart(s) == s[k..]
  {
    if s != "" && IsWhitespace(s[0]) {
      TrimStartDrops(s[1..]);
      var k :| 0 <= k <= |s[1..]| && TrimStart(s[1..]) == s[1..][k..];
      assert s[k + 1..] == s[1..][k..];
    } else {
      assert s[0..] == s;
    }
  }

  /** Trimming only takes characters away. */
  lemma TrimCharacters(s: string, c: char)
    requires c in Trim(s)
    ensures c in s
  {
    TrimStartDrops(s);
    var k :| 0 <= k <= |s| && TrimStart(s) == s[k..];
    assert c in s[k..];
  }
}
