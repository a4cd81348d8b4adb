/** String surgery shared by the client, the conversion server and the romaji tables.
    A string is a sequence of Unicode scalar values. */
module Text {

  datatype Option<+T> = None | Some(value: T)
  {
    function GetOr(default: T): T {
      match this
      case Some(v) => v
      case None => default
    }
  }

  predicate EndsWith(s: string, tail: string) {
    |tail| <= |s| && s[|s| - |tail|..] == tail
  }

  function StripPrefix(s: string, head: string): (r: Option<string>)
    ensures r.Some? <==> exists rest :: s == head + rest
    ensures r.Some? ==> s == head + r.value
  {
    if head <= s then
      assert s == head + s[|head|..];
      Some(s[|head|..])
    else None
  }

  function StripSuffix(s: string, tail: string): (r: Option<string>)
    ensures r.Some? <==> EndsWith(s, tail)
    ensures r.Some? ==> s == r.value + tail
  {
    if EndsWith(s, tail) then Some(s[..|s| - |tail|]) else None
  }

  /** The first `n` characters dropped, saturating at both ends. */
  function Skip<T>(s: seq<T>, n: int): seq<T> {
    if n <= 0 then s else if n >= |s| then [] else s[n..]
  }

  /** The first `n` characters, saturating at both ends. */
  function Take<T>(s: seq<T>, n: int): seq<T> {
    if n <= 0 then [] else if n >= |s| then s else s[..n]
  }

  lemma SkipSkip<T>(s: seq<T>, m: int, n: int)
    requires 0 <= m && 0 <= n
    ensures Skip(Skip(s, m), n) == Skip(s, m + n)
  {
  }

  lemma PrefixTransitive(a: string, b: string, c: string)
    requires a <= b <= c
    ensures a <= c
  {
  }

  /** The element at a possibly out-of-range index, or a default. */
  function At<T>(s: seq<T>, i: int, default: T): T {
    if 0 <= i < |s| then s[i] else default
  }
}
