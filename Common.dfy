/** Shared result and error types, and the one string predicate every scanner uses. */
module Common {

  datatype Option<+T> = None | Some(value: T)

  /** The failures the tool can stop on. A Rust panic is kept apart from the
      error values the code returns on purpose. */
  datatype Error =
    | MalformedLine(line: string)      // a catalog line holds no '"' at all
    | Panic(reason: string)            // an out-of-order slice or an index past the end
    | RetriesExhausted(maxRetries: nat)
    | DecodeFailed                     // an OK reply whose body is not the expected JSON

  datatype Result<+T> = Ok(value: T) | Err(error: Error)

  /** `str::starts_with` */
  predicate StartsWith(s: string, prefix: string)
  {
    |prefix| <= |s| && s[..|prefix|] == prefix
  }

  /** `str::find(ch)`: the first position of `ch`. */
  function FindChar(s: string, ch: char): (r: Option<nat>)
    ensures r.None? <==> ch !in s
    ensures r.Some? ==> r.value < |s| && s[r.value] == ch && ch !in s[..r.value]
  {
    if s == [] then None
    else if s[0] == ch then Some(0)
    else match FindChar(s[1..], ch)
      case None => None
      case Some(k) => assert s[..k + 1] == [s[0]] + s[1..][..k]; Some(k + 1)
  }

  /** `str::rfind(ch)`: the last position of `ch`. */
  function RFindChar(s: string, ch: char): (r: Option<nat>)
    ensures r.None? <==> ch !in s
    ensures r.Some? ==> r.value < |s| && s[r.value] == ch && ch !in s[r.value + 1..]
  {
    if s == [] then None
    else if s[|s| - 1] == ch then Some(|s| - 1)
    else
      var r := RFindChar(s[..|s| - 1], ch);
      assert r.Some? ==> s[r.value + 1..] == s[..|s| - 1][r.value + 1..] + [s[|s| - 1]];
      assert s == s[..|s| - 1] + [s[|s| - 1]];
      r
  }

  /** The first `ch` of `a + [ch] + b` is the one after `a` when `a` holds none. */
  lemma FindCharAfter(a: string, ch: char, b: string)
    requires ch !in a
    ensures FindChar(a + [ch] + b, ch) == Some(|a|)
  {
    var s := a + [ch] + b;
    assert s[|a|] == ch;
    assert s[..|a|] == a;
  }
}
