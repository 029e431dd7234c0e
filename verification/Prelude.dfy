// Result and option types shared by the other modules.
module Prelude {

  datatype Option<+T> = None | Some(value: T)

  datatype Result<+T, +E> = Ok(value: T) | Err(error: E)
}

/** Prefixes, and the first occurrence of a character. */
module Strings {

  predicate StartsWith(s: string, t: string) {
    |t| <= |s| && s[..|t|] == t
  }

  lemma StartsWithSplit(s: string, t: string)
    requires StartsWith(s, t)
    ensures s == t + s[|t|..]
  {}

  /** The position of the first `c`, or the length when there is none, as `std::find` gives it. */
  function IndexOf(s: string, c: char): (n: nat)
    ensures n <= |s| && c !in s[..n] && (n < |s| ==> s[n] == c)
  {
    if s == "" || s[0] == c then 0
    else
      var n := IndexOf(s[1..], c);
      assert s[..n + 1] == [s[0]] + s[1..][..n];
      n + 1
  }

  lemma IndexOfAppend(s: string, c: char, rest: string)
    requires c !in s && (rest == "" || rest[0] == c)
    ensures IndexOf(s + rest, c) == |s|
  {
    assert (s + rest)[..|s|] == s;
  }
}
