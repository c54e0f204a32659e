/** The string operations the query code relies on: lower-casing (Python `str.lower`,
    JavaScript `toLowerCase`), substring search (`includes`) and the second piece of a
    JavaScript `split`. Lower-casing is modelled on ASCII letters only. */
module Text {
  import opened Wrappers

  function LowerChar(c: char): char {
    if 'A' <= c <= 'Z' then (c as int + 32) as char else c
  }

  function Lower(s: string): (r: string)
    ensures |r| == |s|
    ensures forall i :: 0 <= i < |s| ==> r[i] == LowerChar(s[i])
  {
    seq(|s|, i requires 0 <= i < |s| => LowerChar(s[i]))
  }

  predicate IsLower(s: string) {
    forall i :: 0 <= i < |s| ==> !('A' <= s[i] <= 'Z')
  }

  /** Lower-casing yields a lower-case string, leaves lower-case strings alone,
      and so is idempotent. */
  lemma LowerIsLower(s: string)
    ensures IsLower(Lower(s))
    ensures IsLower(s) ==> Lower(s) == s
    ensures Lower(Lower(s)) == Lower(s)
  {
    var l := Lower(s);
    assert IsLower(l);
    assert Lower(l) == l;
  }

  /** `sub` occurs in `s` starting at index `i`. */
  predicate OccursAt(s: string, sub: string, i: int) {
    0 <= i && i + |sub| <= |s| && s[i..i + |sub|] == sub
  }

  /** `s.includes(sub)`. */
  predicate Contains(s: string, sub: string) {
    exists i :: 0 <= i <= |s| && OccursAt(s, sub, i)
  }

  /** A string cannot contain a piece holding a character it lacks. */
  lemma ContainsOnlyItsChars(s: string, sub: string, c: char)
    requires c in sub && c !in s
    ensures !Contains(s, sub)
  {
    var k :| 0 <= k < |sub| && sub[k] == c;
    forall i | 0 <= i <= |s| ensures !OccursAt(s, sub, i) {
      if i + |sub| <= |s| {
        assert s[i..i + |sub|][k] == s[i + k];
      }
    }
  }

  /** `s.indexOf(sep)`, with None for -1: the first index at which `sep` occurs. */
  function IndexOf(s: string, sep: string): (r: Option<nat>)
    ensures r.Some? ==> OccursAt(s, sep, r.value)
    ensures r.Some? ==> forall j :: 0 <= j < r.value ==> !OccursAt(s, sep, j)
    ensures r.None? <==> !Contains(s, sep)
    decreases |s|
  {
    if |sep| <= |s| && s[..|sep|] == sep then
      assert OccursAt(s, sep, 0);
      Some(0)
    else if |s| == 0 then
      assert forall j :: 0 <= j <= |s| ==> !OccursAt(s, sep, j);
      None
    else
      var tail := IndexOf(s[1..], sep);
      assert forall j :: 1 <= j <= |s| ==> (OccursAt(s, sep, j) <==> OccursAt(s[1..], sep, j - 1));
      match tail
      case None =>
        assert forall j :: 0 <= j <= |s| ==> !OccursAt(s, sep, j);
        None
      case Some(k) =>
        assert OccursAt(s, sep, k + 1);
        Some(k + 1)
  }

  /** The first occurrence, once exhibited, is what `IndexOf` returns. */
  lemma IndexOfFirst(s: string, sep: string, i: nat)
    requires OccursAt(s, sep, i)
    requires forall j :: 0 <= j < i ==> !OccursAt(s, sep, j)
    ensures IndexOf(s, sep) == Some(i)
  {
    assert 0 <= i <= |s| && OccursAt(s, sep, i);
  }

  /** `s.split(sep)[1]`: the text between the first and the second occurrence of `sep`
      (or the end), and None (JavaScript `undefined`) when `sep` does not occur. */
  function SplitSecond(s: string, sep: string): (r: Option<string>)
    requires |sep| > 0
    ensures r.None? <==> !Contains(s, sep)
    ensures r.Some? ==> |r.value| + |sep| <= |s|
  {
    match IndexOf(s, sep)
    case None => None
    case Some(i) =>
      var rest := s[i + |sep|..];
      match IndexOf(rest, sep)
      case None => Some(rest)
      case Some(j) => Some(rest[..j])
  }

  /** When `sep`'s first character occurs in `s` only where `sep` starts at `i`, the
      second piece is everything after that occurrence. */
  lemma SplitSecondOnce(s: string, sep: string, i: nat)
    requires |sep| > 0 && OccursAt(s, sep, i)
    requires sep[0] !in s[..i] && sep[0] !in s[i + |sep|..]
    ensures SplitSecond(s, sep) == Some(s[i + |sep|..])
  {
    forall j | 0 <= j < i ensures !OccursAt(s, sep, j) {
      assert s[j] == s[..i][j];
      if j + |sep| <= |s| {
        assert s[j..j + |sep|][0] == s[j];
      }
    }
    IndexOfFirst(s, sep, i);
    var rest := s[i + |sep|..];
    ContainsOnlyItsChars(rest, sep, sep[0]);
    assert IndexOf(rest, sep).None?;
  }
}
