/** PHP's `str_replace` for a single search string: the subject is scanned
    left to right and every non-overlapping occurrence is replaced. */
module StrReplace {

  predicate StartsWith(s: string, p: string) {
    |p| <= |s| && s[..|p|] == p
  }

  /** `p` occurs in `s` at position `i`. */
  predicate OccursAt(s: string, p: string, i: int) {
    0 <= i && i + |p| <= |s| && s[i..i + |p|] == p
  }

  /** `p` occurs somewhere in `s`. */
  ghost predicate Occurs(s: string, p: string) {
    exists i :: OccursAt(s, p, i)
  }

  /** `str_replace($search, $replace, $s)`; an empty search string leaves
      the subject as it is. */
  function ReplaceAll(s: string, search: string, replace: string): string
    decreases |s|
  {
    if |search| == 0 || |s| == 0 then s
    else if StartsWith(s, search) then replace + ReplaceAll(s[|search|..], search, replace)
    else [s[0]] + ReplaceAll(s[1..], search, replace)
  }

  /** Replacing by something no longer never lengthens the subject. */
  lemma {:induction false} ReplaceNeverLonger(s: string, search: string, replace: string)
    requires |replace| <= |search|
    ensures |ReplaceAll(s, search, replace)| <= |s|
    decreases |s|
  {
    if |search| > 0 && |s| > 0 {
      if StartsWith(s, search) {
        ReplaceNeverLonger(s[|search|..], search, replace);
      } else {
        ReplaceNeverLonger(s[1..], search, replace);
      }
    }
  }

  /** A subject in which the search string does not occur is left alone. */
  lemma {:induction false} ReplaceAbsent(s: string, search: string, replace: string)
    requires !Occurs(s, search)
    ensures ReplaceAll(s, search, replace) == s
    decreases |s|
  {
    if |search| > 0 && |s| > 0 {
      assert !StartsWith(s, search) by {
        assert !OccursAt(s, search, 0);
        assert |search| <= |s| ==> s[0..|search|] == s[..|search|];
      }
      forall i | 0 <= i < |s[1..]|
        ensures !OccursAt(s[1..], search, i)
      {
        assert !OccursAt(s, search, i + 1);
        assert i + |search| <= |s[1..]| ==> s[1..][i..i + |search|] == s[i + 1..i + 1 + |search|];
      }
      ReplaceAbsent(s[1..], search, replace);
    }
  }

  /** A search string cannot occur where its first character does not. */
  lemma FirstCharAbsent(s: string, search: string)
    requires |search| > 0 && search[0] !in s
    ensures !Occurs(s, search)
  {
    forall i | 0 <= i < |s|
      ensures !OccursAt(s, search, i)
    {
      if i + |search| <= |s| {
        assert s[i..i + |search|][0] == s[i];
      }
    }
  }

  /** `explode($search, $s)`: the pieces between the occurrences that the
      left-to-right scan finds. */
  function Explode(s: string, search: string): (parts: seq<string>)
    requires |search| > 0
    ensures |parts| >= 1
    decreases |s|
  {
    if |s| == 0 then [""]
    else if StartsWith(s, search) then [""] + Explode(s[|search|..], search)
    else
      var rest := Explode(s[1..], search);
      [[s[0]] + rest[0]] + rest[1..]
  }

  /** `implode($glue, $parts)`. */
  function Implode(parts: seq<string>, glue: string): string
    requires |parts| >= 1
    decreases |parts|
  {
    if |parts| == 1 then parts[0] else parts[0] + glue + Implode(parts[1..], glue)
  }

  lemma {:induction false} ImplodeConsChar(c: char, parts: seq<string>, glue: string)
    requires |parts| >= 1
    ensures Implode([[c] + parts[0]] + parts[1..], glue) == [c] + Implode(parts, glue)
  {
    var ps := [[c] + parts[0]] + parts[1..];
    if |parts| > 1 {
      assert ps[1..] == parts[1..];
    }
  }

  /** `str_replace` agrees with the explode-then-implode reading of it. */
  lemma {:induction false} ReplaceIsExplodeImplode(s: string, search: string, replace: string)
    requires |search| > 0
    ensures ReplaceAll(s, search, replace) == Implode(Explode(s, search), replace)
    decreases |s|
  {
    if |s| > 0 {
      if StartsWith(s, search) {
        ReplaceIsExplodeImplode(s[|search|..], search, replace);
        var parts := [""] + Explode(s[|search|..], search);
        assert parts[1..] == Explode(s[|search|..], search);
      } else {
        ReplaceIsExplodeImplode(s[1..], search, replace);
        ImplodeConsChar(s[0], Explode(s[1..], search), replace);
      }
    }
  }
}
