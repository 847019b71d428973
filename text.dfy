/**
 * String helpers the views use: `toLowerCase`, `toUpperCase`, `includes`
 * and `split(" ")`. Case mapping is restricted to the ASCII letters; every
 * other character maps to itself.
 */
module Text {

  /** Lower-cases an ASCII capital; every other character is kept. */
  function LowerChar(c: char): (d: char)
    ensures !('A' <= d <= 'Z')
    ensures !('A' <= c <= 'Z') ==> d == c
  {
    if 'A' <= c <= 'Z' then (c as int + 32) as char else c
  }

  /** Upper-cases an ASCII small letter; every other character is kept. */
  function UpperChar(c: char): (d: char)
    ensures !('a' <= d <= 'z')
    ensures !('a' <= c <= 'z') ==> d == c
  {
    if 'a' <= c <= 'z' then (c as int - 32) as char else c
  }

  /** `s.toLowerCase()`: each character mapped on its own, so the length is kept. */
  function Lower(s: string): (r: string)
    ensures |r| == |s|
    ensures forall i :: 0 <= i < |s| ==> r[i] == LowerChar(s[i])
    ensures forall i :: 0 <= i < |r| ==> !('A' <= r[i] <= 'Z')
  {
    seq(|s|, i requires 0 <= i < |s| => LowerChar(s[i]))
  }

  /** `s.toUpperCase()`. */
  function Upper(s: string): (r: string)
    ensures |r| == |s|
    ensures forall i :: 0 <= i < |s| ==> r[i] == UpperChar(s[i])
    ensures forall i :: 0 <= i < |r| ==> !('a' <= r[i] <= 'z')
  {
    seq(|s|, i requires 0 <= i < |s| => UpperChar(s[i]))
  }

  /** Lower-casing forgets an earlier upper-casing, and upper-casing an earlier lower-casing. */
  lemma CaseRoundTrip(c: char)
    ensures LowerChar(UpperChar(c)) == LowerChar(c)
    ensures UpperChar(LowerChar(c)) == UpperChar(c)
  {
  }

  /**
   * Two strings that differ at most in the case of their letters: at each
   * index the characters are equal, or one is the capital of the other.
   */
  predicate SameIgnoringCase(a: string, b: string) {
    && |a| == |b|
    && forall i :: 0 <= i < |a| ==> a[i] == b[i] || a[i] == UpperChar(b[i]) || UpperChar(a[i]) == b[i]
  }

  /** Strings that differ only in letter case lower-case to the same string. */
  lemma SameIgnoringCaseLower(a: string, b: string)
    requires SameIgnoringCase(a, b)
    ensures Lower(a) == Lower(b)
  {
    forall i | 0 <= i < |a| ensures LowerChar(a[i]) == LowerChar(b[i]) {
      CaseRoundTrip(a[i]);
      CaseRoundTrip(b[i]);
    }
  }

  /** A string and its upper-cased copy differ only in letter case. */
  lemma UpperSameIgnoringCase(s: string)
    ensures SameIgnoringCase(Upper(s), s)
    ensures SameIgnoringCase(Lower(s), s)
  {
    forall i | 0 <= i < |s| ensures LowerChar(s[i]) == s[i] || UpperChar(LowerChar(s[i])) == s[i] {
      CaseRoundTrip(s[i]);
    }
  }

  /** `q` occurs in `s` starting at index `i`. */
  predicate OccursAt(s: string, q: string, i: int) {
    0 <= i && i + |q| <= |s| && s[i..i + |q|] == q
  }

  /** `s.includes(q)`: `q` is a prefix of `s` or of one of its suffixes. */
  predicate Contains(s: string, q: string)
    ensures q == [] ==> Contains(s, q)
    ensures Contains(s, q) ==> |q| <= |s|
    decreases |s|
  {
    q <= s || (s != [] && Contains(s[1..], q))
  }

  /** Where `Contains` holds, it holds because of an occurrence at some index. */
  lemma {:induction false} ContainsWitness(s: string, q: string) returns (i: int)
    requires Contains(s, q)
    ensures OccursAt(s, q, i)
    decreases |s|
  {
    if q <= s {
      i := 0;
      assert s[0..|q|] == q;
    } else {
      var j := ContainsWitness(s[1..], q);
      assert s[1..][j..j + |q|] == s[j + 1..j + 1 + |q|];
      i := j + 1;
    }
  }

  /** An occurrence at any index makes `Contains` hold. */
  lemma {:induction false} OccursContains(s: string, q: string, i: int)
    requires OccursAt(s, q, i)
    ensures Contains(s, q)
    decreases i
  {
    if i == 0 {
      assert s[..|q|] == q;
    } else {
      assert s[1..][i - 1..i - 1 + |q|] == s[i..i + |q|];
      OccursContains(s[1..], q, i - 1);
    }
  }

  /** `Contains` finds exactly the occurrences of `q` at some index of `s`. */
  lemma ContainsIffOccurs(s: string, q: string)
    ensures Contains(s, q) <==> exists i :: OccursAt(s, q, i)
  {
    if Contains(s, q) {
      var i := ContainsWitness(s, q);
    }
    forall i | OccursAt(s, q, i) ensures Contains(s, q) {
      OccursContains(s, q, i);
    }
  }

  /**
   * `s.split(" ")`: the pieces between single spaces. Two adjacent spaces,
   * or a leading or trailing space, give an empty piece; `""` splits into `[""]`.
   */
  function SplitOnSpace(s: string): (r: seq<string>)
    ensures |r| >= 1
    ensures forall k :: 0 <= k < |r| ==> ' ' !in r[k]
  {
    if s == [] then [""]
    else
      var rest := SplitOnSpace(s[1..]);
      if s[0] == ' ' then [""] + rest
      else [[s[0]] + rest[0]] + rest[1..]
  }

  /** `pieces.join(sep)`. */
  function JoinWith(pieces: seq<string>, sep: char): string
    requires |pieces| >= 1
  {
    if |pieces| == 1 then pieces[0] else pieces[0] + [sep] + JoinWith(pieces[1..], sep)
  }

  /** Splitting on spaces loses nothing: joining the pieces with spaces gives the input back. */
  lemma {:induction false} JoinSplit(s: string)
    ensures JoinWith(SplitOnSpace(s), ' ') == s
  {
    if s != [] {
      var rest := SplitOnSpace(s[1..]);
      JoinSplit(s[1..]);
      if s[0] == ' ' {
        assert ([""] + rest)[1..] == rest;
      } else {
        var pieces := [[s[0]] + rest[0]] + rest[1..];
        if |rest| > 1 {
          assert pieces[1..] == rest[1..];
        }
      }
    }
  }

  /** Conversely, pieces without spaces come back unchanged from a join and a split. */
  lemma {:induction false} SplitJoin(pieces: seq<string>)
    requires |pieces| >= 1
    requires forall k :: 0 <= k < |pieces| ==> ' ' !in pieces[k]
    ensures SplitOnSpace(JoinWith(pieces, ' ')) == pieces
    decreases |pieces|, |pieces[0]|
  {
    var p := pieces[0];
    if p == [] {
      if |pieces| > 1 {
        SplitJoin(pieces[1..]);
        assert JoinWith(pieces, ' ') == [' '] + JoinWith(pieces[1..], ' ');
        assert ([' '] + JoinWith(pieces[1..], ' '))[1..] == JoinWith(pieces[1..], ' ');
        assert pieces == [""] + pieces[1..];
      }
    } else {
      var tail := [p[1..]] + pieces[1..];
      assert tail[1..] == pieces[1..];
      SplitJoin(tail);
      assert JoinWith(pieces, ' ') == [p[0]] + JoinWith(tail, ' ');
      assert ([p[0]] + JoinWith(tail, ' '))[1..] == JoinWith(tail, ' ');
      assert [p[0]] + p[1..] == p;
    }
  }
}
