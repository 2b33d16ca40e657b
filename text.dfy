/** The two string operations the offset bring-up applies to a reply line:
    ordinal `String.Contains` and `String.Split(':', ' ')`, which cuts at
    every separator and keeps empty pieces. */
module Text {

  predicate IsSeparator(c: char)
  {
    c == ':' || c == ' '
  }

  predicate StartsWith(s: string, prefix: string)
  {
    |prefix| <= |s| && s[..|prefix|] == prefix
  }

  /** Ordinal substring test. */
  predicate Contains(s: string, sub: string)
  {
    StartsWith(s, sub) || (|s| > 0 && Contains(s[1..], sub))
  }

  /** `sub` occurs in `s` starting at position `i`. */
  predicate OccursAt(s: string, sub: string, i: int)
  {
    0 <= i <= |s| - |sub| && s[i..i + |sub|] == sub
  }

  lemma OccursAtShift(s: string, sub: string, i: int)
    requires |s| > 0 && i > 0
    ensures OccursAt(s, sub, i) <==> OccursAt(s[1..], sub, i - 1)
  {
    if 0 <= i <= |s| - |sub| {
      var a, b := s[i..i + |sub|], s[1..][i - 1..i - 1 + |sub|];
      forall k | 0 <= k < |sub|
        ensures a[k] == b[k]
      {
        assert a[k] == s[i + k] && b[k] == s[1..][i - 1 + k];
      }
      assert a == b;
    }
  }

  /** `Contains` holds exactly when `sub` occurs at some position of `s`. */
  lemma {:induction false} ContainsIff(s: string, sub: string)
    ensures Contains(s, sub) <==> exists i :: OccursAt(s, sub, i)
  {
    assert OccursAt(s, sub, 0) <==> StartsWith(s, sub);
    if |s| > 0 {
      ContainsIff(s[1..], sub);
      forall i | i > 0
        ensures OccursAt(s, sub, i) <==> OccursAt(s[1..], sub, i - 1)
      {
        OccursAtShift(s, sub, i);
      }
      if Contains(s[1..], sub) {
        var i :| OccursAt(s[1..], sub, i);
        assert OccursAt(s, sub, i + 1);
      }
    }
  }

  /** `s.Split(':', ' ')`. */
  function Split(s: string): (r: seq<string>)
    ensures |r| >= 1
  {
    if s == [] then [""]
    else
      var rest := Split(s[1..]);
      if IsSeparator(s[0]) then [""] + rest
      else [[s[0]] + rest[0]] + rest[1..]
  }

  /** The separators of `s`, in order. */
  function Separators(s: string): string
  {
    if s == [] then []
    else (if IsSeparator(s[0]) then [s[0]] else []) + Separators(s[1..])
  }

  /** Concatenates pieces with the given separators between them. */
  function Join(pieces: seq<string>, seps: string): string
    requires |pieces| == |seps| + 1
  {
    if seps == [] then pieces[0]
    else pieces[0] + [seps[0]] + Join(pieces[1..], seps[1..])
  }

  lemma {:induction false} JoinPrepend(c: char, pieces: seq<string>, seps: string)
    requires |pieces| == |seps| + 1
    ensures Join([[c] + pieces[0]] + pieces[1..], seps) == [c] + Join(pieces, seps)
  {
    var p' := [[c] + pieces[0]] + pieces[1..];
    assert p'[1..] == pieces[1..];
  }

  /** Splitting loses nothing: there is one more piece than separators, and
      joining the pieces with the separators gives the line back. */
  lemma {:induction false} SplitJoin(s: string)
    ensures |Split(s)| == |Separators(s)| + 1
    ensures Join(Split(s), Separators(s)) == s
  {
    if s != [] {
      SplitJoin(s[1..]);
      var rest := Split(s[1..]);
      if IsSeparator(s[0]) {
        var r := [""] + rest;
        assert r[1..] == rest;
        assert Separators(s) == [s[0]] + Separators(s[1..]);
        assert Separators(s)[1..] == Separators(s[1..]);
      } else {
        assert Separators(s) == Separators(s[1..]);
        JoinPrepend(s[0], rest, Separators(s[1..]));
        assert [s[0]] + s[1..] == s;
      }
    }
  }

  /** No piece of a split contains a separator. */
  lemma {:induction false} SplitPiecesHaveNoSeparator(s: string)
    ensures forall k, j :: 0 <= k < |Split(s)| && 0 <= j < |Split(s)[k]| ==> !IsSeparator(Split(s)[k][j])
  {
    if s != [] {
      SplitPiecesHaveNoSeparator(s[1..]);
    }
  }
}
