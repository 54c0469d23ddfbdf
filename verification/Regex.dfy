/** The part of Go's regular expressions that the commit linters use, by the words they match. */
module Regex {

  datatype Regex =
    | Word(w: string)
    | OneOf(accepts: char -> bool)
    | Cat(first: Regex, then_: Regex)
    | Alt(one: Regex, other: Regex)
    | Star(body: Regex)

  function Plus(r: Regex): Regex { Cat(r, Star(r)) }

  function Maybe(r: Regex): Regex { Alt(Word(""), r) }

  /** The expression matches the whole of `s`. */
  predicate Matches(r: Regex, s: string)
    decreases r, |s|
  {
    match r
    case Word(w) => s == w
    case OneOf(accepts) => |s| == 1 && accepts(s[0])
    case Cat(a, b) => exists i :: 0 <= i <= |s| && Matches(a, s[..i]) && Matches(b, s[i..])
    case Alt(a, b) => Matches(a, s) || Matches(b, s)
    case Star(a) => s == "" || exists i :: 0 < i <= |s| && Matches(a, s[..i]) && Matches(r, s[i..])
  }

  /** An expression anchored at the start only matches some prefix. */
  predicate MatchesPrefix(r: Regex, s: string) {
    exists k :: 0 <= k <= |s| && Matches(r, s[..k])
  }

  predicate AllIn(s: string, accepts: char -> bool) {
    forall k :: 0 <= k < |s| ==> accepts(s[k])
  }

  lemma CatMatches(a: Regex, b: Regex, s: string, t: string)
    requires Matches(a, s) && Matches(b, t)
    ensures Matches(Cat(a, b), s + t)
  {
    assert (s + t)[..|s|] == s && (s + t)[|s|..] == t;
  }

  lemma CatSplits(a: Regex, b: Regex, s: string) returns (x: string, y: string)
    requires Matches(Cat(a, b), s)
    ensures s == x + y && Matches(a, x) && Matches(b, y)
  {
    var i :| 0 <= i <= |s| && Matches(a, s[..i]) && Matches(b, s[i..]);
    x, y := s[..i], s[i..];
  }

  lemma {:induction false} StarOfClass(accepts: char -> bool, s: string)
    ensures Matches(Star(OneOf(accepts)), s) <==> AllIn(s, accepts)
    decreases |s|
  {
    if s != "" {
      StarOfClass(accepts, s[1..]);
      assert s[..1] == [s[0]];
      assert Matches(OneOf(accepts), s[..1]) <==> accepts(s[0]);
      assert AllIn(s, accepts) <==> accepts(s[0]) && AllIn(s[1..], accepts) by {
        assert forall k :: 1 <= k < |s| ==> s[k] == s[1..][k - 1];
      }
      if Matches(Star(OneOf(accepts)), s) {
        var i :| 0 < i <= |s| && Matches(OneOf(accepts), s[..i]) && Matches(Star(OneOf(accepts)), s[i..]);
        assert i == 1;
      }
    }
  }

  lemma PlusOfClass(accepts: char -> bool, s: string)
    ensures Matches(Plus(OneOf(accepts)), s) <==> s != "" && AllIn(s, accepts)
  {
    if s != "" {
      StarOfClass(accepts, s);
      StarOfClass(accepts, s[1..]);
      assert s[..1] == [s[0]];
      assert AllIn(s, accepts) <==> accepts(s[0]) && AllIn(s[1..], accepts) by {
        assert forall k :: 1 <= k < |s| ==> s[k] == s[1..][k - 1];
      }
      if AllIn(s, accepts) {
        assert Matches(OneOf(accepts), s[..1]) && Matches(Star(OneOf(accepts)), s[1..]);
      }
    }
  }
}
