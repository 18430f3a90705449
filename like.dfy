/** SQLite's LIKE operator, as the month query uses it: `%` matches any run
    of characters, `_` any one character, and every other pattern
    character matches itself with the ASCII letters compared without
    regard to case. No ESCAPE clause is used. */
module SqlLike {
  import opened Text

  predicate IsWildcard(c: char) {
    c == '%' || c == '_'
  }

  /** `s LIKE p`. */
  predicate Like(s: string, p: string)
    decreases |s| + |p|
  {
    if p == [] then s == []
    else if p[0] == '%' then Like(s, p[1..]) || (s != [] && Like(s[1..], p))
    else s != [] && (p[0] == '_' || LowerChar(s[0]) == LowerChar(p[0])) && Like(s[1..], p[1..])
  }

  /** A lone `%` matches every string. */
  lemma {:induction false} LikeAny(s: string)
    ensures Like(s, "%")
    decreases |s|
  {
    if s != [] {
      LikeAny(s[1..]);
    }
  }

  /** A pattern made of a wildcard-free text q and a trailing `%` matches
      exactly the strings that start with q, up to the case of ASCII
      letters: the query `day LIKE month || '-%'` is a prefix test. */
  lemma {:induction false} LikePrefix(s: string, q: string)
    requires forall i :: 0 <= i < |q| ==> !IsWildcard(q[i])
    ensures Like(s, q + "%") <==> |q| <= |s| && Lower(s[..|q|]) == Lower(q)
    decreases |q|
  {
    if q == [] {
      LikeAny(s);
      assert q + "%" == "%";
    } else {
      var p := q + "%";
      assert p[0] == q[0] && p[1..] == q[1..] + "%";
      LikePrefix(if s == [] then s else s[1..], q[1..]);
      if s != [] && |q| <= |s| {
        var a, b := Lower(s[..|q|]), Lower(q);
        assert a == [LowerChar(s[0])] + Lower(s[1..][..|q| - 1]);
        assert b == [LowerChar(q[0])] + Lower(q[1..]);
      }
    }
  }
}
