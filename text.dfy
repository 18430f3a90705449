/** Character classes, trimming, case mapping, substring search, decimal
    numerals and the lexicographic string order shared by both halves of the
    tracker (the browser client and the HTTP service). */
module Text {

  /** The code points JavaScript counts as WhiteSpace or LineTerminator:
      what String.prototype.trim removes and what the regular-expression
      class \s matches. */
  predicate IsJsSpace(c: char) {
    c == '\t' || c == '\n' || c == '\U{000B}' || c == '\U{000C}' || c == '\r' || c == ' '
    || c == '\U{00A0}' || c == '\U{1680}' || ('\U{2000}' <= c <= '\U{200A}')
    || c == '\U{2028}' || c == '\U{2029}' || c == '\U{202F}' || c == '\U{205F}'
    || c == '\U{3000}' || c == '\U{FEFF}'
  }

  /** The code points for which Python's str.isspace() holds: what
      str.strip() removes. */
  predicate IsPySpace(c: char) {
    ('\t' <= c <= '\r') || ('\U{001C}' <= c <= '\U{001F}') || c == ' '
    || c == '\U{0085}' || c == '\U{00A0}' || c == '\U{1680}' || ('\U{2000}' <= c <= '\U{200A}')
    || c == '\U{2028}' || c == '\U{2029}' || c == '\U{202F}' || c == '\U{205F}' || c == '\U{3000}'
  }

  predicate HasNo(s: string, sp: char -> bool) {
    forall i :: 0 <= i < |s| ==> !sp(s[i])
  }

  /** Drops the longest prefix of characters satisfying sp. */
  function TrimLeft(s: string, sp: char -> bool): (r: string)
    ensures |r| <= |s| && r == s[|s| - |r|..]
    ensures r == [] || !sp(r[0])
    ensures forall i :: 0 <= i < |s| - |r| ==> sp(s[i])
  {
    if s != [] && sp(s[0]) then TrimLeft(s[1..], sp) else s
  }

  /** Drops the longest suffix of characters satisfying sp. */
  function TrimRight(s: string, sp: char -> bool): (r: string)
    ensures |r| <= |s| && r == s[..|r|]
    ensures r == [] || !sp(r[|r| - 1])
    ensures forall i :: |r| <= i < |s| ==> sp(s[i])
  {
    if s != [] && sp(s[|s| - 1]) then TrimRight(s[..|s| - 1], sp) else s
  }

  function Trim(s: string, sp: char -> bool): string {
    TrimRight(TrimLeft(s, sp), sp)
  }

  /** String.prototype.trim. */
  function JsTrim(s: string): (r: string)
    ensures r == [] || (!IsJsSpace(r[0]) && !IsJsSpace(r[|r| - 1]))
    ensures |r| <= |s|
  {
    Trim(s, IsJsSpace)
  }

  /** Python's str.strip() with no argument. */
  function PyStrip(s: string): (r: string)
    ensures r == [] || (!IsPySpace(r[0]) && !IsPySpace(r[|r| - 1]))
    ensures |r| <= |s|
  {
    Trim(s, IsPySpace)
  }

  /** A string with nothing to strip at either end is its own trim. */
  lemma TrimOfTrimmed(s: string, sp: char -> bool)
    requires s == [] || (!sp(s[0]) && !sp(s[|s| - 1]))
    ensures Trim(s, sp) == s
  {
  }

  /** A prefix of characters satisfying sp makes no difference to the
      left trim. */
  lemma {:induction false} TrimLeftSkips(pad: string, s: string, sp: char -> bool)
    requires forall i :: 0 <= i < |pad| ==> sp(pad[i])
    ensures TrimLeft(pad + s, sp) == TrimLeft(s, sp)
    decreases |pad|
  {
    if pad != [] {
      var t := pad + s;
      assert t[1..] == pad[1..] + s;
      assert t[0] == pad[0] && sp(t[0]);
      assert TrimLeft(t, sp) == TrimLeft(t[1..], sp);
      TrimLeftSkips(pad[1..], s, sp);
    } else {
      assert pad + s == s;
    }
  }

  /** Trimming twice is trimming once. */
  lemma {:induction false} TrimIdempotent(s: string, sp: char -> bool)
    ensures Trim(Trim(s, sp), sp) == Trim(s, sp)
  {
    var t := Trim(s, sp);
    var l := TrimLeft(s, sp);
    assert t == TrimRight(l, sp);
    if t != [] {
      assert t[0] == l[0];
    }
    TrimOfTrimmed(t, sp);
  }

  // ---------------------------------------------------------------------
  // Case mapping. Both runtimes apply full Unicode case mapping; this model
  // folds the ASCII letters only.

  function LowerChar(c: char): char {
    if 'A' <= c <= 'Z' then (c as int + 32) as char else c
  }

  function Lower(s: string): (r: string)
    ensures |r| == |s|
    ensures forall i :: 0 <= i < |s| ==> r[i] == LowerChar(s[i])
  {
    seq(|s|, i requires 0 <= i < |s| => LowerChar(s[i]))
  }

  predicate IsLowerCase(s: string) {
    forall i :: 0 <= i < |s| ==> !('A' <= s[i] <= 'Z')
  }

  lemma LowerIsLowerCase(s: string)
    ensures IsLowerCase(Lower(s))
    ensures Lower(Lower(s)) == Lower(s)
  {
  }

  /** Lower-casing preserves every character class that contains no ASCII
      letter, in particular both whitespace classes. */
  lemma LowerKeepsSpaces(c: char)
    ensures IsJsSpace(LowerChar(c)) == IsJsSpace(c)
    ensures IsPySpace(LowerChar(c)) == IsPySpace(c)
  {
  }

  // ---------------------------------------------------------------------
  // Substring search (Python's `in` on strings, str.startswith).

  predicate IsPrefix(p: string, s: string) {
    |p| <= |s| && s[..|p|] == p
  }

  /** sub occurs in s starting at index i. */
  predicate OccursAt(s: string, sub: string, i: int) {
    0 <= i <= |s| - |sub| && s[i..i + |sub|] == sub
  }

  /** `sub in s`. */
  function Contains(s: string, sub: string): (r: bool)
    ensures r <==> exists i :: OccursAt(s, sub, i)
  {
    if IsPrefix(sub, s) then
      assert OccursAt(s, sub, 0);
      true
    else if s == [] then
      false
    else
      var r := Contains(s[1..], sub);
      assert forall i :: OccursAt(s, sub, i) ==> i >= 1 && OccursAt(s[1..], sub, i - 1);
      assert forall i :: OccursAt(s[1..], sub, i) ==> OccursAt(s, sub, i + 1);
      r
  }

  /** Substring search is unaffected by characters appended after a match. */
  lemma ContainsExtend(s: string, t: string, sub: string)
    requires Contains(s, sub)
    ensures Contains(s + t, sub)
  {
    var i :| OccursAt(s, sub, i);
    assert (s + t)[i..i + |sub|] == sub;
    assert OccursAt(s + t, sub, i);
  }

  // ---------------------------------------------------------------------
  // Joining and whitespace splitting.

  /** Array.prototype.join(sep) on strings. */
  function Join(parts: seq<string>, sep: string): (r: string)
  {
    if parts == [] then ""
    else if |parts| == 1 then parts[0]
    else parts[0] + sep + Join(parts[1..], sep)
  }

  /** A join of non-empty words by one space neither starts nor ends with
      whitespace. */
  lemma {:induction false} JoinWordsTrimmed(ws: seq<string>)
    requires |ws| >= 1
    requires forall k :: 0 <= k < |ws| ==> IsWord(ws[k])
    ensures var j := Join(ws, " "); j != [] && !IsJsSpace(j[0]) && !IsJsSpace(j[|j| - 1])
    decreases |ws|
  {
    var w := ws[0];
    assert IsWord(w);
    if |ws| > 1 {
      var tail := ws[1..];
      assert forall k :: 0 <= k < |tail| ==> IsWord(tail[k]) by {
        forall k | 0 <= k < |tail| ensures IsWord(tail[k]) {
          assert tail[k] == ws[k + 1];
        }
      }
      JoinWordsTrimmed(tail);
      var rest := Join(tail, " ");
      var j := w + " " + rest;
      assert Join(ws, " ") == j;
      assert j[0] == w[0];
      assert j[|j| - 1] == rest[|rest| - 1];
    }
  }

  /** Index of the first character satisfying sp, or |s| if there is none. */
  function FirstWhere(s: string, sp: char -> bool): (k: nat)
    ensures k <= |s|
    ensures forall i :: 0 <= i < k ==> !sp(s[i])
    ensures k < |s| ==> sp(s[k])
  {
    if s == [] || sp(s[0]) then 0 else 1 + FirstWhere(s[1..], sp)
  }

  /** String.prototype.split(/\s+/): the pieces between maximal runs of
      whitespace; a leading or trailing run yields an empty piece. */
  function SplitWs(s: string): (parts: seq<string>)
    ensures |parts| >= 1
    ensures forall k :: 0 <= k < |parts| ==> HasNo(parts[k], IsJsSpace)
    decreases |s|
  {
    var i := FirstWhere(s, IsJsSpace);
    if i == |s| then [s]
    else
      var rest := s[i..];
      var j := i + FirstWhere(rest, c => !IsJsSpace(c));
      [s[..i]] + SplitWs(s[j..])
  }

  predicate IsWord(w: string) {
    w != [] && HasNo(w, IsJsSpace)
  }

  /** One word, one space, then text that starts with a non-space: the
      split yields the word and then the split of the text. */
  lemma SplitWsWordThen(w: string, rest: string)
    requires IsWord(w)
    requires rest != [] && !IsJsSpace(rest[0])
    ensures SplitWs(w + " " + rest) == [w] + SplitWs(rest)
  {
    var s := w + " " + rest;
    assert s == w + (" " + rest);
    FirstWhereAfter(w, " " + rest, IsJsSpace);
    var i := FirstWhere(s, IsJsSpace);
    assert i == |w|;
    assert s[i..] == " " + rest;
    FirstWhereAfter(" ", rest, c => !IsJsSpace(c));
    var j := i + FirstWhere(s[i..], c => !IsJsSpace(c));
    assert j == |w| + 1;
    assert s[..i] == w;
    assert s[j..] == rest;
  }

  /** Splitting words joined by single spaces gives the words back. */
  lemma {:induction false} SplitJoin(ws: seq<string>)
    requires |ws| >= 1
    requires forall k :: 0 <= k < |ws| ==> IsWord(ws[k])
    ensures SplitWs(Join(ws, " ")) == ws
    decreases |ws|
  {
    var w := ws[0];
    assert IsWord(w);
    if |ws| == 1 {
      assert Join(ws, " ") == w;
      assert FirstWhere(w, IsJsSpace) == |w|;
    } else {
      var tail := ws[1..];
      assert IsWord(tail[0]);
      var rest := Join(tail, " ");
      assert Join(ws, " ") == w + " " + rest;
      assert rest != [] && rest[0] == tail[0][0];
      SplitWsWordThen(w, rest);
      SplitJoin(tail);
      assert [w] + tail == ws;
    }
  }

  /** FirstWhere looks past a prefix none of whose characters match. */
  lemma FirstWhereAfter(p: string, s: string, sp: char -> bool)
    requires HasNo(p, sp)
    requires s != [] && sp(s[0])
    ensures FirstWhere(p + s, sp) == |p|
    decreases |p|
  {
    if p != [] {
      assert (p + s)[1..] == p[1..] + s;
      FirstWhereAfter(p[1..], s, sp);
    }
  }

  // ---------------------------------------------------------------------
  // Decimal numerals.

  predicate IsDigit(c: char) {
    '0' <= c <= '9'
  }

  predicate AllDigits(s: string) {
    forall i :: 0 <= i < |s| ==> IsDigit(s[i])
  }

  function DigitChar(d: nat): (c: char)
    requires d < 10
    ensures IsDigit(c) && c as int - '0' as int == d
  {
    ('0' as int + d) as char
  }

  /** String(n) for a non-negative integer: no leading zero except "0". */
  function NatToDecimal(n: nat): (r: string)
    ensures |r| >= 1 && AllDigits(r)
    ensures r[0] == '0' ==> n == 0
  {
    if n < 10 then [DigitChar(n)] else NatToDecimal(n / 10) + [DigitChar(n % 10)]
  }

  /** String(i) for an integer. */
  function IntToDecimal(i: int): (r: string)
    ensures |r| >= 1
    ensures i >= 0 <==> IsDigit(r[0])
  {
    if i < 0 then "-" + NatToDecimal(-i) else NatToDecimal(i)
  }

  /** The value of a string of decimal digits (0 for the empty string). */
  function DigitsValue(s: string): nat
    requires AllDigits(s)
  {
    if s == [] then 0 else DigitsValue(s[..|s| - 1]) * 10 + (s[|s| - 1] as int - '0' as int)
  }

  lemma {:induction false} DecimalRoundTrip(n: nat)
    ensures DigitsValue(NatToDecimal(n)) == n
  {
    if n >= 10 {
      DecimalRoundTrip(n / 10);
      var s := NatToDecimal(n);
      assert s[..|s| - 1] == NatToDecimal(n / 10);
    }
  }

  /** Index of the first non-digit, or |s|. */
  function DigitRun(s: string): (k: nat)
    ensures k <= |s| && AllDigits(s[..k])
    ensures k < |s| ==> !IsDigit(s[k])
  {
    if s == [] || !IsDigit(s[0]) then 0
    else
      var k := 1 + DigitRun(s[1..]);
      assert s[..k] == [s[0]] + s[1..][..k - 1];
      k
  }

  lemma DigitRunOfDigits(s: string, t: string)
    requires AllDigits(s)
    requires t == [] || !IsDigit(t[0])
    ensures DigitRun(s + t) == |s|
    decreases |s|
  {
    if s != [] {
      assert (s + t)[1..] == s[1..] + t;
      DigitRunOfDigits(s[1..], t);
    }
  }

  // ---------------------------------------------------------------------
  // The lexicographic order on strings by code point: SQLite's BINARY
  // collation compares UTF-8 bytes, which orders strings the same way.

  predicate Below(a: string, b: string)
    decreases |a|
  {
    if a == [] then b != []
    else if b == [] then false
    else a[0] < b[0] || (a[0] == b[0] && Below(a[1..], b[1..]))
  }

  lemma BelowIrreflexive(a: string)
    ensures !Below(a, a)
  {
  }

  lemma {:induction false} BelowTransitive(a: string, b: string, c: string)
    requires Below(a, b) && Below(b, c)
    ensures Below(a, c)
    decreases |a|
  {
    if a != [] && b != [] && c != [] && a[0] == b[0] == c[0] {
      BelowTransitive(a[1..], b[1..], c[1..]);
    }
  }

  lemma {:induction false} BelowTotal(a: string, b: string)
    requires a != b
    ensures Below(a, b) || Below(b, a)
    decreases |a|
  {
    if a != [] && b != [] && a[0] == b[0] {
      assert a == [a[0]] + a[1..] && b == [b[0]] + b[1..];
      BelowTotal(a[1..], b[1..]);
    }
  }

  predicate StrictlySorted(s: seq<string>) {
    forall i, j :: 0 <= i < j < |s| ==> Below(s[i], s[j])
  }

  /** Inserts x at its place in a strictly sorted sequence not holding it. */
  function Insert(s: seq<string>, x: string): (r: seq<string>)
    requires StrictlySorted(s) && x !in s
    ensures StrictlySorted(r)
    ensures |r| == |s| + 1
    ensures forall y :: y in r <==> y in s || y == x
  {
    if s == [] then [x]
    else if Below(x, s[0]) then
      forall j | 0 <= j < |s| ensures Below(x, s[j]) {
        if j > 0 { BelowTransitive(x, s[0], s[j]); }
      }
      [x] + s
    else
      BelowTotal(x, s[0]);
      var t := Insert(s[1..], x);
      assert forall y :: y in t ==> Below(s[0], y);
      [s[0]] + t
  }
}
