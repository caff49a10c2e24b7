/**
  The C++ string operations the signalling client parses with: std::string::find and atoi, as functions
  of the text, with the facts about prefixes that incremental parsing rests on.
 */
module Text {

  const NPOS := -1

  predicate MatchesAt(s: string, p: string, i: nat) {
    i + |p| <= |s| && s[i..i + |p|] == p
  }

  /** s.find(p, from). */
  function Find(s: string, p: string, from: nat): (r: int)
    ensures r == NPOS || from <= r <= |s|
    ensures r != NPOS ==> MatchesAt(s, p, r)
    ensures forall j: nat :: from <= j && (r == NPOS || j < r) ==> !MatchesAt(s, p, j)
    decreases |s| - from
  {
    if |s| < from + |p| then NPOS
    else if MatchesAt(s, p, from) then from
    else Find(s, p, from + 1)
  }

  lemma FindIs(s: string, p: string, from: nat, i: nat)
    requires from <= i && MatchesAt(s, p, i) && forall j: nat :: from <= j < i ==> !MatchesAt(s, p, j)
    ensures Find(s, p, from) == i
  {}

  lemma MatchesPrefix(s: string, n: nat, p: string, j: nat)
    requires n <= |s|
    ensures MatchesAt(s[..n], p, j) <==> MatchesAt(s, p, j) && j + |p| <= n
  {
    if j + |p| <= n {
      assert s[..n][j..j + |p|] == s[j..j + |p|];
    }
  }

  /** A match is found in a prefix exactly when the prefix reaches its end, and then at the same place. */
  lemma FindInPrefix(s: string, n: nat, p: string, from: nat)
    requires n <= |s|
    ensures var i := Find(s, p, from);
      Find(s[..n], p, from) == if i != NPOS && i + |p| <= n then i else NPOS
  {
    var i := Find(s, p, from);
    forall j: nat ensures MatchesAt(s[..n], p, j) <==> MatchesAt(s, p, j) && j + |p| <= n { MatchesPrefix(s, n, p, j); }
    if i != NPOS && i + |p| <= n { FindIs(s[..n], p, from, i); }
  }

  // ---------------------------------------------------------------- atoi

  predicate IsSpace(c: char) {
    c == ' ' || c == '\t' || c == '\n' || c == '\r' || c == 11 as char || c == 12 as char
  }

  predicate IsDigit(c: char) {
    '0' <= c <= '9'
  }

  function SkipSpace(s: string, i: nat): (j: nat)
    requires i <= |s|
    ensures i <= j <= |s| && (j < |s| ==> !IsSpace(s[j]))
    ensures forall k :: i <= k < j ==> IsSpace(s[k])
    decreases |s| - i
  {
    if i < |s| && IsSpace(s[i]) then SkipSpace(s, i + 1) else i
  }

  function Digits(s: string, i: nat, acc: nat): nat
    requires i <= |s|
    decreases |s| - i
  {
    if i < |s| && IsDigit(s[i]) then Digits(s, i + 1, 10 * acc + (s[i] as int - '0' as int)) else acc
  }

  /** atoi(&s[i]). A value outside the range of int, where C leaves atoi undefined, stays mathematical. */
  function Atoi(s: string, i: nat): int
    requires i <= |s|
  {
    var j := SkipSpace(s, i);
    if j < |s| && s[j] == '-' then -(Digits(s, j + 1, 0) as int)
    else if j < |s| && s[j] == '+' then Digits(s, j + 1, 0)
    else Digits(s, j, 0)
  }

  lemma {:induction false} DigitsInPrefix(s: string, n: nat, i: nat, acc: nat, stop: nat)
    requires i <= stop < n <= |s| && !IsDigit(s[stop])
    ensures Digits(s[..n], i, acc) == Digits(s, i, acc)
    decreases stop - i
  {
    if IsDigit(s[i]) { DigitsInPrefix(s, n, i + 1, 10 * acc + (s[i] as int - '0' as int), stop); }
  }

  lemma SkipSpaceIs(s: string, i: nat, j: nat)
    requires i <= j <= |s| && (j < |s| ==> !IsSpace(s[j])) && forall k :: i <= k < j ==> IsSpace(s[k])
    ensures SkipSpace(s, i) == j
  {}

  lemma SkipInPrefix(s: string, n: nat, i: nat)
    requires i <= |s| && SkipSpace(s, i) < n <= |s|
    ensures SkipSpace(s[..n], i) == SkipSpace(s, i)
  {
    hide SkipSpace;
    SkipSpaceIs(s[..n], i, SkipSpace(s, i));
  }

  /** Once a non-digit is in view behind a first non-space character, further text cannot change atoi. */
  lemma AtoiInPrefix(s: string, n: nat, i: nat, stop: nat)
    requires i <= |s| && SkipSpace(s, i) < stop < n <= |s| && !IsDigit(s[stop])
    ensures Atoi(s[..n], i) == Atoi(s, i)
  {
    hide Digits, SkipSpace;
    var j := SkipSpace(s, i);
    SkipInPrefix(s, n, i);
    assert s[..n][j] == s[j];
    hide IsSpace, IsDigit;
    DigitsInPrefix(s, n, j, 0, stop);
    DigitsInPrefix(s, n, j + 1, 0, stop);
  }

  // ---------------------------------------------------------------- decimal notation

  function Digit(d: nat): char
    requires d < 10
  {
    (d + '0' as int) as char
  }

  /** What "%d" prints for a non-negative number. */
  function DecimalNat(n: nat): (s: string)
    ensures s != [] && forall c | c in s :: IsDigit(c)
  {
    if n < 10 then [Digit(n)] else DecimalNat(n / 10) + [Digit(n % 10)]
  }

  function Decimal(n: int): string {
    if n < 0 then "-" + DecimalNat(-n) else DecimalNat(n)
  }

  lemma {:induction false} DigitsAppend(pre: string, ds: string, d: char, post: string, acc: nat)
    requires (forall c | c in ds :: IsDigit(c)) && IsDigit(d)
    ensures Digits(pre + (ds + [d]) + post, |pre|, acc)
         == Digits(pre + (ds + [d]) + post, |pre| + |ds|, Digits(pre + ds, |pre|, acc))
    decreases |ds|
  {
    var s := pre + (ds + [d]) + post;
    if ds != [] {
      assert ds[0] in ds;
      var pre' := pre + [ds[0]];
      assert pre' + (ds[1..] + [d]) + post == s;
      assert pre' + ds[1..] == pre + ds;
      DigitsAppend(pre', ds[1..], d, post, 10 * acc + (ds[0] as int - '0' as int));
    }
  }

  lemma {:induction false} DigitsOfDecimal(pre: string, n: nat, post: string)
    requires post != [] ==> !IsDigit(post[0])
    ensures Digits(pre + DecimalNat(n) + post, |pre|, 0) == n
    decreases n
  {
    var s := pre + DecimalNat(n) + post;
    var e := |pre| + |DecimalNat(n)|;
    assert e < |s| ==> s[e] == post[0];
    if n < 10 {
      assert s[|pre|] == Digit(n);
    } else {
      var ds := DecimalNat(n / 10);
      DigitsOfDecimal(pre, n / 10, []);
      assert pre + ds + [] == pre + ds;
      DigitsAppend(pre, ds, Digit(n % 10), post, 0);
      assert s[e - 1] == Digit(n % 10);
    }
  }

  lemma DecimalStart(n: int)
    ensures Decimal(n) != [] && !IsSpace(Decimal(n)[0])
    ensures Decimal(n)[0] == '-' <==> n < 0
    ensures Decimal(n)[0] != '+'
  {
    if n >= 0 { assert Decimal(n)[0] in DecimalNat(n); }
  }

  lemma AtoiAt(s: string, i: nat)
    requires i < |s| && !IsSpace(s[i]) && s[i] != '+'
    ensures Atoi(s, i) == if s[i] == '-' then -(Digits(s, i + 1, 0) as int) else Digits(s, i, 0)
  {
    hide Digits, SkipSpace;
    SkipSpaceIs(s, i, i);
  }

  /** atoi reads back what "%d" printed, whatever non-digit text follows. */
  lemma AtoiOfDecimal(pre: string, n: int, post: string)
    requires post != [] ==> !IsDigit(post[0])
    ensures Atoi(pre + Decimal(n) + post, |pre|) == n
  {
    hide Digits, Atoi, DecimalNat;
    DecimalStart(n);
    var s := pre + Decimal(n) + post;
    AtoiAt(s, |pre|);
    if n < 0 {
      assert s == (pre + "-") + DecimalNat(-n) + post;
      DigitsOfDecimal(pre + "-", -n, post);
    } else {
      DigitsOfDecimal(pre, n, post);
    }
  }

  /** atoi skips white space and one sign, and is 0 where no digit follows. */
  lemma AtoiSkips(s: string, i: nat, j: nat)
    requires i <= j <= |s| && (forall k :: i <= k < j ==> IsSpace(s[k])) && (j < |s| ==> !IsSpace(s[j]))
    ensures j == |s| ==> Atoi(s, i) == 0
    ensures j < |s| && !IsDigit(s[j]) && s[j] != '+' && s[j] != '-' ==> Atoi(s, i) == 0
    ensures j < |s| && IsDigit(s[j]) ==> Atoi(s, i) == Atoi(s, j)
    ensures j + 1 < |s| && s[j] == '+' && IsDigit(s[j + 1]) ==> Atoi(s, i) == Atoi(s, j + 1)
    ensures j + 1 < |s| && s[j] == '-' && IsDigit(s[j + 1]) ==> Atoi(s, i) == -Atoi(s, j + 1)
    ensures j + 1 < |s| && (s[j] == '+' || s[j] == '-') && !IsDigit(s[j + 1]) ==> Atoi(s, i) == 0
  {
    hide SkipSpace;
    SkipSpaceIs(s, i, j);
    SkipSpaceIs(s, j, j);
    if j + 1 < |s| && !IsSpace(s[j + 1]) { SkipSpaceIs(s, j + 1, j + 1); }
  }
}
