/** The string built-ins of JavaScript that the components rely on:
    String(n) for integers, padStart, code-unit string comparison,
    includes, startsWith/endsWith, toLowerCase, trim, split, the two
    replace calls of the markdown renderer, and parseFloat. */
module Text {
  import opened Seqs

  // ---------------------------------------------------------------- digits

  predicate IsDigit(c: char) { '0' <= c <= '9' }

  predicate AllDigits(s: string) { forall i :: 0 <= i < |s| ==> IsDigit(s[i]) }

  function DigitValue(c: char): (d: nat)
    requires IsDigit(c)
    ensures d < 10
  {
    (c as int) - ('0' as int)
  }

  function DigitChar(d: nat): (c: char)
    requires d < 10
    ensures IsDigit(c) && DigitValue(c) == d
  {
    (('0' as int) + d) as char
  }

  function Pow10(n: nat): (p: nat)
    ensures p >= 1
  {
    if n == 0 then 1 else 10 * Pow10(n - 1)
  }

  /** The value of a string of decimal digits (most significant first). */
  function DigitsValue(s: string): nat
    requires AllDigits(s)
  {
    if s == [] then 0 else DigitsValue(s[..|s| - 1]) * 10 + DigitValue(s[|s| - 1])
  }

  /** String(n) for a non-negative integer: its shortest decimal representation. */
  function NatText(n: nat): (s: string)
    ensures |s| >= 1 && AllDigits(s)
    ensures |s| > 1 ==> s[0] != '0'
  {
    if n < 10 then [DigitChar(n)]
    else
      var t := NatText(n / 10);
      assert AllDigits(t + [DigitChar(n % 10)]);
      t + [DigitChar(n % 10)]
  }

  /** String(n) for an integer. */
  function IntText(n: int): string
  {
    if n < 0 then "-" + NatText(-n) else NatText(n)
  }

  lemma {:induction false} NatTextValue(n: nat)
    ensures DigitsValue(NatText(n)) == n
  {
    if n >= 10 {
      NatTextValue(n / 10);
      var t := NatText(n / 10);
      assert (t + [DigitChar(n % 10)])[..|t|] == t;
    }
  }

  /** NatText has four characters exactly for the four-digit numbers. */
  lemma {:induction false} NatTextLength(n: nat, k: nat)
    requires k >= 1
    ensures |NatText(n)| == k <==> (k == 1 || Pow10(k - 1) <= n) && n < Pow10(k)
  {
    if n >= 10 && k > 1 {
      NatTextLength(n / 10, k - 1);
      if k - 1 >= 1 {
        assert (k - 1 == 1 || Pow10(k - 2) <= n / 10) <==> (Pow10(k - 1) <= n);
      }
    } else if n >= 10 && k == 1 {
      NatTextLength(n / 10, 1);
    } else if n < 10 && k > 1 {
      assert Pow10(k - 1) >= 10 by { PowAtLeast(k - 1); }
    }
  }

  lemma {:induction false} PowAtLeast(k: nat)
    requires k >= 1
    ensures Pow10(k) >= 10
  {
    if k > 1 { PowAtLeast(k - 1); }
  }

  lemma {:induction false} DigitsValueBound(s: string)
    requires AllDigits(s)
    ensures DigitsValue(s) < Pow10(|s|)
  {
    if s != [] {
      DigitsValueBound(s[..|s| - 1]);
    }
  }

  lemma Regroup(x: int, p: int, y: int, d: int)
    ensures (x * p + y) * 10 + d == x * (10 * p) + (y * 10 + d)
  {
  }

  lemma DigitsValueSnoc(s: string, c: char)
    requires AllDigits(s) && IsDigit(c)
    ensures AllDigits(s + [c])
    ensures DigitsValue(s + [c]) == DigitsValue(s) * 10 + DigitValue(c)
  {
    assert (s + [c])[..|s|] == s;
  }

  lemma {:induction false} DigitsValueAppend(a: string, b: string)
    requires AllDigits(a) && AllDigits(b)
    ensures AllDigits(a + b)
    ensures DigitsValue(a + b) == DigitsValue(a) * Pow10(|b|) + DigitsValue(b)
  {
    if b == [] {
      assert a + b == a;
    } else {
      var b' := b[..|b| - 1];
      var c := b[|b| - 1];
      assert AllDigits(b') && IsDigit(c);
      assert b == b' + [c];
      assert a + b == (a + b') + [c];
      DigitsValueAppend(a, b');
      DigitsValueSnoc(a + b', c);
      DigitsValueSnoc(b', c);
      Regroup(DigitsValue(a), Pow10(|b'|), DigitsValue(b'), DigitValue(c));
    }
  }

  // ------------------------------------------------- string comparison

  /** JavaScript's `a < b` on strings: lexicographic on characters,
      a proper prefix being smaller. */
  predicate LexLess(a: string, b: string)
  {
    if b == [] then false
    else if a == [] then true
    else if a[0] != b[0] then a[0] < b[0]
    else LexLess(a[1..], b[1..])
  }

  /** Comparing two concatenations whose first parts have equal length
      decides on the first parts unless these are equal. */
  lemma {:induction false} LexLessAppend(p1: string, q1: string, p2: string, q2: string)
    requires |p1| == |p2|
    ensures LexLess(p1 + q1, p2 + q2) == if p1 == p2 then LexLess(q1, q2) else LexLess(p1, p2)
  {
    if p1 == [] {
      assert p1 + q1 == q1 && p2 + q2 == q2;
    } else {
      assert (p1 + q1)[0] == p1[0] && (p2 + q2)[0] == p2[0];
      assert (p1 + q1)[1..] == p1[1..] + q1 && (p2 + q2)[1..] == p2[1..] + q2;
      LexLessAppend(p1[1..], q1, p2[1..], q2);
      if p1[0] == p2[0] {
        assert p1 == p2 <==> p1[1..] == p2[1..] by {
          assert p1 == [p1[0]] + p1[1..] && p2 == [p2[0]] + p2[1..];
        }
      }
    }
  }

  /** The leading digit weighs Pow10 of the number of digits after it. */
  lemma DigitsFront(a: string)
    requires AllDigits(a) && a != []
    ensures DigitsValue(a) == DigitValue(a[0]) * Pow10(|a| - 1) + DigitsValue(a[1..])
    ensures DigitsValue(a[1..]) < Pow10(|a| - 1)
  {
    assert a == [a[0]] + a[1..];
    DigitsValueAppend([a[0]], a[1..]);
    assert DigitsValue([a[0]]) == DigitValue(a[0]) by { assert [a[0]][..0] == []; }
    DigitsValueBound(a[1..]);
  }

  /** For digit strings of equal length, string order is numeric order
      and string equality is numeric equality. */
  lemma {:induction false} DigitsOrder(a: string, b: string)
    requires AllDigits(a) && AllDigits(b) && |a| == |b|
    ensures LexLess(a, b) <==> DigitsValue(a) < DigitsValue(b)
    ensures a == b <==> DigitsValue(a) == DigitsValue(b)
  {
    if a != [] {
      var a', b' := a[1..], b[1..];
      DigitsOrder(a', b');
      DigitsFront(a);
      DigitsFront(b);
      var da, db := DigitValue(a[0]), DigitValue(b[0]);
      LeadingDigit(da, db, DigitsValue(a'), DigitsValue(b'), Pow10(|a| - 1));
      LeadingDigit(db, da, DigitsValue(b'), DigitsValue(a'), Pow10(|a| - 1));
      if a[0] == b[0] {
        assert LexLess(a, b) == LexLess(a', b');
        SameHead(a, b);
      } else {
        assert LexLess(a, b) == (a[0] < b[0]);
        assert a[0] < b[0] <==> da < db;
        assert a != b;
      }
    }
  }

  lemma SameHead(a: string, b: string)
    requires a != [] && b != [] && a[0] == b[0]
    ensures a == b <==> a[1..] == b[1..]
  {
    if a[1..] == b[1..] {
      assert a == [a[0]] + a[1..] && b == [b[0]] + b[1..];
    }
  }

  /** Two numbers written with the same number of digits compare by their
      leading digits first. */
  lemma LeadingDigit(da: nat, db: nat, ra: nat, rb: nat, p: nat)
    requires ra < p && rb < p
    ensures da < db ==> da * p + ra < db * p + rb
    ensures da == db ==> (da * p + ra < db * p + rb <==> ra < rb)
    ensures da == db ==> (da * p + ra == db * p + rb <==> ra == rb)
  {
    if da < db {
      MulMonotone(da + 1, db, p);
    }
  }

  lemma MulMonotone(x: int, y: int, p: nat)
    requires x <= y
    ensures x * p <= y * p
  {
  }

  // ---------------------------------------------------------- padStart

  /** String.prototype.padStart(n, c) with a one-character filler. */
  function PadStart(s: string, n: nat, c: char): (r: string)
    ensures |r| == if |s| >= n then |s| else n
    ensures r[|r| - |s|..] == s
    ensures forall i :: 0 <= i < |r| - |s| ==> r[i] == c
  {
    if |s| >= n then s else seq(n - |s|, _ => c) + s
  }

  // ---------------------------------------------------- includes & co.

  /** String.prototype.includes. */
  predicate Contains(s: string, t: string)
  {
    exists i | 0 <= i <= |s| - |t| :: OccursAt(s, t, i)
  }

  /** t occurs in s starting at index i. */
  predicate OccursAt(s: string, t: string, i: int)
  {
    0 <= i && i + |t| <= |s| && s[i..i + |t|] == t
  }

  lemma ContainsEmpty(s: string)
    ensures Contains(s, "")
  {
    assert OccursAt(s, "", 0);
  }

  lemma ContainsSelf(s: string)
    ensures Contains(s, s)
  {
    assert OccursAt(s, s, 0);
  }

  predicate StartsWith(s: string, p: string) { |p| <= |s| && s[..|p|] == p }

  predicate EndsWith(s: string, p: string) { |p| <= |s| && s[|s| - |p|..] == p }

  /** The ASCII part of String.prototype.toLowerCase. */
  function LowerChar(c: char): (d: char)
    ensures 'A' <= c <= 'Z' ==> 'a' <= d <= 'z'
    ensures !('A' <= c <= 'Z') ==> d == c
  {
    if 'A' <= c <= 'Z' then ((c as int) + 32) as char else c
  }

  function ToLower(s: string): (r: string)
    ensures |r| == |s|
    ensures forall i :: 0 <= i < |s| ==> r[i] == LowerChar(s[i])
  {
    seq(|s|, i requires 0 <= i < |s| => LowerChar(s[i]))
  }

  lemma ToLowerIdempotent(s: string)
    ensures ToLower(ToLower(s)) == ToLower(s)
  {
  }

  // --------------------------------------------------------------- trim

  /** ECMAScript WhiteSpace and LineTerminator code points, the set that
      String.prototype.trim and parseFloat skip. */
  predicate IsJsSpace(c: char)
  {
    var n := c as int;
    n == 0x09 || n == 0x0A || n == 0x0B || n == 0x0C || n == 0x0D || n == 0x20
    || n == 0xA0 || n == 0x1680 || (0x2000 <= n <= 0x200A) || n == 0x2028
    || n == 0x2029 || n == 0x202F || n == 0x205F || n == 0x3000 || n == 0xFEFF
  }

  function TrimStart(s: string): (r: string)
    ensures |r| <= |s| && r == s[|s| - |r|..]
    ensures r == [] || !IsJsSpace(r[0])
    ensures forall i :: 0 <= i < |s| - |r| ==> IsJsSpace(s[i])
  {
    if s != [] && IsJsSpace(s[0]) then TrimStart(s[1..]) else s
  }

  function TrimEnd(s: string): (r: string)
    ensures |r| <= |s| && r == s[..|r|]
    ensures r == [] || !IsJsSpace(r[|r| - 1])
    ensures forall i :: |r| <= i < |s| ==> IsJsSpace(s[i])
  {
    if s != [] && IsJsSpace(s[|s| - 1]) then TrimEnd(s[..|s| - 1]) else s
  }

  /** String.prototype.trim. */
  function Trim(s: string): string
  {
    TrimEnd(TrimStart(s))
  }

  /** A line trims to the empty string exactly when it is all whitespace. */
  lemma TrimEmpty(s: string)
    ensures Trim(s) == "" <==> forall i :: 0 <= i < |s| ==> IsJsSpace(s[i])
  {
    var t := TrimStart(s);
    if t != [] {
      assert !IsJsSpace(t[0]);
      assert TrimEnd(t) != [];
      assert !IsJsSpace(s[|s| - |t|]);
    }
  }

  lemma TrimShape(s: string)
    ensures Trim(s) == [] || (!IsJsSpace(Trim(s)[0]) && !IsJsSpace(Trim(s)[|Trim(s)| - 1]))
  {
    var t := TrimStart(s);
    var r := TrimEnd(t);
    if r != [] {
      assert r[0] == t[0];
    }
  }

  // -------------------------------------------------------------- split

  /** String.prototype.indexOf for a one-character needle. */
  function IndexOf(s: string, c: char): (i: int)
    ensures -1 <= i < |s|
    ensures i == -1 <==> c !in s
    ensures 0 <= i ==> s[i] == c && c !in s[..i]
  {
    if s == [] then -1
    else if s[0] == c then 0
    else
      var k := IndexOf(s[1..], c);
      assert s == [s[0]] + s[1..];
      if k == -1 then -1
      else
        assert s[..k + 1] == [s[0]] + s[1..][..k];
        k + 1
  }

  /** String.prototype.split with a one-character separator. */
  function Split(s: string, sep: char): (parts: seq<string>)
    ensures |parts| >= 1
    ensures forall i :: 0 <= i < |parts| ==> sep !in parts[i]
    decreases |s|
  {
    var i := IndexOf(s, sep);
    if i < 0 then [s]
    else
      var rest := Split(s[i + 1..], sep);
      var parts := [s[..i]] + rest;
      assert forall k :: 1 <= k < |parts| ==> parts[k] == rest[k - 1];
      parts
  }

  /** Array.prototype.join, the inverse of Split. */
  function Join(parts: seq<string>, sep: char): string
  {
    if parts == [] then "" else if |parts| == 1 then parts[0] else parts[0] + [sep] + Join(parts[1..], sep)
  }

  function Occurrences(s: string, c: char): nat
  {
    if s == [] then 0 else (if s[0] == c then 1 else 0) + Occurrences(s[1..], c)
  }

  lemma {:induction false} OccurrencesAppend(a: string, b: string, c: char)
    ensures Occurrences(a + b, c) == Occurrences(a, c) + Occurrences(b, c)
  {
    if a != [] {
      assert (a + b)[1..] == a[1..] + b;
      OccurrencesAppend(a[1..], b, c);
    } else {
      assert a + b == b;
    }
  }

  lemma {:induction false} OccurrencesAbsent(s: string, c: char)
    requires c !in s
    ensures Occurrences(s, c) == 0
  {
    if s != [] { OccurrencesAbsent(s[1..], c); }
  }

  lemma JoinCons(x: string, rest: seq<string>, sep: char)
    requires |rest| >= 1
    ensures Join([x] + rest, sep) == x + [sep] + Join(rest, sep)
  {
    assert ([x] + rest)[1..] == rest;
  }

  lemma SliceAround(s: string, i: nat)
    requires i < |s|
    ensures s[..i] + [s[i]] + s[i + 1..] == s
  {
  }

  /** Joining the parts with the separator gives back the string. */
  lemma {:induction false} SplitJoin(s: string, sep: char)
    ensures Join(Split(s, sep), sep) == s
    decreases |s|
  {
    var i := IndexOf(s, sep);
    if i < 0 {
      assert Split(s, sep) == [s];
    } else {
      var head := s[..i];
      var rest := s[i + 1..];
      var parts := Split(rest, sep);
      assert Split(s, sep) == [head] + parts;
      SplitJoin(rest, sep);
      assert Join(parts, sep) == rest;
      JoinCons(head, parts, sep);
      assert Join([head] + parts, sep) == head + [sep] + rest;
      SliceAround(s, i);
    }
  }

  /** There is one part more than there are separators. */
  lemma {:induction false} SplitCount(s: string, sep: char)
    ensures |Split(s, sep)| == Occurrences(s, sep) + 1
    decreases |s|
  {
    var i := IndexOf(s, sep);
    if i < 0 {
      OccurrencesAbsent(s, sep);
    } else {
      var rest := s[i + 1..];
      SplitCount(rest, sep);
      assert s == (s[..i] + [sep]) + rest;
      OccurrencesAppend(s[..i] + [sep], rest, sep);
      OccurrencesAppend(s[..i], [sep], sep);
      OccurrencesAbsent(s[..i], sep);
      assert Occurrences([sep], sep) == 1 by { assert [sep][1..] == []; }
    }
  }

  // ------------------------------------------------ the two replace calls

  /** text.replace(/c/g, ''): every occurrence of c removed. */
  function RemoveChar(s: string, c: char): (r: string)
    ensures c !in r
    ensures |r| <= |s|
    ensures forall i :: 0 <= i < |r| ==> r[i] in s
  {
    if s == [] then []
    else if s[0] == c then RemoveChar(s[1..], c)
    else [s[0]] + RemoveChar(s[1..], c)
  }

  /** text.replace(/\*\*\/g, ''): non-overlapping "**" removed left to right. */
  function RemoveStarPairs(s: string): (r: string)
    ensures |r| <= |s|
    ensures forall i :: 0 <= i < |r| ==> r[i] in s
  {
    if |s| >= 2 && s[0] == '*' && s[1] == '*' then RemoveStarPairs(s[2..])
    else if s == [] then []
    else [s[0]] + RemoveStarPairs(s[1..])
  }

  lemma RemoveStarPairsHead(s: string)
    requires s != [] && s[0] != '*'
    ensures RemoveStarPairs(s) != [] && RemoveStarPairs(s)[0] == s[0]
  {
  }

  /** After the removal no two stars are adjacent, so no "**" is left. */
  lemma {:induction false} RemoveStarPairsClean(s: string)
    ensures forall i :: 0 <= i < |RemoveStarPairs(s)| - 1 ==>
      !(RemoveStarPairs(s)[i] == '*' && RemoveStarPairs(s)[i + 1] == '*')
  {
    if |s| >= 2 && s[0] == '*' && s[1] == '*' {
      RemoveStarPairsClean(s[2..]);
    } else if s != [] {
      RemoveStarPairsClean(s[1..]);
      if s[0] == '*' && |s| >= 2 {
        RemoveStarPairsHead(s[1..]);
      }
    }
  }

  /** Removing c keeps every other character, each as often as before,
      in its order. */
  lemma {:induction false} RemoveCharKeeps(s: string, c: char)
    ensures IsSubsequence(RemoveChar(s, c), s)
    ensures forall ch :: ch != c ==> multiset(RemoveChar(s, c))[ch] == multiset(s)[ch]
  {
    if s != [] {
      RemoveCharKeeps(s[1..], c);
      var r := RemoveChar(s, c);
      assert s == [s[0]] + s[1..];
      if s[0] == c {
        SubsequenceDrop(r, s);
      } else {
        assert r[1..] == RemoveChar(s[1..], c);
        assert multiset(r) == multiset([s[0]]) + multiset(RemoveChar(s[1..], c));
      }
    }
  }

  /** Removing "**" pairs keeps every character other than '*', each as
      often as before, in its order. */
  lemma {:induction false} RemoveStarPairsKeeps(s: string)
    ensures IsSubsequence(RemoveStarPairs(s), s)
    ensures forall ch :: ch != '*' ==> multiset(RemoveStarPairs(s))[ch] == multiset(s)[ch]
  {
    RemoveStarPairsOrder(s);
    RemoveStarPairsCount(s);
  }

  lemma {:induction false} RemoveStarPairsOrder(s: string)
    ensures IsSubsequence(RemoveStarPairs(s), s)
  {
    var r := RemoveStarPairs(s);
    if |s| >= 2 && s[0] == '*' && s[1] == '*' {
      RemoveStarPairsOrder(s[2..]);
      assert s[1..][1..] == s[2..];
      SubsequenceDrop(r, s[1..]);
      SubsequenceDrop(r, s);
    } else if s != [] {
      RemoveStarPairsOrder(s[1..]);
      assert r[1..] == RemoveStarPairs(s[1..]);
    }
  }

  lemma {:induction false} RemoveStarPairsCount(s: string)
    ensures forall ch :: ch != '*' ==> multiset(RemoveStarPairs(s))[ch] == multiset(s)[ch]
  {
    if |s| >= 2 && s[0] == '*' && s[1] == '*' {
      RemoveStarPairsCount(s[2..]);
      assert s == [s[0], s[1]] + s[2..];
      assert multiset(s) == multiset{'*', '*'} + multiset(s[2..]);
    } else if s != [] {
      RemoveStarPairsCount(s[1..]);
      var rest := RemoveStarPairs(s[1..]);
      assert RemoveStarPairs(s) == [s[0]] + rest;
      assert multiset(RemoveStarPairs(s)) == multiset{s[0]} + multiset(rest);
      assert s == [s[0]] + s[1..];
      assert multiset(s) == multiset{s[0]} + multiset(s[1..]);
    }
  }

  // --------------------------------------------------------- parseFloat

  /** The index of the first character at or after i that is not whitespace. */
  function SkipSpaces(s: string, i: nat): (j: nat)
    requires i <= |s|
    ensures i <= j <= |s|
    ensures j < |s| ==> !IsJsSpace(s[j])
    decreases |s| - i
  {
    if i < |s| && IsJsSpace(s[i]) then SkipSpaces(s, i + 1) else i
  }

  /** The end of the maximal run of digits that starts at i. */
  function DigitRunEnd(s: string, i: nat): (j: nat)
    requires i <= |s|
    ensures i <= j <= |s|
    ensures AllDigits(s[i..j])
    ensures j < |s| ==> !IsDigit(s[j])
    decreases |s| - i
  {
    if i < |s| && IsDigit(s[i]) then
      var j := DigitRunEnd(s, i + 1);
      assert s[i..j] == [s[i]] + s[i + 1..j];
      j
    else i
  }

  /** 10^e as a real, for a signed exponent. */
  function Scale(e: int): (r: real)
    ensures r > 0.0
  {
    if e >= 0 then Pow10(e) as real else 1.0 / (Pow10(-e) as real)
  }

  /** The exponent part ("e", optional sign, digits) starting at i, or 0
      when there is none (parseFloat then stops before the "e"). */
  function ExponentAt(s: string, i: nat): int
    requires i <= |s|
  {
    if i < |s| && (s[i] == 'e' || s[i] == 'E') then
      var sign := if i + 1 < |s| && (s[i + 1] == '+' || s[i + 1] == '-') then 1 else 0;
      var g := i + 1 + sign;
      var h := DigitRunEnd(s, g);
      if h == g then 0
      else if sign == 1 && s[i + 1] == '-' then -(DigitsValue(s[g..h]) as int)
      else DigitsValue(s[g..h])
    else 0
  }

  /** parseFloat: the longest prefix (after whitespace) that is a decimal
      literal; None stands for NaN. */
  function ParseFloat(s: string): Option<real>
  {
    var i := SkipSpaces(s, 0);
    var signed := i < |s| && (s[i] == '+' || s[i] == '-');
    var j := if signed then i + 1 else i;
    var k := DigitRunEnd(s, j);
    var hasPoint := k < |s| && s[k] == '.';
    var f := if hasPoint then DigitRunEnd(s, k + 1) else k;
    var fraction := if hasPoint then s[k + 1..f] else [];
    if k == j && |fraction| == 0 then None
    else
      var mantissa := DigitsValue(s[j..k]) as real + DigitsValue(fraction) as real / (Pow10(|fraction|) as real);
      var v := mantissa * Scale(ExponentAt(s, f));
      Some(if signed && s[i] == '-' then -v else v)
  }

  lemma DigitRunEndAllDigits(s: string, i: nat)
    requires i <= |s| && AllDigits(s)
    ensures DigitRunEnd(s, i) == |s|
    decreases |s| - i
  {
    if i < |s| { DigitRunEndAllDigits(s, i + 1); }
  }

  /** parseFloat reads back what String(n) writes for a natural number. */
  lemma ParseFloatNatText(n: nat)
    ensures ParseFloat(NatText(n)) == Some(n as real)
  {
    var s := NatText(n);
    assert IsDigit(s[0]);
    assert SkipSpaces(s, 0) == 0 by { assert !IsJsSpace(s[0]); }
    assert !(s[0] == '+' || s[0] == '-');
    DigitRunEndAllDigits(s, 0);
    assert DigitRunEnd(s, 0) == |s|;
    NatTextValue(n);
    assert s[0..|s|] == s;
    assert DigitsValue(s[0..|s|]) == n;
    assert DigitsValue([]) == 0;
    assert ExponentAt(s, |s|) == 0;
    assert Scale(0) == 1.0;
    var mantissa := DigitsValue(s[0..|s|]) as real + DigitsValue([]) as real / (Pow10(0) as real);
    assert mantissa == n as real;
    assert ParseFloat(s) == Some(mantissa * Scale(0));
  }

  /** A string with no decimal literal after its whitespace parses as NaN. */
  lemma ParseFloatEmpty()
    ensures ParseFloat("") == None
  {
  }
}
