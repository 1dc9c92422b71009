/**
Strings as the backend handles them: decimal spelling, the alphabets of the
values it interpolates, and the code-point order that `sorted` uses.
*/
module Text {

  datatype Option<+T> = None | Some(value: T) {
    function GetOr(default: T): T {
      match this
      case Some(v) => v
      case None => default
    }
  }

  // ---- Decimal spelling of integers ----

  predicate IsDigit(c: char) { '0' <= c <= '9' }

  function DigitChar(d: nat): char
    requires d < 10
  {
    '0' + d as char
  }

  function DigitValue(c: char): nat
    requires IsDigit(c)
  {
    (c - '0') as nat
  }

  function NatText(n: nat): (s: string)
    ensures s != "" && forall i :: 0 <= i < |s| ==> IsDigit(s[i])
  {
    if n < 10 then [DigitChar(n)] else NatText(n / 10) + [DigitChar(n % 10)]
  }

  function IntText(n: int): (s: string)
    ensures s != ""
    ensures s[0] == '-' || IsDigit(s[0])
    ensures '\n' !in s
  {
    if n < 0 then "-" + NatText(-n) else NatText(n)
  }

  // The number a run of digits spells, most significant first; leading zeros are allowed.
  function NatValue(s: string): nat
    requires forall i :: 0 <= i < |s| ==> IsDigit(s[i])
  {
    if s == "" then 0 else 10 * NatValue(s[..|s| - 1]) + DigitValue(s[|s| - 1])
  }

  lemma {:induction false} NatTextValue(n: nat)
    ensures NatValue(NatText(n)) == n
  {
    if n >= 10 {
      NatTextValue(n / 10);
      var s := NatText(n);
      assert s[..|s| - 1] == NatText(n / 10);
    }
  }

  // No leading zero, so a number has one spelling.
  lemma {:induction false} NatTextPlain(n: nat)
    ensures NatText(n)[0] == '0' <==> n == 0
    ensures n == 0 ==> NatText(n) == "0"
  {
    if n >= 10 { NatTextPlain(n / 10); }
  }

  predicate Plain(digits: string) {
    && digits != "" && (forall i :: 0 <= i < |digits| ==> IsDigit(digits[i]))
    && (digits[0] == '0' ==> digits == "0")
  }

  lemma {:induction false} PlainValue(digits: string)
    requires Plain(digits)
    ensures NatText(NatValue(digits)) == digits
  {
    var init, last := digits[..|digits| - 1], digits[|digits| - 1];
    assert digits == init + [last];
    if init == "" {
      assert NatValue(init) == 0;
    } else {
      PlainValue(init);
      NatTextPlain(NatValue(init));
    }
  }

  lemma NatTextInjective(m: nat, n: nat)
    requires NatText(m) == NatText(n)
    ensures m == n
  {
    NatTextValue(m);
    NatTextValue(n);
  }

  lemma IntTextInjective(m: int, n: int)
    requires IntText(m) == IntText(n)
    ensures m == n
  {
    if m < 0 && n < 0 {
      assert IntText(m)[1..] == NatText(-m) && IntText(n)[1..] == NatText(-n);
      NatTextInjective(-m, -n);
    } else if m >= 0 && n >= 0 {
      NatTextInjective(m, n);
    }
  }

  // ---- Alphabets ----

  predicate IsLowerHex(c: char) { '0' <= c <= '9' || 'a' <= c <= 'f' }

  predicate IsIdChar(c: char) {
    'A' <= c <= 'Z' || 'a' <= c <= 'z' || '0' <= c <= '9' || c == '_' || c == '-'
  }

  predicate AllHex(s: string) { forall i :: 0 <= i < |s| ==> IsLowerHex(s[i]) }

  predicate IsAscii(s: string) { forall i :: 0 <= i < |s| ==> s[i] < 128 as char }

  function LowerChar(c: char): char {
    if 'A' <= c <= 'Z' then c - 'A' + 'a' else c
  }

  function Lower(s: string): (r: string)
    ensures |r| == |s|
  {
    seq(|s|, i requires 0 <= i < |s| => LowerChar(s[i]))
  }

  // Only the capital letters of ASCII change, each to its own small letter.
  lemma LowerAt(s: string, i: nat)
    requires i < |s|
    ensures 'A' <= s[i] <= 'Z' ==> Lower(s)[i] as int == s[i] as int + 32
    ensures !('A' <= s[i] <= 'Z') ==> Lower(s)[i] == s[i]
    ensures Lower(Lower(s)) == Lower(s)
  {
  }

  // ---- Code-point order ----

  predicate Le(a: string, b: string) {
    a == "" || (b != "" && (a[0] < b[0] || (a[0] == b[0] && Le(a[1..], b[1..]))))
  }

  predicate Lt(a: string, b: string) { a != b && Le(a, b) }

  lemma {:induction false} LeTotal(a: string, b: string)
    ensures Le(a, b) || Le(b, a)
  {
    if a != "" && b != "" && a[0] == b[0] {
      LeTotal(a[1..], b[1..]);
    }
  }

  lemma {:induction false} LeAntisymmetric(a: string, b: string)
    requires Le(a, b) && Le(b, a)
    ensures a == b
  {
    if a != "" {
      LeAntisymmetric(a[1..], b[1..]);
      assert a == [a[0]] + a[1..] && b == [b[0]] + b[1..];
    }
  }

  lemma {:induction false} LeTransitive(a: string, b: string, c: string)
    requires Le(a, b) && Le(b, c)
    ensures Le(a, c)
  {
    if a != "" && a[0] == b[0] == c[0] {
      LeTransitive(a[1..], b[1..], c[1..]);
    }
  }

  lemma LtTransitive(a: string, b: string, c: string)
    requires Lt(a, b) && Lt(b, c)
    ensures Lt(a, c)
  {
    LeTransitive(a, b, c);
    if a == c {
      LeAntisymmetric(a, b);
    }
  }

  // ---- Separators ----

  lemma HeadOf(a: string, x: string, sep: char)
    ensures (a + [sep] + x)[0] == (if a == "" then sep else a[0])
    ensures (a + [sep] + x)[1..] == (if a == "" then x else a[1..] + [sep] + x)
  {
  }

  // A separator that neither head contains splits a text in one way.
  lemma {:induction false} SplitFirst(a: string, x: string, b: string, y: string, sep: char)
    requires sep !in a && sep !in b && a + [sep] + x == b + [sep] + y
    ensures a == b && x == y
  {
    HeadOf(a, x, sep);
    HeadOf(b, y, sep);
    if a != "" && b != "" {
      SplitFirst(a[1..], x, b[1..], y, sep);
      assert a == [a[0]] + a[1..] && b == [b[0]] + b[1..];
    }
  }

  // ---- Sorting ----

  function InsertString(x: string, xs: seq<string>): (r: seq<string>)
    ensures multiset(r) == multiset{x} + multiset(xs)
  {
    if xs == [] || Le(x, xs[0]) then [x] + xs
    else
      assert xs == [xs[0]] + xs[1..];
      [xs[0]] + InsertString(x, xs[1..])
  }

  // Python's `sorted` on strings.
  function SortStrings(xs: seq<string>): (r: seq<string>)
    ensures multiset(r) == multiset(xs)
  {
    if xs == [] then []
    else
      assert xs == [xs[0]] + xs[1..];
      InsertString(xs[0], SortStrings(xs[1..]))
  }

  predicate Ascending(xs: seq<string>) {
    forall i, j :: 0 <= i < j < |xs| ==> Le(xs[i], xs[j])
  }

  lemma {:induction false} InsertAscending(x: string, xs: seq<string>)
    requires Ascending(xs)
    ensures Ascending(InsertString(x, xs))
  {
    if xs == [] {
    } else if Le(x, xs[0]) {
      forall j | 0 <= j < |xs| ensures Le(x, xs[j]) {
        if j > 0 { LeTransitive(x, xs[0], xs[j]); }
      }
    } else {
      LeTotal(x, xs[0]);
      InsertAscending(x, xs[1..]);
      var tail := InsertString(x, xs[1..]);
      forall j | 0 <= j < |tail| ensures Le(xs[0], tail[j]) {
        assert tail[j] in multiset(tail);
        assert tail[j] == x || tail[j] in xs[1..];
      }
    }
  }

  lemma {:induction false} SortAscending(xs: seq<string>)
    ensures Ascending(SortStrings(xs))
  {
    if xs != [] {
      SortAscending(xs[1..]);
      InsertAscending(xs[0], SortStrings(xs[1..]));
    }
  }

  lemma HeadLeast(xs: seq<string>, x: string)
    requires Ascending(xs) && x in multiset(xs)
    ensures xs != [] && Le(xs[0], x)
  {
    var i :| 0 <= i < |xs| && xs[i] == x;
    LeReflexive(x);
  }

  lemma TailMultiset(xs: seq<string>)
    requires xs != []
    ensures multiset(xs[1..]) == multiset(xs) - multiset{xs[0]}
    ensures xs == [xs[0]] + xs[1..]
  {
    assert xs == [xs[0]] + xs[1..];
  }

  lemma {:induction false} AscendingUnique(xs: seq<string>, ys: seq<string>)
    requires Ascending(xs) && Ascending(ys) && multiset(xs) == multiset(ys)
    ensures xs == ys
  {
    assert |xs| == |multiset(xs)| == |multiset(ys)| == |ys|;
    if xs != [] {
      assert xs[0] in multiset(xs) && ys[0] in multiset(ys);
      HeadLeast(ys, xs[0]);
      HeadLeast(xs, ys[0]);
      LeAntisymmetric(xs[0], ys[0]);
      TailMultiset(xs);
      TailMultiset(ys);
      AscendingUnique(xs[1..], ys[1..]);
    }
  }

  lemma LeReflexive(a: string)
    ensures Le(a, a)
  {
  }

  // Sorting forgets the order of its input and nothing else.
  lemma SortDecides(xs: seq<string>, ys: seq<string>)
    ensures SortStrings(xs) == SortStrings(ys) <==> multiset(xs) == multiset(ys)
  {
    SortAscending(xs);
    SortAscending(ys);
    if multiset(xs) == multiset(ys) {
      AscendingUnique(SortStrings(xs), SortStrings(ys));
    }
  }

  predicate NoRepeats(xs: seq<string>) {
    forall i, j :: 0 <= i < j < |xs| ==> xs[i] != xs[j]
  }

  ghost function SetOf(xs: seq<string>): set<string> { set x | x in xs }

  lemma {:induction false} NoRepeatsMultiset(xs: seq<string>)
    requires NoRepeats(xs)
    ensures multiset(xs) == multiset(SetOf(xs))
  {
    if xs != [] {
      NoRepeatsMultiset(xs[1..]);
      assert xs == [xs[0]] + xs[1..];
      assert SetOf(xs) == {xs[0]} + SetOf(xs[1..]);
      assert xs[0] !in SetOf(xs[1..]);
    }
  }

  lemma SortDecidesSets(xs: seq<string>, ys: seq<string>)
    requires NoRepeats(xs) && NoRepeats(ys)
    ensures SortStrings(xs) == SortStrings(ys) <==> SetOf(xs) == SetOf(ys)
  {
    SortDecides(xs, ys);
    NoRepeatsMultiset(xs);
    NoRepeatsMultiset(ys);
    if SortStrings(xs) == SortStrings(ys) {
      forall x ensures x in SetOf(xs) <==> x in SetOf(ys) {
        assert x in SetOf(xs) <==> x in multiset(SetOf(xs));
      }
    }
  }
}
