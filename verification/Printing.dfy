/**
 How numbers are printed, and when printed text can be read back.
 */
module Printing {

  predicate IsDigit(c: char) {
    '0' <= c <= '9' || 'a' <= c <= 'f'
  }

  function Digit(d: nat): (c: char)
    requires d < 16
    ensures IsDigit(c)
  {
    if d < 10 then '0' + d as char else 'a' + (d - 10) as char
  }

  function DigitValue(c: char): nat {
    if '0' <= c <= '9' then (c - '0') as nat
    else if 'a' <= c <= 'f' then (c - 'a') as nat + 10
    else 0
  }

  lemma Quotient(n: nat, base: nat)
    requires 2 <= base <= n
    ensures 0 <= n / base < n
    ensures n / base * base + n % base == n && n % base < base
  {
  }

  function Digits(n: nat, base: nat): (text: string)
    requires 2 <= base <= 16
    ensures text != "" && forall k :: 0 <= k < |text| ==> IsDigit(text[k])
  {
    if n < base then [Digit(n)]
    else
      Quotient(n, base);
      Digits(n / base, base) + [Digit(n % base)]
  }

  function Value(text: string, base: nat): nat {
    if text == "" then 0
    else Value(text[..|text| - 1], base) * base + DigitValue(text[|text| - 1])
  }

  lemma DigitRoundTrip(d: nat)
    requires d < 16
    ensures DigitValue(Digit(d)) == d
  {
  }

  lemma ValueAfter(text: string, c: char, base: nat)
    ensures Value(text + [c], base) == Value(text, base) * base + DigitValue(c)
  {
    assert (text + [c])[..|text|] == text;
  }

  /** Printed numbers can be read back. */
  lemma {:induction false} DigitsRoundTrip(n: nat, base: nat)
    requires 2 <= base <= 16
    ensures Value(Digits(n, base), base) == n
  {
    if n < base {
      DigitRoundTrip(n);
      ValueAfter("", Digit(n), base);
      assert "" + [Digit(n)] == [Digit(n)];
    } else {
      var q, d := n / base, n % base;
      Quotient(n, base);
      DigitsRoundTrip(q, base);
      DigitRoundTrip(d);
      ValueAfter(Digits(q, base), Digit(d), base);
    }
  }

  /** strconv.Itoa and strconv.FormatInt in base ten. */
  function Itoa(i: int): string {
    if i < 0 then "-" + Digits(-i, 10) else Digits(i, 10)
  }

  function Hex(n: nat): string {
    Digits(n, 16)
  }

  lemma ItoaChars(i: int, k: nat)
    requires k < |Itoa(i)|
    ensures Itoa(i)[k] == '-' || IsDigit(Itoa(i)[k])
  {
    if i < 0 && k > 0 {
      assert Itoa(i)[k] == Digits(-i, 10)[k - 1];
    }
  }

  lemma ItoaInjective(i: int, j: int)
    requires Itoa(i) == Itoa(j)
    ensures i == j
  {
    var m, n := if i < 0 then -i else i, if j < 0 then -j else j;
    DigitsRoundTrip(m, 10);
    DigitsRoundTrip(n, 10);
    if i < 0 {
      assert Itoa(i)[0] == '-';
      assert Itoa(i)[1..] == Digits(m, 10);
    }
    if j < 0 {
      assert Itoa(j)[0] == '-';
      assert Itoa(j)[1..] == Digits(n, 10);
    }
  }

  lemma HexInjective(m: nat, n: nat)
    requires Hex(m) == Hex(n)
    ensures m == n
  {
    DigitsRoundTrip(m, 16);
    DigitsRoundTrip(n, 16);
  }

  /** Text can be cut at the first mark. */
  lemma CutAtMark(a: string, b: string, mark: char, x: string, y: string)
    requires mark !in a && mark !in b
    requires a + [mark] + x == b + [mark] + y
    ensures a == b && x == y
  {
    var s := a + [mark] + x;
    assert s == b + [mark] + y;
    assert s[|a|] == mark && s[|b|] == mark;
    assert forall k :: 0 <= k < |a| ==> s[k] == a[k];
    assert forall k :: 0 <= k < |b| ==> s[k] == b[k];
    assert a == s[..|a|] && b == s[..|b|];
    assert x == s[|a| + 1..] && y == s[|b| + 1..];
  }

  /** Text can be cut at the last mark. */
  lemma CutAtLastMark(a: string, b: string, mark: char, x: string, y: string)
    requires mark !in x && mark !in y
    requires a + [mark] + x == b + [mark] + y
    ensures a == b && x == y
  {
    var s := a + [mark] + x;
    assert s == b + [mark] + y;
    assert s[|a|] == mark && s[|b|] == mark;
    assert forall k :: |a| < k < |s| ==> s[k] == x[k - |a| - 1];
    assert forall k :: |b| < k < |s| ==> s[k] == y[k - |b| - 1];
    assert a == s[..|a|] && b == s[..|b|];
    assert x == s[|a| + 1..] && y == s[|b| + 1..];
  }

  /** strings.Join with a comma. */
  function Join(parts: seq<string>): string {
    if parts == [] then ""
    else if |parts| == 1 then parts[0]
    else parts[0] + "," + Join(parts[1..])
  }

  ghost predicate NoCommas(parts: seq<string>) {
    forall k :: 0 <= k < |parts| ==> ',' !in parts[k]
  }

  lemma {:induction false} JoinHasNoComma(parts: seq<string>)
    requires parts != [] && NoCommas(parts)
    ensures ',' in Join(parts) <==> |parts| > 1
  {
    if |parts| > 1 {
      assert Join(parts)[|parts[0]|] == ',';
    }
  }

  /** Joined parts without commas can be told apart again. */
  lemma {:induction false} JoinInjective(a: seq<string>, b: seq<string>)
    requires a != [] && b != [] && NoCommas(a) && NoCommas(b)
    requires Join(a) == Join(b)
    ensures a == b
  {
    JoinHasNoComma(a);
    JoinHasNoComma(b);
    if |a| == 1 {
      assert a == [a[0]] && b == [b[0]];
    } else {
      CutAtMark(a[0], b[0], ',', Join(a[1..]), Join(b[1..]));
      JoinInjective(a[1..], b[1..]);
      assert a == [a[0]] + a[1..] && b == [b[0]] + b[1..];
    }
  }

  lemma {:induction false} JoinConcat(a: seq<string>, b: seq<string>)
    requires a != [] && b != []
    ensures Join(a + b) == Join(a) + "," + Join(b)
  {
    if |a| == 1 {
      assert a + b == [a[0]] + b;
      assert (a + b)[1..] == b;
    } else {
      JoinConcat(a[1..], b);
      assert (a + b)[1..] == a[1..] + b;
    }
  }
}
