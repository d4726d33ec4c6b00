/** The parts of Go's `strings` and `strconv` packages that the wire syntax and the
    diff algorithm rest on.  A Go string is a sequence of bytes; here it is a Dafny
    string, one character per byte, and every law holds for any alphabet.
 */
module GoStrings {

  datatype Option<+T> = None | Some(value: T)

  predicate Distinct(ids: seq<string>) {
    forall j, k :: 0 <= j < k < |ids| ==> ids[j] != ids[k]
  }

  /** Whether `sep` occurs nowhere in `s`. */
  predicate Free(s: string, sep: char) {
    sep !in s
  }

  predicate AllFree(pieces: seq<string>, sep: char) {
    forall k :: 0 <= k < |pieces| ==> Free(pieces[k], sep)
  }

  /** The position of the first `sep` in `s`, or `|s|` when there is none. */
  function IndexOf(s: string, sep: char): (i: nat)
    ensures i <= |s|
    ensures Free(s[..i], sep)
    ensures i < |s| ==> s[i] == sep
  {
    if |s| == 0 || s[0] == sep then 0
    else
      var i := 1 + IndexOf(s[1..], sep);
      assert s[..i] == [s[0]] + s[1..][..i - 1];
      i
  }

  datatype CutResult = CutResult(before: string, after: string, found: bool)

  /** strings.Cut: the contract determines the result. */
  function Cut(s: string, sep: char): (r: CutResult)
    ensures r.found <==> !Free(s, sep)
    ensures Free(r.before, sep)
    ensures r.found ==> s == r.before + [sep] + r.after
    ensures !r.found ==> r.before == s && r.after == ""
  {
    var i := IndexOf(s, sep);
    if i < |s| then CutResult(s[..i], s[i + 1..], true) else CutResult(s, "", false)
  }

  /** A separator-free prefix is what Cut finds before the first separator. */
  lemma CutAt(a: string, sep: char, b: string)
    requires Free(a, sep)
    ensures Cut(a + [sep] + b, sep) == CutResult(a, b, true)
  {
    var s := a + [sep] + b;
    var r := Cut(s, sep);
    assert s[|a|] == sep;
    FirstSeparator(a, b, r.before, r.after, sep);
  }

  /** The place of the first separator is unique. */
  lemma FirstSeparator(a: string, b: string, c: string, d: string, sep: char)
    requires Free(a, sep) && Free(c, sep)
    requires a + [sep] + b == c + [sep] + d
    ensures a == c && b == d
  {
    var s := a + [sep] + b;
    assert s[|a|] == sep && s[|c|] == sep;
    assert forall k :: 0 <= k < |a| ==> s[k] == a[k] && s[k] != sep;
    assert forall k :: 0 <= k < |c| ==> s[k] == c[k] && s[k] != sep;
    assert |a| == |c|;
    assert a == s[..|a|] && c == s[..|c|];
    assert b == s[|a| + 1..] && d == s[|c| + 1..];
  }

  /** strings.Join with a one-character separator. */
  function Join(pieces: seq<string>, sep: char): string {
    if |pieces| == 0 then ""
    else if |pieces| == 1 then pieces[0]
    else pieces[0] + [sep] + Join(pieces[1..], sep)
  }

  /** strings.Split with a one-character separator. */
  function Split(s: string, sep: char): (pieces: seq<string>)
    ensures |pieces| >= 1
    decreases |s|
  {
    var i := IndexOf(s, sep);
    if i == |s| then [s] else [s[..i]] + Split(s[i + 1..], sep)
  }

  lemma JoinCons(piece: string, rest: seq<string>, sep: char)
    requires |rest| >= 1
    ensures Join([piece] + rest, sep) == piece + [sep] + Join(rest, sep)
  {
    assert ([piece] + rest)[1..] == rest;
  }

  /** No separator is inside a piece, and joining the pieces gives the text back. */
  lemma {:induction false} JoinOfSplit(s: string, sep: char)
    ensures AllFree(Split(s, sep), sep)
    ensures Join(Split(s, sep), sep) == s
    decreases |s|
  {
    var i := IndexOf(s, sep);
    if i < |s| {
      JoinOfSplit(s[i + 1..], sep);
      JoinCons(s[..i], Split(s[i + 1..], sep), sep);
      assert s == s[..i] + [sep] + s[i + 1..];
    } else {
      assert s[..i] == s;
    }
  }

  /** Join is injective on separator-free pieces, so Split is its two-sided inverse. */
  lemma {:induction false} JoinInjective(xs: seq<string>, ys: seq<string>, sep: char)
    requires |xs| >= 1 && |ys| >= 1
    requires AllFree(xs, sep) && AllFree(ys, sep)
    requires Join(xs, sep) == Join(ys, sep)
    ensures xs == ys
    decreases |xs|
  {
    assert |xs| > 1 ==> Join(xs, sep)[|xs[0]|] == sep;
    assert |ys| > 1 ==> Join(ys, sep)[|ys[0]|] == sep;
    assert Free(xs[0], sep) && Free(ys[0], sep);
    if |xs| > 1 && |ys| > 1 {
      FirstSeparator(xs[0], Join(xs[1..], sep), ys[0], Join(ys[1..], sep), sep);
      JoinInjective(xs[1..], ys[1..], sep);
      assert xs == [xs[0]] + xs[1..] && ys == [ys[0]] + ys[1..];
    }
  }

  lemma SplitOfJoin(pieces: seq<string>, sep: char)
    requires |pieces| >= 1 && AllFree(pieces, sep)
    ensures Split(Join(pieces, sep), sep) == pieces
  {
    JoinOfSplit(Join(pieces, sep), sep);
    JoinInjective(Split(Join(pieces, sep), sep), pieces, sep);
  }

  lemma SplitOfFree(s: string, sep: char)
    requires Free(s, sep)
    ensures Split(s, sep) == [s]
  {
    SplitOfJoin([s], sep);
  }

  /** Text put in front of joined pieces extends the first piece. */
  lemma JoinExtendsFirst(prefix: string, pieces: seq<string>, sep: char)
    requires |pieces| >= 1
    ensures Join([prefix + pieces[0]] + pieces[1..], sep) == prefix + Join(pieces, sep)
  {
    var longer := [prefix + pieces[0]] + pieces[1..];
    assert longer[1..] == pieces[1..];
    if |pieces| > 1 {
      assert prefix + (pieces[0] + [sep] + Join(pieces[1..], sep))
          == (prefix + pieces[0]) + [sep] + Join(pieces[1..], sep);
    }
  }

  lemma SameFront<T>(a: seq<T>, b: seq<T>, c: seq<T>)
    ensures a + b == a + c <==> b == c
  {
    assert (a + b)[|a|..] == b && (a + c)[|a|..] == c;
  }

  lemma SameBack<T>(a: seq<T>, b: seq<T>, c: seq<T>)
    ensures a + c == b + c <==> a == b
  {
    if a + c == b + c {
      assert |a| == |b|;
      assert a == (a + c)[..|a|] && b == (b + c)[..|b|];
    }
  }

  // ----- decimal numbers -----

  const MIN_INT64: int := -0x8000_0000_0000_0000
  const MAX_INT64: int := 0x7fff_ffff_ffff_ffff

  /** The values of Go's `int` on the 64-bit servers this runs on. */
  predicate Int64(n: int) {
    MIN_INT64 <= n <= MAX_INT64
  }

  predicate IsDigit(c: char) {
    '0' <= c <= '9'
  }

  predicate AllDigits(s: string) {
    forall k :: 0 <= k < |s| ==> IsDigit(s[k])
  }

  function DigitChar(d: nat): (c: char)
    requires d < 10
    ensures IsDigit(c) && c as int - '0' as int == d
  {
    ('0' as int + d) as char
  }

  /** The value of a string of decimal digits, leading zeros included. */
  function DigitsValue(s: string): (n: nat)
    requires AllDigits(s)
  {
    if |s| == 0 then 0
    else 10 * DigitsValue(s[..|s| - 1]) + (s[|s| - 1] as int - '0' as int)
  }

  function Digits(n: nat): (s: string)
    ensures |s| >= 1 && AllDigits(s)
    ensures DigitsValue(s) == n
    ensures |s| > 1 ==> s[0] != '0'
    ensures n > 0 ==> s[0] != '0'
  {
    if n < 10 then [DigitChar(n)]
    else
      var front := Digits(n / 10);
      var s := front + [DigitChar(n % 10)];
      assert s[..|s| - 1] == front;
      s
  }

  /** What fmt prints for %d. */
  function Itoa(n: int): string {
    if n < 0 then "-" + Digits(-n) else Digits(n)
  }

  /** strconv.Atoi: an optional sign, then at least one decimal digit and nothing else;
      a value outside the 64-bit range is an error. */
  function Atoi(s: string): (r: Option<int>)
    ensures r.Some? ==> Int64(r.value)
  {
    var signed := |s| > 0 && (s[0] == '-' || s[0] == '+');
    var digits := if signed then s[1..] else s;
    if |digits| == 0 || !AllDigits(digits) then None
    else
      var magnitude: int := DigitsValue(digits);
      var n := if signed && s[0] == '-' then -magnitude else magnitude;
      if Int64(n) then Some(n) else None
  }

  lemma AtoiOfItoa(n: int)
    ensures Atoi(Itoa(n)) == if Int64(n) then Some(n) else None
    ensures Free(Itoa(n), '|')
  {
    var digits := Digits(if n < 0 then -n else n);
    assert IsDigit(digits[0]);
    if n < 0 {
      assert Itoa(n)[1..] == digits;
    }
    forall k | 0 <= k < |Itoa(n)| ensures Itoa(n)[k] != '|' {
      if n < 0 && k > 0 {
        assert Itoa(n)[k] == digits[k - 1];
      }
    }
  }

  // ----- decimal notation -----

  function Power(base: nat, k: nat): nat {
    if k == 0 then 1 else base * Power(base, k - 1)
  }

  lemma {:induction false} PowerPositive(base: nat, k: nat)
    requires base > 0
    ensures Power(base, k) > 0
  {
    if k > 0 {
      PowerPositive(base, k - 1);
    }
  }

  lemma Int64IsTwosComplement(n: int)
    ensures Int64(n) <==> n + Power(2, 63) >= 0 && n < Power(2, 63)
  {
    assert Power(2, 16) == 0x1_0000;
    PowerAdds(2, 16, 16);
    PowerAdds(2, 32, 16);
    PowerAdds(2, 48, 15);
    assert Power(2, 15) == 0x8000;
  }

  lemma {:induction false} PowerAdds(base: nat, j: nat, k: nat)
    ensures Power(base, j + k) == Power(base, j) * Power(base, k)
    decreases k
  {
    if k > 0 {
      PowerAdds(base, j, k - 1);
      assert j + k - 1 == j + (k - 1);
      Reordered(base, Power(base, j), Power(base, k - 1));
    } else {
      assert Power(base, j) * 1 == Power(base, j);
    }
  }

  lemma Reordered(a: int, b: int, c: int)
    ensures a * (b * c) == b * (a * c)
  {
    assert a * (b * c) == (a * b) * c;
    assert (b * a) * c == b * (a * c);
  }

  /** A digit is worth itself, and digits in front of `k` others are worth ten to the power of
      `k` times as much. */
  lemma {:induction false} DigitsArePositional(a: string, b: string)
    requires AllDigits(a) && AllDigits(b)
    ensures AllDigits(a + b) && DigitsValue(a + b) == DigitsValue(a) * Power(10, |b|) + DigitsValue(b)
    ensures |b| == 1 ==> DigitsValue(b) == b[0] as int - '0' as int
    decreases |b|
  {
    if |b| == 0 {
      assert a + b == a;
    } else {
      var front, last := b[..|b| - 1], b[|b| - 1] as int - '0' as int;
      assert (a + b)[..|a + b| - 1] == a + front;
      DigitsArePositional(a, front);
      var v, p := DigitsValue(a), Power(10, |front|);
      Reordered(10, v, p);
      assert 10 * (v * p + DigitsValue(front)) + last == v * (10 * p) + (10 * DigitsValue(front) + last);
    }
  }

  lemma {:induction false} DigitsBounded(s: string)
    requires AllDigits(s)
    ensures DigitsValue(s) < Power(10, |s|)
    ensures |s| > 0 && s[0] != '0' ==> Power(10, |s| - 1) <= DigitsValue(s)
  {
    if |s| > 0 {
      DigitsBounded(s[..|s| - 1]);
    }
  }

  lemma {:induction false} PowerGrows(j: nat, k: nat)
    requires j <= k
    ensures Power(10, j) <= Power(10, k)
    decreases k
  {
    if j < k {
      PowerGrows(j, k - 1);
      PowerPositive(10, k - 1);
    }
  }

  /** A positive number prints in `k` digits exactly if it is at least the `k - 1`st power of ten
      and less than the next one; a negative one prints as a minus and its negation. */
  lemma ItoaIsDecimal(n: int, k: nat)
    ensures n > 0 && k > 0 ==> (|Itoa(n)| == k <==> Power(10, k - 1) <= n < Power(10, k))
    ensures n >= 0 ==> AllDigits(Itoa(n)) && DigitsValue(Itoa(n)) == n
    ensures n < 0 ==> Itoa(n) == "-" + Itoa(-n)
    ensures Itoa(0) == "0" && Itoa(10) == "10" && Itoa(-1) == "-1"
  {
    if n > 0 && k > 0 {
      var length := |Itoa(n)|;
      DigitsBounded(Itoa(n));
      if length < k {
        PowerGrows(length, k - 1);
      } else if length > k {
        PowerGrows(k, length - 1);
      }
    }
    assert Digits(1) == "1" && Digits(10) == Digits(1) + [DigitChar(0)];
  }

  function Zeros(k: nat): (s: string)
    ensures |s| == k && AllDigits(s)
  {
    seq(k, _ => '0')
  }

  lemma {:induction false} ZerosAreNothing(k: nat)
    ensures DigitsValue(Zeros(k)) == 0
  {
    if k > 0 {
      assert Zeros(k)[..k - 1] == Zeros(k - 1);
      ZerosAreNothing(k - 1);
    }
  }

  /** What can be read: decimal digits, after at most one sign. */
  lemma AtoiReadsSigned(sign: string, digits: string)
    requires sign == "" || sign == "+" || sign == "-"
    requires |digits| > 0 && AllDigits(digits)
    ensures var n: int := if sign == "-" then -(DigitsValue(digits) as int) else DigitsValue(digits);
            Atoi(sign + digits) == if Int64(n) then Some(n) else None
  {
    hide DigitsValue;
    var s := sign + digits;
    assert IsDigit(digits[0]);
    assert s[|sign|..] == digits && s[0] == if sign == "" then digits[0] else sign[0];
  }

  lemma AtoiOfPower(k: nat)
    ensures Atoi("1" + Zeros(k)) == if Int64(Power(10, k)) then Some(Power(10, k)) else None
  {
    OneIsOne();
    hide DigitsValue, Power;
    DigitsArePositional("1", Zeros(k));
    ZerosAreNothing(k);
    AtoiReadsSigned("", "1" + Zeros(k));
    assert "" + ("1" + Zeros(k)) == "1" + Zeros(k);
  }

  lemma OneIsOne()
    ensures AllDigits("1") && DigitsValue("1") == 1
  {
    assert "1"[..0] == "";
  }

  /** Nothing else can be read. */
  lemma AtoiReadsNothingElse(s: string)
    requires Atoi(s).Some?
    ensures exists digits: string :: |digits| > 0 && AllDigits(digits)
              && (s == digits || s == "+" + digits || s == "-" + digits)
  {
    if s[0] == '-' || s[0] == '+' {
      assert s == [s[0]] + s[1..] && AllDigits(s[1..]);
    } else {
      assert s == s && AllDigits(s);
    }
  }
}
