/** The parts of Go's `strings` and `strconv` packages the core uses:
    `strings.Contains`, `strings.Split` with a one-character separator and
    `strconv.Itoa`, each with an independent characterisation. */
module Strings {

  /** `sub` occurs in `s` starting at index `i`. */
  ghost predicate OccursAt(s: string, sub: string, i: int) {
    0 <= i && i + |sub| <= |s| && s[i..i + |sub|] == sub
  }

  predicate HasPrefix(s: string, prefix: string) {
    |prefix| <= |s| && s[..|prefix|] == prefix
  }

  /** `strings.Contains(s, sub)`; the empty string is contained in every string. */
  predicate Contains(s: string, sub: string)
    decreases |s|
  {
    if HasPrefix(s, sub) then true
    else if |s| == 0 then false
    else Contains(s[1..], sub)
  }

  /** `Contains` is exactly substring occurrence. */
  lemma {:induction false} ContainsIffOccurs(s: string, sub: string)
    ensures Contains(s, sub) <==> exists i :: OccursAt(s, sub, i)
    decreases |s|
  {
    if HasPrefix(s, sub) {
      assert OccursAt(s, sub, 0);
    } else if |s| > 0 {
      ContainsIffOccurs(s[1..], sub);
      if exists i :: OccursAt(s[1..], sub, i) {
        var i :| OccursAt(s[1..], sub, i);
        assert s[1..][i..i + |sub|] == s[i + 1..i + 1 + |sub|];
        assert OccursAt(s, sub, i + 1);
      }
      if exists i :: OccursAt(s, sub, i) {
        var i :| OccursAt(s, sub, i);
        assert i != 0;
        assert s[1..][i - 1..i - 1 + |sub|] == s[i..i + |sub|];
        assert OccursAt(s[1..], sub, i - 1);
      }
    }
  }

  // ----- strings.Split with a one-character separator -----

  /** Number of occurrences of `c` in `s`. */
  function Count(s: string, c: char): nat {
    if |s| == 0 then 0 else (if s[0] == c then 1 else 0) + Count(s[1..], c)
  }

  /** `strings.Split(s, [sep])`: the maximal separator-free fields of `s`,
      one more than there are separators. */
  function Split(s: string, sep: char): (parts: seq<string>)
    ensures |parts| == Count(s, sep) + 1
    ensures forall k :: 0 <= k < |parts| ==> sep !in parts[k]
    decreases |s|
  {
    if |s| == 0 then [""]
    else
      var rest := Split(s[1..], sep);
      if s[0] == sep then [""] + rest
      else [[s[0]] + rest[0]] + rest[1..]
  }

  /** `strings.Join(parts, [sep])`, the inverse of `Split`. */
  function Join(parts: seq<string>, sep: char): string
    requires |parts| >= 1
  {
    if |parts| == 1 then parts[0] else parts[0] + [sep] + Join(parts[1..], sep)
  }

  lemma JoinPrependToHead(p: string, parts: seq<string>, sep: char)
    requires |parts| >= 1
    ensures Join([p + parts[0]] + parts[1..], sep) == p + Join(parts, sep)
  {
    var q := [p + parts[0]] + parts[1..];
    assert q[1..] == parts[1..];
  }

  /** Joining the fields of `s` gives back `s`. */
  lemma {:induction false} JoinSplit(s: string, sep: char)
    ensures Join(Split(s, sep), sep) == s
    decreases |s|
  {
    if |s| > 0 {
      var rest := Split(s[1..], sep);
      JoinSplit(s[1..], sep);
      if s[0] == sep {
        assert ([""] + rest)[1..] == rest;
      } else {
        JoinPrependToHead([s[0]], rest, sep);
      }
      assert s == [s[0]] + s[1..];
    }
  }

  /** A string without the separator is a single field. */
  lemma {:induction false} SplitWithoutSeparator(u: string, sep: char)
    requires sep !in u
    ensures Split(u, sep) == [u]
    decreases |u|
  {
    if |u| > 0 {
      SplitWithoutSeparator(u[1..], sep);
      assert [u[0]] + u[1..] == u;
    }
  }

  /** A separator-free head followed by a separator becomes the first field. */
  lemma {:induction false} SplitAtFirstSeparator(u: string, t: string, sep: char)
    requires sep !in u
    ensures Split(u + [sep] + t, sep) == [u] + Split(t, sep)
    decreases |u|
  {
    var s := u + [sep] + t;
    if |u| == 0 {
      assert s[1..] == t;
    } else {
      assert s[1..] == u[1..] + [sep] + t;
      SplitAtFirstSeparator(u[1..], t, sep);
      assert [u[0]] + u[1..] == u;
    }
  }

  /** Splitting a join of separator-free fields gives back the fields. */
  lemma {:induction false} SplitJoin(parts: seq<string>, sep: char)
    requires |parts| >= 1
    requires forall k :: 0 <= k < |parts| ==> sep !in parts[k]
    ensures Split(Join(parts, sep), sep) == parts
    decreases |parts|
  {
    if |parts| == 1 {
      SplitWithoutSeparator(parts[0], sep);
    } else {
      SplitJoin(parts[1..], sep);
      SplitAtFirstSeparator(parts[0], Join(parts[1..], sep), sep);
      assert [parts[0]] + parts[1..] == parts;
    }
  }

  /** The first field is the longest separator-free prefix. */
  lemma FirstFieldIsLongestPrefix(s: string, sep: char)
    ensures HasPrefix(s, Split(s, sep)[0])
    ensures var f := Split(s, sep)[0]; |f| == |s| || s[|f|] == sep
  {
    var parts := Split(s, sep);
    JoinSplit(s, sep);
    if |parts| > 1 {
      assert s == parts[0] + [sep] + Join(parts[1..], sep);
    }
  }

  // ----- strconv.Itoa -----

  predicate IsDigit(c: char) {
    '0' <= c <= '9'
  }

  predicate AllDigits(s: string) {
    forall k :: 0 <= k < |s| ==> IsDigit(s[k])
  }

  function DigitChar(d: nat): (c: char)
    requires d < 10
    ensures IsDigit(c)
  {
    ('0' as int + d) as char
  }

  function DigitValue(c: char): (d: nat)
    requires IsDigit(c)
    ensures d < 10
  {
    c as int - '0' as int
  }

  /** Decimal digits of `n`, most significant first, no leading zeros. */
  function NatToString(n: nat): (s: string)
    ensures |s| >= 1 && AllDigits(s)
    ensures |s| > 1 ==> s[0] != '0'
    decreases n
  {
    if n < 10 then [DigitChar(n)] else NatToString(n / 10) + [DigitChar(n % 10)]
  }

  /** The digits of a positive number do not start with `0`. */
  lemma {:induction false} NatToStringPositive(n: nat)
    requires n > 0
    ensures NatToString(n)[0] != '0'
  {
    if n < 10 {
      assert NatToString(n) == [DigitChar(n)];
    } else {
      assert NatToString(n)[0] == NatToString(n / 10)[0];
      NatToStringPositive(n / 10);
    }
  }

  /** `strconv.Itoa`: optional minus sign, then the decimal digits. */
  function Itoa(n: int): string {
    if n < 0 then "-" + NatToString(-n) else NatToString(n)
  }

  /** The value of a string of decimal digits. */
  function ParseNat(s: string): nat
    requires AllDigits(s)
    decreases |s|
  {
    if |s| == 0 then 0 else 10 * ParseNat(s[..|s| - 1]) + DigitValue(s[|s| - 1])
  }

  /** Decimal text with an optional leading minus sign. */
  predicate IsDecimal(s: string) {
    if |s| > 0 && s[0] == '-' then |s| > 1 && AllDigits(s[1..]) else |s| > 0 && AllDigits(s)
  }

  /** The one text `strconv.Itoa` gives for a value: an optional minus sign,
      then digits without a leading zero, where `0` stands alone and never
      carries a sign. */
  predicate CanonicalDecimal(s: string) {
    if |s| > 0 && s[0] == '-' then |s| > 1 && AllDigits(s[1..]) && s[1] != '0'
    else |s| > 0 && AllDigits(s) && (|s| > 1 ==> s[0] != '0')
  }

  /** `strconv.Atoi` on well-formed input. */
  function Atoi(s: string): int
    requires IsDecimal(s)
  {
    if s[0] == '-' then -(ParseNat(s[1..]) as int) else ParseNat(s)
  }

  lemma {:induction false} ParseNatToString(n: nat)
    ensures ParseNat(NatToString(n)) == n
    decreases n
  {
    if n >= 10 {
      ParseNatToString(n / 10);
      var s := NatToString(n);
      assert s[..|s| - 1] == NatToString(n / 10);
    }
  }

  /** `Itoa` is injective: its text reads back as the same integer. */
  lemma ItoaRoundTrip(n: int)
    ensures IsDecimal(Itoa(n)) && Atoi(Itoa(n)) == n
  {
    if n < 0 {
      ParseNatToString(-n);
      assert Itoa(n)[1..] == NatToString(-n);
    } else {
      ParseNatToString(n);
    }
  }

  /** `Itoa` always yields the canonical text, so `"0080"` or `"-0"` never
      come out of it. */
  lemma ItoaCanonical(n: int)
    ensures CanonicalDecimal(Itoa(n)) && IsDecimal(Itoa(n))
  {
    if n < 0 {
      NatToStringPositive(-n);
      assert Itoa(n)[1..] == NatToString(-n);
    }
  }

  lemma {:induction false} ParseNatPositive(d: string)
    requires |d| > 0 && AllDigits(d) && d[0] != '0'
    ensures ParseNat(d) > 0
    decreases |d|
  {
    if |d| > 1 {
      ParseNatPositive(d[..|d| - 1]);
    }
  }

  /** Digits without a leading zero are the digits of their own value. */
  lemma {:induction false} NatToStringParseNat(d: string)
    requires |d| > 0 && AllDigits(d) && (|d| > 1 ==> d[0] != '0')
    ensures NatToString(ParseNat(d)) == d
    decreases |d|
  {
    var init := d[..|d| - 1];
    var last := DigitValue(d[|d| - 1]);
    if |d| > 1 {
      ParseNatPositive(init);
      NatToStringParseNat(init);
      var n := ParseNat(d);
      assert n == 10 * ParseNat(init) + last;
      assert n / 10 == ParseNat(init) && n % 10 == last;
      assert d == init + [d[|d| - 1]];
    }
  }

  /** Conversely, a canonical text is what `Itoa` prints for its value, so
      two canonical texts of the same value are equal. */
  lemma CanonicalIsItoa(s: string)
    requires CanonicalDecimal(s)
    ensures IsDecimal(s) && Itoa(Atoi(s)) == s
  {
    if s[0] == '-' {
      NatToStringParseNat(s[1..]);
      ParseNatPositive(s[1..]);
      assert s == "-" + s[1..];
    } else {
      NatToStringParseNat(s);
    }
  }
}
