// Strings cut at a separator, decimal numerals, and blanks.
module Text {
  import opened Wrappers

  // ---------- Splitting and joining ----------

  // The first position at or after `from` that holds c, or |s| when there is none.
  function FindFrom(s: string, c: char, from: nat): (i: nat)
    requires from <= |s|
    ensures from <= i <= |s|
    ensures forall k | from <= k < i :: s[k] != c
    ensures i < |s| ==> s[i] == c
    decreases |s| - from
  {
    if from == |s| || s[from] == c then from else FindFrom(s, c, from + 1)
  }

  // The parts between separators.
  function Split(s: string, sep: char): (parts: seq<string>)
    ensures |parts| >= 1
    decreases |s|
  {
    var i := FindFrom(s, sep, 0);
    if i == |s| then [s] else [s[..i]] + Split(s[i + 1..], sep)
  }

  function Join(parts: seq<string>, sep: char): string {
    if parts == [] then "" else if |parts| == 1 then parts[0] else parts[0] + [sep] + Join(parts[1..], sep)
  }

  function Count(s: string, c: char): nat {
    if s == "" then 0 else (if s[0] == c then 1 else 0) + Count(s[1..], c)
  }

  ghost predicate FreeOf(parts: seq<string>, sep: char) {
    forall k | 0 <= k < |parts| :: sep !in parts[k]
  }

  lemma SplitUnfold(a: string, sep: char, b: string)
    requires sep !in a
    ensures Split(a + [sep] + b, sep) == [a] + Split(b, sep)
  {
    var s := a + [sep] + b;
    var i := FindFrom(s, sep, 0);
    assert s[|a|] == sep;
    assert forall k | 0 <= k < |a| :: s[k] == a[k];
    assert i == |a|;
    assert s[..i] == a && s[i + 1..] == b;
  }

  lemma SplitSingle(a: string, sep: char)
    requires sep !in a
    ensures Split(a, sep) == [a]
  {
  }

  // A string with a separator is its first part, the separator and the rest.
  lemma FirstPart(s: string, sep: char) returns (a: string, b: string)
    requires sep in s
    ensures s == a + [sep] + b && sep !in a && |b| < |s|
  {
    var i := FindFrom(s, sep, 0);
    a, b := s[..i], s[i + 1..];
  }

  lemma {:induction false} JoinOfSplit(s: string, sep: char)
    ensures Join(Split(s, sep), sep) == s
    decreases |s|
  {
    if sep in s {
      var a, b := FirstPart(s, sep);
      SplitUnfold(a, sep, b);
      JoinOfSplit(b, sep);
      assert ([a] + Split(b, sep))[1..] == Split(b, sep);
    }
  }

  lemma {:induction false} SplitIsFree(s: string, sep: char)
    ensures FreeOf(Split(s, sep), sep) && |Split(s, sep)| == Count(s, sep) + 1
    decreases |s|
  {
    hide Split, Count;
    if sep in s {
      var a, b := FirstPart(s, sep);
      SplitUnfold(a, sep, b);
      SplitIsFree(b, sep);
      CountFirst(a, sep, b);
    } else {
      SplitSingle(s, sep);
      NoneToCount(s, sep);
    }
  }

  lemma CountFirst(a: string, c: char, b: string)
    requires c !in a
    ensures Count(a + [c] + b, c) == 1 + Count(b, c)
  {
    assert a + [c] + b == a + ([c] + b) && ([c] + b)[1..] == b;
    CountConcat(a, [c] + b, c);
    NoneToCount(a, c);
  }

  lemma {:induction false} NoneToCount(s: string, c: char)
    requires c !in s
    ensures Count(s, c) == 0
    decreases |s|
  {
    if s != "" {
      NoneToCount(s[1..], c);
    }
  }

  lemma {:induction false} CountConcat(a: string, b: string, c: char)
    ensures Count(a + b, c) == Count(a, c) + Count(b, c)
    decreases |a|
  {
    if a == "" {
      assert a + b == b;
    } else {
      assert (a + b)[1..] == a[1..] + b;
      CountConcat(a[1..], b, c);
    }
  }

  lemma {:induction false} SplitOfJoin(parts: seq<string>, sep: char)
    requires parts != [] && FreeOf(parts, sep)
    ensures Split(Join(parts, sep), sep) == parts
    decreases |parts|
  {
    if |parts| == 1 {
      SplitSingle(parts[0], sep);
    } else {
      SplitUnfold(parts[0], sep, Join(parts[1..], sep));
      SplitOfJoin(parts[1..], sep);
    }
  }

  // The parts when one more character follows.
  function Grown(parts: seq<string>, sep: char, c: char): seq<string>
    requires parts != []
  {
    if c == sep then parts + [""]
    else parts[..|parts| - 1] + [parts[|parts| - 1] + [c]]
  }

  lemma {:induction false} SplitSnoc(s: string, sep: char, c: char)
    ensures Split(s + [c], sep) == Grown(Split(s, sep), sep, c)
    decreases |s|
  {
    hide Split;
    if sep in s {
      var a, b := FirstPart(s, sep);
      SplitUnfold(a, sep, b);
      assert s + [c] == a + [sep] + (b + [c]);
      SplitUnfold(a, sep, b + [c]);
      SplitSnoc(b, sep, c);
      GrownCons(a, Split(b, sep), sep, c);
    } else {
      SplitSingle(s, sep);
      if c == sep {
        assert s + [c] == s + [sep] + "";
        SplitUnfold(s, sep, "");
        SplitSingle("", sep);
      } else {
        SplitSingle(s + [c], sep);
      }
    }
  }

  lemma GrownCons(a: string, parts: seq<string>, sep: char, c: char)
    requires parts != []
    ensures Grown([a] + parts, sep, c) == [a] + Grown(parts, sep, c)
  {
  }

  // ---------- Decimal numerals ----------

  predicate IsDigit(c: char) {
    '0' <= c <= '9'
  }

  function Digit(d: nat): (c: char)
    requires d < 10
    ensures IsDigit(c)
  {
    '0' + d as char
  }

  function DigitValue(c: char): (d: nat)
    requires IsDigit(c)
    ensures d < 10
  {
    (c - '0') as nat
  }

  // How a non-negative number is printed.
  function Decimal(n: nat): (s: string)
    ensures |s| > 0 && forall i | 0 <= i < |s| :: IsDigit(s[i])
  {
    if n < 10 then [Digit(n)] else Decimal(n / 10) + [Digit(n % 10)]
  }

  // The value of a string of digits.
  function Value(s: string): nat
    requires forall i | 0 <= i < |s| :: IsDigit(s[i])
  {
    if s == "" then 0 else 10 * Value(s[..|s| - 1]) + DigitValue(s[|s| - 1])
  }

  lemma {:induction false} ValueOfDecimal(n: nat)
    ensures Value(Decimal(n)) == n
  {
    if n < 10 {
      assert Decimal(n)[..0] == "";
    } else {
      ValueOfDecimal(n / 10);
      assert Decimal(n)[..|Decimal(n)| - 1] == Decimal(n / 10);
    }
  }

  // The digits a string starts with.
  function DigitPrefix(s: string): (k: nat)
    ensures k <= |s|
    ensures forall i | 0 <= i < k :: IsDigit(s[i])
    ensures k < |s| ==> !IsDigit(s[k])
  {
    if s == "" || !IsDigit(s[0]) then 0
    else
      var k := DigitPrefix(s[1..]);
      assert forall i | 1 <= i < k + 1 :: s[i] == s[1..][i - 1];
      k + 1
  }

  // ---------- Blanks ----------

  predicate IsBlank(c: char) {
    c == ' ' || 0x09 as char <= c <= 0x0d as char
  }

  ghost predicate Blank(s: string) {
    forall i | 0 <= i < |s| :: IsBlank(s[i])
  }

  // Number parsing of the C++ library: blanks, an optional sign and digits, of
  // which there must be at least one; what follows is ignored.
  datatype Numeral = NoNumber | Numeral(negative: bool, magnitude: nat)

  function ParseNumeral(s: string): Numeral {
    if s != "" && IsBlank(s[0]) then ParseNumeral(s[1..])
    else
      var signed := s != "" && (s[0] == '-' || s[0] == '+');
      var digits := if signed then s[1..] else s;
      var k := DigitPrefix(digits);
      if k == 0 then NoNumber else Numeral(signed && s[0] == '-', Value(digits[..k]))
  }

  // stoi, which fails outside the range of a 32-bit int.
  function Stoi(s: string): Option<int> {
    match ParseNumeral(s)
    case NoNumber => None
    case Numeral(negative, magnitude) =>
      var m: int := magnitude;
      var n := if negative then -m else m;
      if -0x8000_0000 <= n < 0x8000_0000 then Some(n) else None
  }

  // stoul, which fails beyond 64 bits and wraps a negative number around.
  function Stoul(s: string): Option<nat> {
    match ParseNumeral(s)
    case NoNumber => None
    case Numeral(negative, magnitude) =>
      if magnitude >= 0x1_0000_0000_0000_0000 then None
      else if negative && magnitude > 0 then Some(0x1_0000_0000_0000_0000 - magnitude)
      else Some(magnitude)
  }

  // A printed number is read back, whatever non-digit follows it.
  lemma ParseDecimal(n: nat, rest: string)
    requires rest == "" || !IsDigit(rest[0])
    ensures ParseNumeral(Decimal(n) + rest) == Numeral(false, n)
  {
    var d := Decimal(n);
    var s := d + rest;
    assert s[0] == d[0];
    assert forall k | 0 <= k < |d| :: s[k] == d[k];
    assert rest != "" ==> s[|d|] == rest[0];
    assert DigitPrefix(s) == |d|;
    assert s[..|d|] == d;
    ValueOfDecimal(n);
  }

  lemma ParsePrinted(n: nat)
    ensures ParseNumeral(Decimal(n)) == Numeral(false, n)
  {
    ParseDecimal(n, "");
    assert Decimal(n) + "" == Decimal(n);
  }

  lemma {:induction false} SkipBlanks(blanks: string, s: string)
    requires Blank(blanks)
    ensures ParseNumeral(blanks + s) == ParseNumeral(s)
    decreases |blanks|
  {
    hide DigitPrefix, Value;
    if blanks == "" {
      assert blanks + s == s;
    } else {
      assert (blanks + s)[0] == blanks[0] && (blanks + s)[1..] == blanks[1..] + s;
      SkipBlanks(blanks[1..], s);
    }
  }

  // A signed number is read, past the blanks before it and up to the non-digit after it.
  lemma ParseSigned(blanks: string, sign: char, n: nat, rest: string)
    requires Blank(blanks) && (sign == '-' || sign == '+') && (rest == "" || !IsDigit(rest[0]))
    ensures ParseNumeral(blanks + ([sign] + (Decimal(n) + rest))) == Numeral(sign == '-', n)
  {
    hide Decimal, DigitPrefix, Value;
    var digits := Decimal(n) + rest;
    var s := [sign] + digits;
    SkipBlanks(blanks, s);
    assert s[0] == sign && s[1..] == digits && digits[0] == Decimal(n)[0];
    ParseDecimal(n, rest);
  }

  // Without a digit there is no number.
  lemma {:induction false} NeedsDigit(s: string)
    requires forall i | 0 <= i < |s| :: !IsDigit(s[i])
    ensures ParseNumeral(s) == NoNumber
    decreases |s|
  {
    if s != "" && IsBlank(s[0]) {
      NeedsDigit(s[1..]);
    }
  }

  // stoi gives what is printed, within 32 bits, and fails otherwise.
  lemma StoiReads(blanks: string, n: nat, rest: string)
    requires Blank(blanks) && (rest == "" || !IsDigit(rest[0]))
    ensures Stoi(blanks + (Decimal(n) + rest)) == if n <= 0x7fff_ffff then Some(n) else None
    ensures
      var m: int := n;
      Stoi(blanks + (['-'] + (Decimal(n) + rest))) == if n <= 0x8000_0000 then Some(-m) else None
  {
    hide Decimal, ParseNumeral;
    SkipBlanks(blanks, Decimal(n) + rest);
    ParseDecimal(n, rest);
    ParseSigned(blanks, '-', n, rest);
  }

  // stoul gives what is printed, within 64 bits, counting down from 2^64 after a minus, and
  // fails otherwise.
  lemma StoulReads(blanks: string, n: nat, rest: string)
    requires Blank(blanks) && (rest == "" || !IsDigit(rest[0]))
    ensures Stoul(blanks + (Decimal(n) + rest)) == if n <= 0xffff_ffff_ffff_ffff then Some(n) else None
    ensures
      Stoul(blanks + (['-'] + (Decimal(n) + rest))) ==
        if n == 0 then Some(0) else if n <= 0xffff_ffff_ffff_ffff then Some(0x1_0000_0000_0000_0000 - n) else None
  {
    hide Decimal, ParseNumeral;
    SkipBlanks(blanks, Decimal(n) + rest);
    ParseDecimal(n, rest);
    ParseSigned(blanks, '-', n, rest);
  }

  // The blanks of the C locale.
  lemma BlanksAre(c: char)
    ensures IsBlank(c) <==> c in {' ', '\t', '\n', '\r', 0x0b as char, 0x0c as char}
  {
  }
}
