/** The parts of the C library that the scheduler protocol leans on, as values:
    NUL-terminated strings, strncmp against a literal, atoi, and the "%d"
    conversion of printf. Integers are mathematical; C's int overflow is not
    modelled. */
module CStd {

  datatype Option<T> = None | Some(value: T)

  /** The terminator of a C string. */
  const NUL: char := '\0'

  /** The C string stored at the start of `s`: everything before the first NUL
      (all of `s` when it holds none). */
  function CString(s: seq<char>): string
  {
    if s == [] || s[0] == NUL then [] else [s[0]] + CString(s[1..])
  }

  /** The C string is a NUL-free prefix of the buffer, ended by a NUL or by
      the end of the buffer. */
  lemma {:induction false} CStringPrefix(s: seq<char>)
    ensures var r := CString(s);
      |r| <= |s| && r == s[..|r|] && NUL !in r && (|r| < |s| ==> s[|r|] == NUL)
  {
    if s != [] && s[0] != NUL {
      CStringPrefix(s[1..]);
    }
  }

  /** `buf` holds the C string `l`: the characters of `l`, then a NUL. */
  predicate Holds(buf: seq<char>, l: string)
  {
    |l| < |buf| && buf[..|l|] == l && buf[|l|] == NUL
  }

  /** A buffer holding a NUL-free `l` reads back as `l`. */
  lemma {:induction false} HoldsCString(buf: seq<char>, l: string)
    requires Holds(buf, l) && NUL !in l
    ensures CString(buf) == l
  {
    if l != [] {
      assert buf[0] == l[0] && l[0] != NUL;
      assert buf[1..][..|l| - 1] == l[1..];
      HoldsCString(buf[1..], l[1..]);
    }
  }

  /** The C string that starts `j` characters into a buffer holding `l` is the
      rest of `l`. */
  lemma HoldsCStringFrom(buf: seq<char>, l: string, j: nat)
    requires Holds(buf, l) && NUL !in l && j <= |l|
    ensures CString(buf[j..]) == l[j..]
  {
    assert buf[j..][..|l| - j] == l[j..];
    HoldsCString(buf[j..], l[j..]);
  }

  /** strncmp(s, lit, |lit|) == 0 for a literal `lit` that holds no NUL: the first
      |lit| characters of `s` are those of `lit`. A NUL in `s` before that point
      ends the C string and compares unequal, which this also says. */
  predicate StartsWith(s: seq<char>, lit: string)
  {
    |lit| <= |s| && s[..|lit|] == lit
  }

  /** Comparing a literal against a buffer that holds `l` is comparing it against `l`:
      what follows the terminating NUL is never looked at. */
  lemma StartsWithHeld(buf: seq<char>, l: string, lit: string)
    requires Holds(buf, l) && NUL !in lit
    ensures StartsWith(buf, lit) == StartsWith(l, lit)
  {
  }

  /** What isspace() accepts in the C locale. */
  predicate IsSpace(c: char)
  {
    c == ' ' || c == '\t' || c == '\n' || c == '\U{000B}' || c == '\U{000C}' || c == '\r'
  }

  predicate IsDigit(c: char)
  {
    '0' <= c <= '9'
  }

  predicate AllDigits(d: string)
  {
    forall i :: 0 <= i < |d| ==> IsDigit(d[i])
  }

  function DigitValue(c: char): (v: nat)
    requires IsDigit(c)
    ensures v < 10
  {
    c as int - '0' as int
  }

  function DigitChar(v: nat): (c: char)
    requires v < 10
    ensures IsDigit(c) && DigitValue(c) == v
  {
    ('0' as int + v) as char
  }

  /** `s` without its leading white space. */
  function SkipSpace(s: string): string
  {
    if s != [] && IsSpace(s[0]) then SkipSpace(s[1..]) else s
  }

  /** The longest prefix of `s` made of decimal digits. */
  function LeadingDigits(s: string): (r: string)
    ensures AllDigits(r)
  {
    if s != [] && IsDigit(s[0]) then [s[0]] + LeadingDigits(s[1..]) else []
  }

  /** The number a string of decimal digits denotes, most significant first. */
  function DigitsValue(d: string): nat
    requires AllDigits(d)
  {
    if d == [] then 0 else 10 * DigitsValue(d[..|d| - 1]) + DigitValue(d[|d| - 1])
  }

  /** atoi: optional white space, an optional sign, then as many decimal digits as
      follow; 0 when no digit follows. */
  function Atoi(s: string): (r: int)
    ensures r < 0 ==> SkipSpace(s) != [] && SkipSpace(s)[0] == '-'
  {
    var t := SkipSpace(s);
    if t != [] && t[0] == '-' then -(DigitsValue(LeadingDigits(t[1..])) as int)
    else if t != [] && t[0] == '+' then DigitsValue(LeadingDigits(t[1..]))
    else DigitsValue(LeadingDigits(t))
  }

  /** The decimal digits of `n`, most significant first, without leading zeros. */
  function NatDigits(n: nat): (r: string)
    ensures r != [] && AllDigits(r)
  {
    if n < 10 then [DigitChar(n)] else NatDigits(n / 10) + [DigitChar(n % 10)]
  }

  /** printf's "%d": a minus sign for a negative number, then its digits. */
  function Decimal(n: int): (r: string)
    ensures r != [] && (r[0] == '-' || IsDigit(r[0]))
    ensures forall i :: 0 < i < |r| ==> IsDigit(r[i])
  {
    if n < 0 then "-" + NatDigits(-n) else NatDigits(n)
  }

  lemma {:induction false} DigitsValueOfNatDigits(n: nat)
    ensures DigitsValue(NatDigits(n)) == n
  {
    if n >= 10 {
      var d := NatDigits(n);
      assert d[..|d| - 1] == NatDigits(n / 10);
      DigitsValueOfNatDigits(n / 10);
    }
  }

  lemma {:induction false} LeadingDigitsOfDigits(d: string, rest: string)
    requires AllDigits(d)
    requires rest == [] || !IsDigit(rest[0])
    ensures LeadingDigits(d + rest) == d
  {
    if d != [] {
      assert (d + rest)[1..] == d[1..] + rest;
      LeadingDigitsOfDigits(d[1..], rest);
    } else {
      assert d + rest == rest;
    }
  }

  /** atoi of a string that starts with a digit: the value of its leading digits. */
  lemma AtoiUnsigned(s: string)
    requires s != [] && IsDigit(s[0])
    ensures Atoi(s) == DigitsValue(LeadingDigits(s))
  {
    assert SkipSpace(s) == s;
  }

  /** atoi of a string that starts with a minus sign: the negated value of the
      digits after it. */
  lemma AtoiMinus(s: string)
    requires s != [] && s[0] == '-'
    ensures Atoi(s) == -(DigitsValue(LeadingDigits(s[1..])) as int)
  {
    assert SkipSpace(s) == s;
  }

  /** atoi skips a leading white-space character. */
  lemma AtoiSkipsSpace(c: char, s: string)
    requires IsSpace(c)
    ensures Atoi([c] + s) == Atoi(s)
  {
    assert ([c] + s)[1..] == s;
  }

  /** atoi of a run of digits followed by something that is not a digit. */
  lemma AtoiDigits(d: string, rest: string)
    requires d != [] && AllDigits(d)
    requires rest == [] || !IsDigit(rest[0])
    ensures Atoi(d + rest) == DigitsValue(d)
  {
    assert (d + rest)[0] == d[0];
    AtoiUnsigned(d + rest);
    LeadingDigitsOfDigits(d, rest);
  }

  /** atoi of a minus sign, a run of digits, and something that is not a digit. */
  lemma AtoiNegDigits(d: string, rest: string)
    requires d != [] && AllDigits(d)
    requires rest == [] || !IsDigit(rest[0])
    ensures Atoi("-" + (d + rest)) == -(DigitsValue(d) as int)
  {
    var t := d + rest;
    var s := "-" + t;
    assert s[0] == '-' && s[1..] == t;
    AtoiMinus(s);
    LeadingDigitsOfDigits(d, rest);
  }

  /** atoi reads back what "%d" writes, whatever follows the number provided it
      is not a digit (the newline of a line, the end of the string). */
  lemma {:induction false} AtoiDecimal(n: int, rest: string)
    requires rest == [] || !IsDigit(rest[0])
    ensures Atoi(Decimal(n) + rest) == n
  {
    if n < 0 {
      var d := NatDigits(-n);
      assert Decimal(n) == "-" + d;
      assert ("-" + d) + rest == "-" + (d + rest);
      AtoiNegDigits(d, rest);
      DigitsValueOfNatDigits(-n);
    } else {
      AtoiDigits(NatDigits(n), rest);
      DigitsValueOfNatDigits(n);
    }
  }
}
