/**
  The string built-ins the cart and catalogue scripts call: String.prototype.trim (and the
  leading-whitespace skip of parseInt), toLowerCase restricted to ASCII, includes as
  substring containment, and parseInt with its default radix.
 */
module Text {
  import opened Optional

  /** ECMAScript WhiteSpace and LineTerminator code points: what trim and parseInt skip. */
  predicate IsWhitespace(c: char) {
    || c == '\t' || c == '\n' || c == '\U{000B}' || c == '\U{000C}' || c == '\r' || c == ' '
    || c == '\U{00A0}' || c == '\U{1680}' || ('\U{2000}' <= c <= '\U{200A}')
    || c == '\U{2028}' || c == '\U{2029}' || c == '\U{202F}' || c == '\U{205F}'
    || c == '\U{3000}' || c == '\U{FEFF}'
  }

  /** `s` without its leading whitespace. */
  function TrimStart(s: string): (r: string)
    ensures |r| <= |s| && r == s[|s| - |r|..]
    ensures forall i :: 0 <= i < |s| - |r| ==> IsWhitespace(s[i])
    ensures r == [] || !IsWhitespace(r[0])
  {
    if s != [] && IsWhitespace(s[0]) then TrimStart(s[1..]) else s
  }

  /** `s` without its trailing whitespace. */
  function TrimEnd(s: string): (r: string)
    ensures |r| <= |s| && r == s[..|r|]
    ensures forall i :: |r| <= i < |s| ==> IsWhitespace(s[i])
    ensures r == [] || !IsWhitespace(r[|r| - 1])
  {
    if s != [] && IsWhitespace(s[|s| - 1]) then TrimEnd(s[..|s| - 1]) else s
  }

  /** `s.trim()`: a piece of `s` that neither starts nor ends with whitespace. */
  function Trim(s: string): (r: string)
    ensures |r| <= |s|
    ensures exists i :: OccursAt(s, r, i)
    ensures r == [] || (!IsWhitespace(r[0]) && !IsWhitespace(r[|r| - 1]))
  {
    TrimPiece(s);
    TrimEnds(s);
    TrimEnd(TrimStart(s))
  }

  /** Trimming both ends leaves the piece of `s` that starts after its leading whitespace. */
  lemma TrimPiece(s: string)
    ensures OccursAt(s, TrimEnd(TrimStart(s)), |s| - |TrimStart(s)|)
  {
    PrefixOfSuffix(s, TrimStart(s), TrimEnd(TrimStart(s)));
  }

  /** Trimming both ends leaves no whitespace at either end. */
  lemma TrimEnds(s: string)
    ensures var r := TrimEnd(TrimStart(s)); r == [] || (!IsWhitespace(r[0]) && !IsWhitespace(r[|r| - 1]))
  {
    var t := TrimStart(s);
    assert TrimEnd(t) != [] ==> TrimEnd(t)[0] == t[0];
  }

  /** A prefix `r` of a suffix `t` of `s` occurs in `s` where `t` starts. */
  lemma PrefixOfSuffix(s: string, t: string, r: string)
    requires |t| <= |s| && t == s[|s| - |t|..]
    requires |r| <= |t| && r == t[..|r|]
    ensures OccursAt(s, r, |s| - |t|)
  {
    assert s[|s| - |t|..][..|r|] == s[|s| - |t|..|s| - |t| + |r|];
  }

  /** `!s.trim()`: the trimmed string is empty, and so falsy. */
  predicate IsBlank(s: string) {
    Trim(s) == []
  }

  /** A string is blank exactly when every character of it is whitespace. */
  lemma BlankIffAllWhitespace(s: string)
    ensures IsBlank(s) <==> forall i :: 0 <= i < |s| ==> IsWhitespace(s[i])
  {
    var t := TrimStart(s);
    if !forall i :: 0 <= i < |s| ==> IsWhitespace(s[i]) {
      var i :| 0 <= i < |s| && !IsWhitespace(s[i]);
      assert t[i - (|s| - |t|)] == s[i];
      assert TrimEnd(t) != [];
    }
  }

  /** Lower-casing of one character, ASCII letters only. */
  function LowerChar(c: char): char {
    if 'A' <= c <= 'Z' then (c as int + 32) as char else c
  }

  /** toLowerCase on ASCII: every upper-case letter becomes its lower-case partner. */
  function Lower(s: string): (r: string)
    ensures |r| == |s|
    ensures forall i :: 0 <= i < |s| ==> r[i] == LowerChar(s[i])
  {
    if s == [] then [] else [LowerChar(s[0])] + Lower(s[1..])
  }

  /** Lower-casing again changes nothing, and no ASCII upper-case letter survives it. */
  lemma LowerIdempotent(s: string)
    ensures Lower(Lower(s)) == Lower(s)
    ensures forall i :: 0 <= i < |s| ==> !('A' <= Lower(s)[i] <= 'Z')
  {
    forall i | 0 <= i < |s|
      ensures Lower(Lower(s))[i] == Lower(s)[i] && !('A' <= Lower(s)[i] <= 'Z')
    {
      LowerCharFacts(s[i]);
    }
  }

  /** One character lower-cased: no longer upper-case, fixed by lower-casing, same whitespace status. */
  lemma LowerCharFacts(c: char)
    ensures !('A' <= LowerChar(c) <= 'Z')
    ensures LowerChar(LowerChar(c)) == LowerChar(c)
    ensures IsWhitespace(LowerChar(c)) == IsWhitespace(c)
  {
    if 'A' <= c <= 'Z' {
      assert 'a' <= LowerChar(c) <= 'z';
    }
  }

  /** Lower-casing keeps every character's whitespace status, so it keeps blankness. */
  lemma LowerKeepsBlank(s: string)
    ensures IsBlank(Lower(s)) <==> IsBlank(s)
  {
    BlankIffAllWhitespace(s);
    BlankIffAllWhitespace(Lower(s));
    forall i | 0 <= i < |s| ensures IsWhitespace(Lower(s)[i]) == IsWhitespace(s[i]) {
      LowerCharFacts(s[i]);
    }
  }

  predicate StartsWith(s: string, q: string) {
    |q| <= |s| && s[..|q|] == q
  }

  /** `s.includes(q)`: `q` starts at some position of `s`; the empty string is in every string. */
  predicate Includes(s: string, q: string)
    ensures Includes(s, q) ==> |q| <= |s|
    ensures q == [] ==> Includes(s, q)
  {
    StartsWith(s, q) || (s != [] && Includes(s[1..], q))
  }

  /** `q` occurs in `s` starting at position `i`. */
  predicate OccursAt(s: string, q: string, i: int) {
    0 <= i && i + |q| <= |s| && s[i..i + |q|] == q
  }

  /** The recursive scan agrees with "there is a position where `q` occurs". */
  lemma {:induction false} IncludesIffOccurs(s: string, q: string)
    ensures Includes(s, q) <==> exists i :: OccursAt(s, q, i)
  {
    if StartsWith(s, q) {
      assert OccursAt(s, q, 0);
    } else if s != [] {
      IncludesIffOccurs(s[1..], q);
      if exists i :: OccursAt(s[1..], q, i) {
        var i :| OccursAt(s[1..], q, i);
        assert s[i + 1..i + 1 + |q|] == s[1..][i..i + |q|];
        assert OccursAt(s, q, i + 1);
      }
      if exists i :: OccursAt(s, q, i) {
        var i :| OccursAt(s, q, i);
        assert i != 0;
        assert s[1..][i - 1..i - 1 + |q|] == s[i..i + |q|];
        assert OccursAt(s[1..], q, i - 1);
      }
    }
  }

  /** The value of a character as a digit in radix 36, as parseInt reads it. */
  function DigitValue(c: char): Option<nat> {
    if '0' <= c <= '9' then Some(c as int - '0' as int)
    else if 'a' <= c <= 'z' then Some(c as int - 'a' as int + 10)
    else if 'A' <= c <= 'Z' then Some(c as int - 'A' as int + 10)
    else None
  }

  predicate IsDigitIn(c: char, radix: nat) {
    DigitValue(c).Some? && DigitValue(c).value < radix
  }

  /** Length of the longest prefix of `s` made of digits of `radix`. */
  function DigitRun(s: string, radix: nat): (n: nat)
    ensures n <= |s|
    ensures forall i :: 0 <= i < n ==> IsDigitIn(s[i], radix)
    ensures n == |s| || !IsDigitIn(s[n], radix)
  {
    if s != [] && IsDigitIn(s[0], radix) then 1 + DigitRun(s[1..], radix) else 0
  }

  /** The two radixes parseInt picks by itself. */
  predicate IsRadix(radix: nat) {
    radix == 10 || radix == 16
  }

  /** The number written by the digits `ds` in `radix`, most significant first. */
  function ValueOf(ds: string, radix: nat): nat
    requires IsRadix(radix)
    requires forall i :: 0 <= i < |ds| ==> IsDigitIn(ds[i], radix)
  {
    if ds == [] then 0
    else
      var last := ds[|ds| - 1];
      assert IsDigitIn(last, radix);
      var high := ValueOf(ds[..|ds| - 1], radix);
      (if radix == 16 then 16 * high else 10 * high) + DigitValue(last).value
  }

  /** The number written by the longest run of `radix` digits at the start of `v`; None if there is none. */
  function ReadDigits(v: string, radix: nat): Option<nat>
    requires IsRadix(radix)
  {
    var n := DigitRun(v, radix);
    if n == 0 then None
    else
      assert forall i :: 0 <= i < n ==> v[..n][i] == v[i];
      Some(ValueOf(v[..n], radix))
  }

  /**
    parseInt(s) with no radix: skip leading whitespace, take one optional sign, read "0x" or
    "0X" as radix 16 (radix 10 otherwise), then as many digits as there are; no digit at all
    is NaN, here None. A negative zero is falsy like 0, so it is Some(0) here.
   */
  function ParseInt(s: string): (r: Option<int>)
    ensures TrimStart(s) == [] ==> r == None
    ensures r.Some? && r.value < 0 ==> TrimStart(s)[0] == '-'
  {
    var t := TrimStart(s);
    var negative := t != [] && t[0] == '-';
    var u := if t != [] && (t[0] == '-' || t[0] == '+') then t[1..] else t;
    var hex := |u| >= 2 && u[0] == '0' && (u[1] == 'x' || u[1] == 'X');
    var radix := if hex then 16 else 10;
    var v := if hex then u[2..] else u;
    match ReadDigits(v, radix)
    case None => None
    case Some(m) => Some(if negative then -(m as int) else m as int)
  }

  function DigitChar(d: nat): (c: char)
    requires d < 10
    ensures DigitValue(c) == Some(d)
  {
    ('0' as int + d) as char
  }

  /** The decimal digits of `n`, without leading zeros: what String(n) gives for a natural number. */
  function Digits(n: nat): (r: string)
    ensures |r| >= 1
    ensures forall i :: 0 <= i < |r| ==> '0' <= r[i] <= '9'
  {
    if n < 10 then [DigitChar(n)] else Digits(n / 10) + [DigitChar(n % 10)]
  }

  /** String(n) for an integer `n`. */
  function DecimalString(n: int): string {
    if n < 0 then "-" + Digits(-n) else Digits(n)
  }

  lemma {:induction false} ValueOfDigits(n: nat)
    ensures forall i :: 0 <= i < |Digits(n)| ==> IsDigitIn(Digits(n)[i], 10)
    ensures ValueOf(Digits(n), 10) == n
  {
    if n >= 10 {
      ValueOfDigits(n / 10);
      var d := Digits(n);
      assert d[..|d| - 1] == Digits(n / 10);
    }
  }

  /** The digits of `n` followed by a non-digit (or nothing) read back as `n`. */
  lemma ReadDigitsOfDigits(n: nat, rest: string)
    requires rest == [] || !IsDigitIn(rest[0], 10)
    ensures ReadDigits(Digits(n) + rest, 10) == Some(n)
  {
    var d := Digits(n);
    var s := d + rest;
    ValueOfDigits(n);
    assert forall i :: 0 <= i < |d| ==> s[i] == d[i];
    assert |d| < |s| ==> s[|d|] == rest[0];
    DigitRunIs(s, 10, |d|);
    assert s[..|d|] == d;
  }

  /** A run of `k` digits that ends at the end of `s` or at a non-digit is the whole run. */
  lemma {:induction false} DigitRunIs(s: string, radix: nat, k: nat)
    requires k <= |s|
    requires forall i :: 0 <= i < k ==> IsDigitIn(s[i], radix)
    requires k == |s| || !IsDigitIn(s[k], radix)
    ensures DigitRun(s, radix) == k
  {
    if k > 0 {
      DigitRunIs(s[1..], radix, k - 1);
    }
  }

  /** Digits(n) only starts with '0' when n is 0. */
  lemma {:induction false} NoLeadingZero(n: nat)
    requires n > 0
    ensures Digits(n)[0] != '0'
  {
    if n >= 10 {
      NoLeadingZero(n / 10);
    }
  }

  /** No "0x"/"0X" radix prefix at the start of `u`. */
  predicate NoHexPrefix(u: string) {
    !(|u| >= 2 && u[0] == '0' && (u[1] == 'x' || u[1] == 'X'))
  }

  /** parseInt on text that starts with a sign `c` followed by the digits of `m`. */
  lemma ParseIntSigned(c: char, u: string, m: nat)
    requires c == '-' || c == '+'
    requires NoHexPrefix(u) && ReadDigits(u, 10) == Some(m)
    ensures ParseInt([c] + u) == Some(if c == '-' then -(m as int) else m as int)
  {
    var s := [c] + u;
    assert !IsWhitespace(s[0]);
    assert TrimStart(s) == s;
    assert s[1..] == u;
  }

  /** parseInt on text that starts with neither whitespace nor a sign. */
  lemma ParseIntUnsigned(u: string)
    requires u != [] && !IsWhitespace(u[0]) && u[0] != '-' && u[0] != '+'
    requires NoHexPrefix(u)
    ensures ParseInt(u) == ReadDigits(u, 10)
  {
    assert TrimStart(u) == u;
  }

  /** The digits of a natural number, then a non-digit: parseInt reads the number. */
  lemma ParseIntDigits(m: nat, rest: string)
    requires rest == [] || !IsDigitIn(rest[0], 10)
    requires m == 0 && rest != [] ==> rest[0] != 'x' && rest[0] != 'X'
    ensures ParseInt(Digits(m) + rest) == Some(m)
  {
    DigitsReadBack(m, rest);
    ParseIntUnsigned(Digits(m) + rest);
  }

  /** A minus sign, the digits of a positive number, then a non-digit: parseInt reads its negation. */
  lemma ParseIntMinusDigits(m: nat, rest: string)
    requires m > 0
    requires rest == [] || !IsDigitIn(rest[0], 10)
    ensures ParseInt(DecimalString(-(m as int)) + rest) == Some(-(m as int))
  {
    var u := Digits(m) + rest;
    assert ParseInt(['-'] + u) == Some(-(m as int)) by {
      DigitsReadBack(m, rest);
      ParseIntSigned('-', u, m);
    }
    MinusThenDigits(m, rest);
  }

  lemma MinusThenDigits(m: nat, rest: string)
    requires m > 0
    ensures DecimalString(-(m as int)) + rest == ['-'] + (Digits(m) + rest)
  {
  }

  /**
    parseInt reads back what String(n) writes, whatever follows that is not a digit (so
    "2.5" reads as 2); only after a lone "0" does a following 'x' or 'X' switch to hex.
   */
  lemma {:induction false} ParseIntDecimal(n: int, rest: string)
    requires rest == [] || !IsDigitIn(rest[0], 10)
    requires n == 0 && rest != [] ==> rest[0] != 'x' && rest[0] != 'X'
    ensures ParseInt(DecimalString(n) + rest) == Some(n)
  {
    if n < 0 {
      ParseIntMinusDigits(-n, rest);
    } else {
      ParseIntDigits(n, rest);
    }
  }

  /** Text that holds no decimal digit has no number in it: parseInt gives NaN. */
  lemma ParseIntWithoutDigits(s: string)
    requires forall i :: 0 <= i < |s| ==> !('0' <= s[i] <= '9')
    ensures ParseInt(s) == None
  {
    var t := TrimStart(s);
    var u := if t != [] && (t[0] == '-' || t[0] == '+') then t[1..] else t;
    assert u == s[|s| - |u|..];
    assert u != [] ==> u[0] == s[|s| - |u|] && !IsDigitIn(u[0], 10);
  }

  lemma DigitsReadBack(m: nat, rest: string)
    requires rest == [] || !IsDigitIn(rest[0], 10)
    requires m == 0 && rest != [] ==> rest[0] != 'x' && rest[0] != 'X'
    ensures NoHexPrefix(Digits(m) + rest) && ReadDigits(Digits(m) + rest, 10) == Some(m)
    ensures Digits(m) + rest != [] && '0' <= (Digits(m) + rest)[0] <= '9'
  {
    ReadDigitsOfDigits(m, rest);
    if m == 0 {
      assert Digits(m) == ['0'];
    } else {
      NoLeadingZero(m);
    }
  }
}
