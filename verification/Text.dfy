/** String operations the sources take from JavaScript. */
module Text {
  import opened Options

  // toLowerCase on ASCII letters.
  function Lower(s: string): string {
    seq(|s|, i requires 0 <= i < |s| => if 'A' <= s[i] <= 'Z' then s[i] + 32 as char else s[i])
  }

  predicate Includes(s: string, part: string) {
    exists i :: 0 <= i <= |s| && part <= s[i..]
  }

  // ---------- trim ----------

  predicate IsSpace(c: char) {
    || c == ' ' || '\t' <= c <= '\r' || c == '\U{A0}' || c == '\U{1680}' || '\U{2000}' <= c <= '\U{200A}'
    || c == '\U{2028}' || c == '\U{2029}' || c == '\U{202F}' || c == '\U{205F}' || c == '\U{3000}' || c == '\U{FEFF}'
  }

  function TrimLeft(s: string): string {
    if s != "" && IsSpace(s[0]) then TrimLeft(s[1..]) else s
  }

  function TrimRight(s: string): string {
    if s != "" && IsSpace(s[|s| - 1]) then TrimRight(s[..|s| - 1]) else s
  }

  function Trim(s: string): string {
    TrimRight(TrimLeft(s))
  }

  // Trimming takes the spaces off both ends, and only those.
  lemma TrimMeaning(s: string)
    ensures exists i, j :: 0 <= i <= j <= |s| && Trim(s) == s[i..j] && Spaces(s[..i]) && Spaces(s[j..])
    ensures Trim(s) != "" ==> !IsSpace(Trim(s)[0]) && !IsSpace(Trim(s)[|Trim(s)| - 1])
    ensures Trim(s) == "" <==> Spaces(s)
  {
    var i := TrimLeftMeaning(s);
    var k := TrimRightMeaning(s[i..]);
    assert s[i..][..k] == s[i..i + k] && s[i..][k..] == s[i + k..];
    assert s == s[..i] + s[i..i + k] + s[i + k..];
    assert i < |s| ==> s[i] in s;
  }

  predicate Spaces(s: string) {
    forall c :: c in s ==> IsSpace(c)
  }

  lemma {:induction false} TrimLeftMeaning(s: string) returns (i: nat)
    ensures i <= |s| && TrimLeft(s) == s[i..] && Spaces(s[..i]) && (i < |s| ==> !IsSpace(s[i]))
  {
    i := 0;
    if s != "" && IsSpace(s[0]) {
      var k := TrimLeftMeaning(s[1..]);
      i := k + 1;
      assert s[..i] == [s[0]] + s[1..][..k];
    }
  }

  lemma {:induction false} TrimRightMeaning(s: string) returns (k: nat)
    ensures k <= |s| && TrimRight(s) == s[..k] && Spaces(s[k..]) && (k > 0 ==> !IsSpace(s[k - 1]))
  {
    k := |s|;
    if s != "" && IsSpace(s[|s| - 1]) {
      var n := |s| - 1;
      k := TrimRightMeaning(s[..n]);
      assert s[..n][..k] == s[..k] && s[k..] == s[..n][k..] + [s[n]];
    }
  }

  // Lower-casing keeps the length and every character but the capital letters, which become the small ones.
  lemma LowerMeaning(s: string, i: nat)
    requires i < |s|
    ensures |Lower(s)| == |s|
    ensures if 'A' <= s[i] <= 'Z' then Lower(s)[i] == "abcdefghijklmnopqrstuvwxyz"[s[i] as int - 'A' as int]
            else Lower(s)[i] == s[i]
  {
  }

  // Character by character.
  predicate OccursAt(s: string, part: string, i: nat) {
    i + |part| <= |s| && forall k :: 0 <= k < |part| ==> s[i + k] == part[k]
  }

  // One text includes another where that begins at some position.
  lemma IncludesMeaning(s: string, part: string)
    ensures Includes(s, part) <==> exists i: nat :: OccursAt(s, part, i)
  {
    if Includes(s, part) {
      var i :| 0 <= i <= |s| && part <= s[i..];
      assert forall k :: 0 <= k < |part| ==> s[i + k] == s[i..][k] == part[k];
      assert OccursAt(s, part, i);
    }
    if i: nat :| OccursAt(s, part, i) {
      assert forall k :: 0 <= k < |part| ==> s[i..][k] == s[i + k];
      assert part <= s[i..];
    }
  }

  // ---------- BigInt(text) and String(bigint) ----------

  // The value of a digit, 16 for what is none.
  function DigitValue(c: char): (v: nat)
    ensures v <= 16
  {
    if '0' <= c <= '9' then (c - '0') as int
    else if 'a' <= c <= 'f' then (c - 'a') as int + 10
    else if 'A' <= c <= 'F' then (c - 'A') as int + 10
    else 16
  }

  // A non-empty text of digits in a base.
  function ReadDigits(s: string, base: nat): Option<nat> {
    if s == "" then None
    else
      var n := |s| - 1;
      var last := DigitValue(s[n]);
      if last >= base then None
      else if n == 0 then Some(last)
      else
        var front := ReadDigits(s[..n], base);
        if front.None? then None else Some(front.value * base + last)
  }

  // None when it throws. Blank text is zero; a sign is for decimal digits alone.
  function BigInt(s: string): Option<int> {
    var t := Trim(s);
    if t == "" then Some(0)
    else if |t| >= 2 && t[0] == '0' && (t[1] == 'x' || t[1] == 'X') then ReadDigits(t[2..], 16)
    else if |t| >= 2 && t[0] == '0' && (t[1] == 'o' || t[1] == 'O') then ReadDigits(t[2..], 8)
    else if |t| >= 2 && t[0] == '0' && (t[1] == 'b' || t[1] == 'B') then ReadDigits(t[2..], 2)
    else if t[0] == '-' then
      var n := ReadDigits(t[1..], 10);
      if n.None? then None else Some(-(n.value as int))
    else if t[0] == '+' then ReadDigits(t[1..], 10)
    else ReadDigits(t, 10)
  }

  function DecimalNat(n: nat): (s: string)
    ensures s != ""
  {
    (if n < 10 then "" else DecimalNat(n / 10)) + [(n % 10) as char + '0']
  }

  function Decimal(n: int): string {
    if n < 0 then "-" + DecimalNat(-n) else DecimalNat(n)
  }

  lemma {:induction false} DecimalDigits(n: nat)
    ensures ReadDigits(DecimalNat(n), 10) == Some(n)
    ensures forall c :: c in DecimalNat(n) ==> '0' <= c <= '9'
  {
    var s, d := DecimalNat(n), (n % 10) as char + '0';
    assert DigitValue(d) == n % 10;
    if n >= 10 {
      DecimalDigits(n / 10);
      assert s[..|s| - 1] == DecimalNat(n / 10);
    }
  }

  lemma NothingToTrim(s: string)
    requires s != "" && !IsSpace(s[0]) && !IsSpace(s[|s| - 1])
    ensures Trim(s) == s
  {
  }

  lemma BigIntOfDigits(s: string, n: nat)
    requires s != "" && (forall c :: c in s ==> '0' <= c <= '9') && ReadDigits(s, 10) == Some(n)
    ensures BigInt(s) == Some(n)
  {
    assert s[0] in s && s[|s| - 1] in s;
    NothingToTrim(s);
    assert |s| >= 2 ==> s[1] in s;
  }

  lemma BigIntOfNegative(s: string, n: nat)
    requires s != "" && (forall c :: c in s ==> '0' <= c <= '9') && ReadDigits(s, 10) == Some(n)
    ensures BigInt("-" + s) == Some(-(n as int))
  {
    var t := "-" + s;
    assert t[|t| - 1] == s[|s| - 1] && s[|s| - 1] in s && t[1..] == s;
    NothingToTrim(t);
  }

  lemma NatIsRead(n: nat)
    ensures BigInt(DecimalNat(n)) == Some(n) && BigInt("-" + DecimalNat(n)) == Some(-(n as int))
  {
    DecimalDigits(n);
    BigIntOfDigits(DecimalNat(n), n);
    BigIntOfNegative(DecimalNat(n), n);
  }

  // Reading the decimal text of a number gives the number.
  lemma BigIntOfDecimal(n: int)
    ensures BigInt(Decimal(n)) == Some(n)
  {
    NatIsRead(if n < 0 then -n else n);
  }

  // Text that begins and ends with a letter, and has no prefix of a base, is no number.
  lemma WordIsNoNumber(s: string)
    requires s != "" && 'a' <= s[0] <= 'z' && 'a' <= s[|s| - 1] <= 'z'
    ensures BigInt(s).None?
  {
    NothingToTrim(s);
  }

  // ---------- other forms BigInt reads ----------

  // The digits of a base are the first so many of sixteen, in either case.
  lemma DigitMeaning(c: char, d: nat)
    requires d < 16
    ensures DigitValue(c) == d <==> c == "0123456789abcdef"[d] || c == "0123456789ABCDEF"[d]
  {
  }

  // A text is a numeral where it has digits of the base only.
  lemma {:induction false} NumeralMeaning(s: string, base: nat)
    requires base <= 16
    ensures ReadDigits(s, base).Some? <==> s != "" && forall c :: c in s ==> DigitValue(c) < base
  {
    if s != "" {
      var n := |s| - 1;
      NumeralMeaning(s[..n], base);
      assert s == s[..n] + [s[n]];
    }
  }

  // One more digit multiplies by the base and adds.
  lemma NumeralValue(s: string, c: char, base: nat)
    requires DigitValue(c) < base
    ensures ReadDigits([c], base) == Some(DigitValue(c))
    ensures ReadDigits(s, base).Some? ==>
              ReadDigits(s + [c], base) == Some(ReadDigits(s, base).value * base + DigitValue(c))
  {
    assert (s + [c])[..|s|] == s;
  }

  // After its prefix a hexadecimal, octal or binary numeral is read in its base.
  lemma BigIntOfPrefixed(mark: char, digits: string)
    requires digits != "" && !IsSpace(digits[|digits| - 1])
    ensures mark == 'x' || mark == 'X' ==> BigInt(['0', mark] + digits) == ReadDigits(digits, 16)
    ensures mark == 'o' || mark == 'O' ==> BigInt(['0', mark] + digits) == ReadDigits(digits, 8)
    ensures mark == 'b' || mark == 'B' ==> BigInt(['0', mark] + digits) == ReadDigits(digits, 2)
  {
    var t := ['0', mark] + digits;
    assert t[2..] == digits;
    NothingToTrim(t);
  }

  lemma {:induction false} TrimLeftOver(a: string, rest: string)
    requires Spaces(a)
    ensures TrimLeft(a + rest) == TrimLeft(rest)
  {
    if a == "" {
      assert a + rest == rest;
    } else {
      assert a[0] in a && (a + rest)[1..] == a[1..] + rest;
      TrimLeftOver(a[1..], rest);
    }
  }

  lemma {:induction false} TrimRightOver(rest: string, b: string)
    requires Spaces(b)
    ensures TrimRight(rest + b) == TrimRight(rest)
  {
    if b == "" {
      assert rest + b == rest;
    } else {
      var n := |b| - 1;
      assert b[n] in b && (rest + b)[..|rest + b| - 1] == rest + b[..n];
      TrimRightOver(rest, b[..n]);
    }
  }

  // Spaces around a number make no difference, and spaces alone are zero.
  lemma BigIntIgnoresSpaces(a: string, n: int, b: string)
    requires Spaces(a) && Spaces(b)
    ensures BigInt(a + Decimal(n) + b) == Some(n) && BigInt(a) == Some(0)
  {
    var s := Decimal(n);
    DecimalEnds(n);
    assert a + s + b == a + (s + b);
    TrimLeftOver(a, s + b);
    TrimRightOver(s, b);
    NothingToTrim(s);
    BigIntOfDecimal(n);
    TrimMeaning(a);
  }

  lemma DecimalEnds(n: int)
    ensures Decimal(n) != "" && !IsSpace(Decimal(n)[0]) && !IsSpace(Decimal(n)[|Decimal(n)| - 1])
  {
    var m: nat := if n < 0 then -n else n;
    DecimalDigits(m);
    var s := DecimalNat(m);
    assert s[0] in s && s[|s| - 1] in s;
  }
}
