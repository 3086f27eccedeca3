/** The escaping of lab URL fields (stellarEncode in src/contracts/util.ts). */
module Escape {
  // s.replace(/c/g, by)
  function ReplaceAll(s: string, c: char, code: string): string {
    if s == "" then ""
    else (if s[0] == c then code else [s[0]]) + ReplaceAll(s[1..], c, code)
  }

  // Slashes are doubled first, then semicolons are escaped.
  function StellarEncode(s: string): string {
    ReplaceAll(ReplaceAll(s, '/', "//"), ';', "/;")
  }

  // The same escaping, one character at a time.
  function EncodeChar(c: char): string {
    if c == '/' then "//" else if c == ';' then "/;" else [c]
  }

  function EncodeChars(s: string): string {
    if s == "" then "" else EncodeChar(s[0]) + EncodeChars(s[1..])
  }

  lemma {:induction false} ReplaceAppend(s: string, t: string, c: char, code: string)
    ensures ReplaceAll(s + t, c, code) == ReplaceAll(s, c, code) + ReplaceAll(t, c, code)
  {
    if s == "" {
      assert s + t == t;
    } else {
      assert (s + t)[1..] == s[1..] + t;
      ReplaceAppend(s[1..], t, c, code);
    }
  }

  // The two passes make one encoding of each character.
  lemma {:induction false} TwoPassesAreOne(s: string)
    ensures StellarEncode(s) == EncodeChars(s)
  {
    if s != "" {
      var head := if s[0] == '/' then "//" else [s[0]];
      var tail := ReplaceAll(s[1..], '/', "//");
      ReplaceAppend(head, tail, ';', "/;");
      TwoPassesAreOne(s[1..]);
      if s[0] == '/' {
        SlashesStay();
      } else {
        assert [s[0]][1..] == "";
        assert ReplaceAll(head, ';', "/;") == EncodeChar(s[0]) + "";
      }
    }
  }

  lemma SlashesStay()
    ensures ReplaceAll("//", ';', "/;") == "//"
  {
    assert "//"[1..] == "/" && "/"[1..] == "";
  }

  // A slash is doubled, a semicolon is put after a slash, and every other character stays, wherever it stands.
  lemma EachCharacter(before: string, c: char, after: string)
    ensures var code := if c == '/' then ['/', '/'] else if c == ';' then ['/', ';'] else [c];
            StellarEncode(before + [c] + after) == StellarEncode(before) + code + StellarEncode(after)
  {
    TwoPassesAreOne([c]);
    assert [c][1..] == "";
    EncodeAppend(before, [c]);
    EncodeAppend(before + [c], after);
  }

  // ---------- reading a field back ----------

  datatype Decoded = Unterminated | BadEscape | Field(text: string, rest: string)

  // Reads up to the first semicolon that is not escaped.
  function Decode(s: string): Decoded {
    if s == "" then Unterminated
    else if s[0] == ';' then Field("", s[1..])
    else if s[0] == '/' then
      if |s| == 1 then Unterminated
      else if s[1] != '/' && s[1] != ';' then BadEscape
      else Prepend(s[1], Decode(s[2..]))
    else Prepend(s[0], Decode(s[1..]))
  }

  function Prepend(c: char, d: Decoded): Decoded {
    if d.Field? then Field([c] + d.text, d.rest) else d
  }

  lemma DecodeOne(c: char, after: string)
    ensures Decode(EncodeChar(c) + after) == Prepend(c, Decode(after))
  {
    assert (EncodeChar(c) + after)[|EncodeChar(c)|..] == after;
  }

  lemma {:induction false} DecodeChars(s: string, rest: string)
    ensures Decode(EncodeChars(s) + ";" + rest) == Field(s, rest)
  {
    if s == "" {
      assert EncodeChars(s) + ";" + rest == ";" + rest;
      assert (";" + rest)[1..] == rest;
    } else {
      var after := EncodeChars(s[1..]) + ";" + rest;
      assert EncodeChars(s) + ";" + rest == EncodeChar(s[0]) + after;
      DecodeChars(s[1..], rest);
      DecodeOne(s[0], after);
      assert s == [s[0]] + s[1..];
    }
  }

  // A terminated encoding gives back the text and what follows it, whatever they are.
  lemma EncodingIsDecodable(s: string, rest: string)
    ensures Decode(StellarEncode(s) + ";" + rest) == Field(s, rest)
  {
    TwoPassesAreOne(s);
    DecodeChars(s, rest);
  }

  // So two terminated encodings with the same text ahead of the terminator are the same, and none is the start
  // of another.
  lemma EncodingIsUnique(s: string, rest: string, t: string, other: string)
    requires StellarEncode(s) + ";" + rest == StellarEncode(t) + ";" + other
    ensures s == t && rest == other
  {
    EncodingIsDecodable(s, rest);
    EncodingIsDecodable(t, other);
  }

  // ---------- the lab link ----------

  const HORIZON := "&horizonUrl="
  const RPC := "&rpcUrl="
  const PASSPHRASE := "&passphrase="

  // The parameters of labPrefix: three encoded fields, of which only the last is terminated.
  function Parameters(horizonUrl: string, rpcUrl: string, passphrase: string): string {
    HORIZON + StellarEncode(horizonUrl) + RPC + StellarEncode(rpcUrl) + PASSPHRASE + StellarEncode(passphrase) + ";"
  }

  function PlainParameters(horizonUrl: string, rpcUrl: string, passphrase: string): string {
    HORIZON + horizonUrl + RPC + rpcUrl + PASSPHRASE + passphrase
  }

  lemma EncodeAppend(s: string, t: string)
    ensures StellarEncode(s + t) == StellarEncode(s) + StellarEncode(t)
  {
    ReplaceAppend(s, t, '/', "//");
    ReplaceAppend(ReplaceAll(s, '/', "//"), ReplaceAll(t, '/', "//"), ';', "/;");
  }

  lemma {:induction false} NothingToEscape(s: string)
    requires '/' !in s && ';' !in s
    ensures StellarEncode(s) == s
  {
    TwoPassesAreOne(s);
    if s != "" {
      NothingToEscape(s[1..]);
      TwoPassesAreOne(s[1..]);
      assert s == [s[0]] + s[1..];
    }
  }

  lemma EncodeSix(k: string, h: string, l: string, r: string, m: string, p: string)
    requires StellarEncode(k) == k && StellarEncode(l) == l && StellarEncode(m) == m
    ensures StellarEncode(k + h + l + r + m + p) ==
            k + StellarEncode(h) + l + StellarEncode(r) + m + StellarEncode(p)
  {
    EncodeAppend(k, h);
    EncodeAppend(k + h, l);
    EncodeAppend(k + h + l, r);
    EncodeAppend(k + h + l + r, m);
    EncodeAppend(k + h + l + r + m, p);
  }

  lemma NamesAreUnchanged()
    ensures forall s :: s == HORIZON || s == RPC || s == PASSPHRASE ==> StellarEncode(s) == s
  {
    forall s | s == HORIZON || s == RPC || s == PASSPHRASE
      ensures StellarEncode(s) == s
    {
      NothingToEscape(s);
    }
  }

  // The parameters are the encoding of their plain text as a whole, terminated.
  lemma ParametersAreOneField(h: string, r: string, p: string)
    ensures Parameters(h, r, p) == StellarEncode(PlainParameters(h, r, p)) + ";"
  {
    NamesAreUnchanged();
    EncodeSix(HORIZON, h, RPC, r, PASSPHRASE, p);
  }

  // What a reader of the terminated parameters gets back.
  lemma ParametersAreDecodable(h: string, r: string, p: string, rest: string)
    ensures Decode(Parameters(h, r, p) + rest) == Field(PlainParameters(h, r, p), rest)
  {
    ParametersAreOneField(h, r, p);
    EncodingIsDecodable(PlainParameters(h, r, p), rest);
  }

  // "&" is not escaped: two settings give the same link exactly when their plain texts are the same.
  lemma SameParameters(h: string, r: string, p: string, h': string, r': string, p': string)
    ensures Parameters(h, r, p) == Parameters(h', r', p') <==> PlainParameters(h, r, p) == PlainParameters(h', r', p')
  {
    ParametersAreOneField(h, r, p);
    ParametersAreOneField(h', r', p');
    if Parameters(h, r, p) == Parameters(h', r', p') {
      ParametersAreDecodable(h, r, p, "");
      ParametersAreDecodable(h', r', p', "");
    }
  }
}
