/** Pairing codes (`crates/cled-lan/src/code.rs`): 40 random bits as eight characters of Crockford's
    base 32, and what a person may type for one. */
module PairingCodes {
  import opened Bytes
  import opened Wrappers
  import opened Content

  const ALPHABET: string := "0123456789ABCDEFGHJKMNPQRSTVWXYZ"
  const LEN: nat := 8

  /** What is in the alphabet, character by character. */
  predicate IsLetter(c: char) {
    '0' <= c <= '9' || ('A' <= c <= 'Z' && c != 'I' && c != 'L' && c != 'O' && c != 'U')
  }

  lemma LettersAreTheAlphabet(c: char)
    ensures IsLetter(c) <==> c in ALPHABET
  {
  }

  predicate InAlphabet(code: string) {
    forall i :: 0 <= i < |code| ==> IsLetter(code[i])
  }

  predicate IsCode(code: string) {
    |code| == LEN && InAlphabet(code)
  }

  // ---- Generating ----

  /** The random bytes as one number, the first the highest. */
  function Bits(bytes: seq<byte>): nat {
    if bytes == [] then 0 else Bits(bytes[..|bytes| - 1]) * 0x100 + bytes[|bytes| - 1] as int
  }

  /** `bits >> 5 * i`. */
  function Shift(bits: nat, i: nat): nat {
    if i == 0 then bits else Shift(bits / 32, i - 1)
  }

  /** The lowest `n` groups of five bits, the highest first. */
  function Letters(bits: nat, n: nat): string {
    seq(n, k requires 0 <= k < n => ALPHABET[Shift(bits, n - 1 - k) % 32])
  }

  function Generate(bytes: seq<byte>): string
    requires |bytes| == 5
  {
    Letters(Bits(bytes), LEN)
  }

  function Shown(code: string): string
    requires IsCode(code)
  {
    code[..4] + "-" + code[4..]
  }

  // ---- Parsing ----

  predicate Ignored(c: char) {
    IsWhitespace(c) || c == '-'
  }

  function Upper(c: char): char {
    if 'a' <= c <= 'z' then c - 'a' + 'A' else c
  }

  function Canonical(c: char): char {
    match Upper(c)
    case 'I' => '1'
    case 'L' => '1'
    case 'O' => '0'
    case other => other
  }

  function Cleaned(input: string): string {
    if input == [] then []
    else if Ignored(input[0]) then Cleaned(input[1..])
    else [Canonical(input[0])] + Cleaned(input[1..])
  }

  function Parse(input: string): Option<string> {
    var code := Cleaned(input);
    if |code| != LEN || exists i :: 0 <= i < |code| && code[i] !in ALPHABET then None else Some(code)
  }

  // ---- Codes are numbers ----

  /** The alphabet is the digits and letters in order, without I, L, O and U. */
  function Letter(d: nat): char
    requires d < 32
  {
    if d < 10 then '0' + d as char
    else
      var skipped := if d < 18 then 0 else if d < 20 then 1 else if d < 22 then 2 else if d < 27 then 3 else 4;
      'A' + (d - 10 + skipped) as char
  }

  function Digit(c: char): (d: nat)
    requires IsLetter(c)
    ensures d < 32 && Letter(d) == c
  {
    if c <= '9' then c as int - '0' as int
    else
      var skipped := if c < 'I' then 0 else if c < 'L' then 1 else if c < 'O' then 2 else if c < 'U' then 3 else 4;
      c as int - 'A' as int + 10 - skipped
  }

  lemma AlphabetAt(d: nat)
    requires d < 32
    ensures ALPHABET[d] == Letter(d)
  {
  }

  lemma LetterDigit(d: nat)
    requires d < 32
    ensures IsLetter(Letter(d)) && Digit(Letter(d)) == d
  {
  }

  /** The number a code stands for. */
  function Value(code: string): nat
    requires InAlphabet(code)
  {
    if code == [] then 0 else Value(code[..|code| - 1]) * 32 + Digit(code[|code| - 1])
  }

  function Power32(n: nat): nat {
    if n == 0 then 1 else 32 * Power32(n - 1)
  }

  /** The letters from the last one back. */
  function Written(bits: nat, n: nat): string {
    if n == 0 then "" else Written(bits / 32, n - 1) + [Letter(bits % 32)]
  }

  lemma {:induction false} LettersAreWritten(bits: nat, n: nat)
    ensures Letters(bits, n) == Written(bits, n)
  {
    if n > 0 {
      LettersAreWritten(bits / 32, n - 1);
      AlphabetAt(bits % 32);
      assert Letters(bits, n)[n - 1] == ALPHABET[Shift(bits, 0) % 32] == Letter(bits % 32);
      forall k | 0 <= k < n - 1 ensures Letters(bits, n)[k] == Letters(bits / 32, n - 1)[k] {
        assert Shift(bits, n - 1 - k) == Shift(bits / 32, n - 2 - k);
      }
    }
  }

  lemma {:induction false} ValueOfWritten(bits: nat, n: nat)
    requires bits < Power32(n)
    ensures |Written(bits, n)| == n && InAlphabet(Written(bits, n)) && Value(Written(bits, n)) == bits
  {
    if n > 0 {
      var init := Written(bits / 32, n - 1);
      ValueOfWritten(bits / 32, n - 1);
      LetterDigit(bits % 32);
      assert Written(bits, n)[..n - 1] == init;
    }
  }

  lemma WrittenStep(v: nat, d: nat, n: nat)
    requires d < 32
    ensures Written(v * 32 + d, n + 1) == Written(v, n) + [Letter(d)]
  {
    var bits := v * 32 + d;
    assert bits / 32 == v && bits % 32 == d;
  }

  lemma {:induction false} WrittenOfValue(code: string)
    requires InAlphabet(code)
    ensures Written(Value(code), |code|) == code
  {
    if code != [] {
      var n := |code| - 1;
      var init, last := code[..n], code[n];
      WrittenOfValue(init);
      WrittenStep(Value(init), Digit(last), n);
      assert code == init + [last];
    }
  }

  lemma {:induction false} ValueFits(code: string)
    requires InAlphabet(code)
    ensures Value(code) < Power32(|code|)
  {
    if code != [] {
      ValueFits(code[..|code| - 1]);
    }
  }

  /** The letters of a number stand for it. */
  lemma ValueOfLetters(bits: nat, n: nat)
    requires bits < Power32(n)
    ensures InAlphabet(Letters(bits, n)) && Value(Letters(bits, n)) == bits
  {
    LettersAreWritten(bits, n);
    ValueOfWritten(bits, n);
  }

  /** And a code is the letters of the number it stands for. */
  lemma LettersOfValue(code: string)
    requires InAlphabet(code)
    ensures Value(code) < Power32(|code|) && Letters(Value(code), |code|) == code
  {
    ValueFits(code);
    WrittenOfValue(code);
    LettersAreWritten(Value(code), |code|);
  }

  // ---- Every code comes from five random bytes, in one way ----

  function Power256(n: nat): nat {
    if n == 0 then 1 else 0x100 * Power256(n - 1)
  }

  lemma {:induction false} BitsFit(bytes: seq<byte>)
    ensures Bits(bytes) < Power256(|bytes|)
  {
    if bytes != [] {
      BitsFit(bytes[..|bytes| - 1]);
    }
  }

  lemma {:induction false} BitsInjective(a: seq<byte>, b: seq<byte>)
    requires |a| == |b| && Bits(a) == Bits(b)
    ensures a == b
  {
    if a != [] {
      var n := |a| - 1;
      BitsInjective(a[..n], b[..n]);
      assert a == a[..n] + [a[n]] && b == b[..n] + [b[n]];
    }
  }

  lemma {:induction false} BitsOnto(v: nat, n: nat) returns (bytes: seq<byte>)
    requires v < Power256(n)
    ensures |bytes| == n && Bits(bytes) == v
  {
    if n == 0 {
      bytes := [];
    } else {
      var init := BitsOnto(v / 0x100, n - 1);
      bytes := init + [v % 0x100];
      assert bytes[..n - 1] == init;
    }
  }

  lemma FortyBits()
    ensures Power256(5) == Power32(LEN) == 0x100_0000_0000
  {
    assert Power256(1) == 0x100 && Power256(2) == 0x1_0000 && Power256(3) == 0x100_0000;
    assert Power32(1) == 32 && Power32(2) == 1024 && Power32(3) == 32768 && Power32(4) == 1048576;
    assert Power32(5) == 33554432 && Power32(6) == 1073741824;
  }

  lemma GeneratedIsCode(bytes: seq<byte>)
    requires |bytes| == 5
    ensures IsCode(Generate(bytes)) && Value(Generate(bytes)) == Bits(bytes)
  {
    BitsFit(bytes);
    FortyBits();
    ValueOfLetters(Bits(bytes), LEN);
  }

  /** Different bytes make different codes, and every code can be made: with uniform bytes, all the
      2^40 codes are equally likely. */
  lemma GenerateIsABijection(code: string) returns (bytes: seq<byte>)
    requires IsCode(code)
    ensures |bytes| == 5 && Generate(bytes) == code
    ensures forall other: seq<byte> :: |other| == 5 && Generate(other) == code ==> other == bytes
  {
    LettersOfValue(code);
    FortyBits();
    bytes := BitsOnto(Value(code), 5);
    forall other: seq<byte> | |other| == 5 && Generate(other) == code ensures other == bytes {
      GeneratedIsCode(other);
      BitsInjective(other, bytes);
    }
  }

  // ---- What may be typed ----

  /** The ways to type a character of a code. */
  predicate Spells(typed: char, c: char) {
    || typed == c
    || (typed in "iIlL" && c == '1')
    || (typed in "oO" && c == '0')
    || ('a' <= typed <= 'z' && typed !in "ilo" && c == typed - 'a' + 'A')
  }

  /** `input` is `code` with spaces and dashes anywhere and every character in one of its spellings. */
  predicate Types(input: string, code: string) {
    if input == [] then code == []
    else if Ignored(input[0]) then Types(input[1..], code)
    else code != [] && Spells(input[0], code[0]) && Types(input[1..], code[1..])
  }

  lemma SpellsIff(typed: char, c: char)
    requires IsLetter(c)
    ensures Spells(typed, c) <==> Canonical(typed) == c
  {
  }

  lemma {:induction false} TypesIff(input: string, code: string)
    requires InAlphabet(code)
    ensures Types(input, code) <==> Cleaned(input) == code
  {
    if input != [] {
      if Ignored(input[0]) {
        TypesIff(input[1..], code);
      } else if code != [] {
        SpellsIff(input[0], code[0]);
        TypesIff(input[1..], code[1..]);
        assert code == [code[0]] + code[1..];
        assert Cleaned(input)[0] == Canonical(input[0]) && Cleaned(input)[1..] == Cleaned(input[1..]);
      }
    }
  }

  /** Parsing gives a code exactly for the ways to type it, and nothing for anything else. */
  lemma ParsesIffTypes(input: string, code: string)
    ensures Parse(input) == Some(code) <==> IsCode(code) && Types(input, code)
  {
    if IsCode(code) {
      TypesIff(input, code);
    }
    var cleaned := Cleaned(input);
    assert InAlphabet(cleaned) <==> forall i :: 0 <= i < |cleaned| ==> cleaned[i] in ALPHABET by {
      forall i | 0 <= i < |cleaned| ensures IsLetter(cleaned[i]) <==> cleaned[i] in ALPHABET {
        LettersAreTheAlphabet(cleaned[i]);
      }
    }
  }

  lemma {:induction false} TypesItself(code: string, more: string, typed: string)
    requires InAlphabet(code) && Types(typed, more)
    ensures Types(code + typed, code + more)
  {
    if code == [] {
      assert code + typed == typed && code + more == more;
    } else {
      assert !Ignored(code[0]) && Spells(code[0], code[0]);
      TypesItself(code[1..], more, typed);
      assert (code + typed)[1..] == code[1..] + typed && (code + more)[1..] == code[1..] + more;
    }
  }

  /** Typing a code the way it is shown gives it back. */
  lemma ShownParses(code: string)
    requires IsCode(code)
    ensures Parse(Shown(code)) == Some(code)
  {
    TypesItself(code[4..], "", "");
    assert code[4..] + "" == code[4..] && ("-" + code[4..])[1..] == code[4..];
    assert Types("-" + code[4..], code[4..]);
    TypesItself(code[..4], code[4..], "-" + code[4..]);
    assert code[..4] + code[4..] == code && code[..4] + ("-" + code[4..]) == Shown(code);
    ParsesIffTypes(Shown(code), code);
  }
}
