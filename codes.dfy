/**
 * Join codes for private rooms (app.py, generate_code).
 *
 * A code is drawn character by character from `ascii_letters + digits`,
 * where Python defines `ascii_letters` as the lower-case letters followed
 * by the upper-case ones. The random source is an oracle: `rand(i)` is the
 * i-th draw, and the character chosen is the symbol at that draw modulo the
 * alphabet size, as `random.choice` picks an index below the length of its
 * argument.
 */
module Codes {

  const ASCII_LOWERCASE: string := "abcdefghijklmnopqrstuvwxyz"
  const ASCII_UPPERCASE: string := "ABCDEFGHIJKLMNOPQRSTUVWXYZ"
  const DIGITS: string := "0123456789"
  const ALPHABET: string := ASCII_LOWERCASE + ASCII_UPPERCASE + DIGITS
  /** The default `length` argument of generate_code. */
  const CODE_LENGTH: nat := 6

  /** Independent definition of the symbols a join code may hold. */
  predicate IsAlnum(c: char)
  {
    'a' <= c <= 'z' || 'A' <= c <= 'Z' || '0' <= c <= '9'
  }

  /** A string that generate_code can return for the given length. */
  predicate IsCode(s: string, length: nat)
  {
    |s| == length && forall i :: 0 <= i < |s| ==> IsAlnum(s[i])
  }

  /** The position of an alphanumeric character in ALPHABET. */
  function IndexOf(c: char): (k: nat)
    requires IsAlnum(c)
    ensures k < 62
  {
    if 'a' <= c <= 'z' then c as int - 'a' as int
    else if 'A' <= c <= 'Z' then 26 + (c as int - 'A' as int)
    else 52 + (c as int - '0' as int)
  }

  /** The symbol at position k, computed arithmetically. */
  function SymbolAt(k: nat): (c: char)
    requires k < 62
    ensures IsAlnum(c)
  {
    if k < 26 then ('a' as int + k) as char
    else if k < 52 then ('A' as int + (k - 26)) as char
    else ('0' as int + (k - 52)) as char
  }

  /** SymbolAt undoes IndexOf on the symbols. */
  lemma SymbolOfIndex(c: char)
    requires IsAlnum(c)
    ensures SymbolAt(IndexOf(c)) == c
  {
  }

  /** IndexOf undoes SymbolAt on 0..61, so SymbolAt is injective there. */
  lemma IndexOfSymbol(k: nat)
    requires k < 62
    ensures IndexOf(SymbolAt(k)) == k
  {
  }

  lemma LowercaseAt(k: nat)
    requires k < 26
    ensures ASCII_LOWERCASE[k] == SymbolAt(k)
  {
  }

  lemma UppercaseAt(k: nat)
    requires k < 26
    ensures ASCII_UPPERCASE[k] == SymbolAt(26 + k)
  {
  }

  lemma DigitAt(k: nat)
    requires k < 10
    ensures DIGITS[k] == SymbolAt(52 + k)
  {
  }

  /** Position k of ALPHABET holds SymbolAt(k). */
  lemma AlphabetAt(k: nat)
    requires k < 62
    ensures |ALPHABET| == 62 && ALPHABET[k] == SymbolAt(k)
  {
    if k < 26 {
      LowercaseAt(k);
      assert ALPHABET[k] == ASCII_LOWERCASE[k];
    } else if k < 52 {
      UppercaseAt(k - 26);
      assert ALPHABET[k] == ASCII_UPPERCASE[k - 26];
    } else {
      DigitAt(k - 52);
      assert ALPHABET[k] == DIGITS[k - 52];
    }
  }

  /** ALPHABET is exactly the 62 symbols, in the order SymbolAt gives. */
  lemma AlphabetIsSymbols()
    ensures |ALPHABET| == 62
    ensures forall k :: 0 <= k < 62 ==> ALPHABET[k] == SymbolAt(k)
  {
    forall k | 0 <= k < 62
      ensures ALPHABET[k] == SymbolAt(k)
    {
      AlphabetAt(k);
    }
  }

  /** The alphabet holds 62 distinct symbols, each of them alphanumeric. */
  lemma AlphabetHas62Symbols()
    ensures |ALPHABET| == 62
    ensures forall k :: 0 <= k < |ALPHABET| ==> IsAlnum(ALPHABET[k])
    ensures forall i, j :: 0 <= i < j < |ALPHABET| ==> ALPHABET[i] != ALPHABET[j]
    ensures forall c :: IsAlnum(c) ==> c in ALPHABET
  {
    AlphabetIsSymbols();
    forall i, j | 0 <= i < j < |ALPHABET|
      ensures ALPHABET[i] != ALPHABET[j]
    {
      IndexOfSymbol(i);
      IndexOfSymbol(j);
    }
    forall c | IsAlnum(c)
      ensures c in ALPHABET
    {
      DrawPicks(c);
    }
  }

  /** generate_code(length): `length` independent draws from ALPHABET. */
  function GenerateCode(length: nat, rand: nat -> nat): (code: string)
    ensures IsCode(code, length)
  {
    AlphabetIsSymbols();
    seq(length, i requires 0 <= i < length => ALPHABET[rand(i) % |ALPHABET|])
  }

  /** Draws that make the random source pick exactly the symbols of s. */
  function DrawsFor(s: string): nat -> nat
  {
    (i: nat) => if i < |s| && IsAlnum(s[i]) then IndexOf(s[i]) else 0
  }

  /** The draw IndexOf(c) makes the random source pick c. */
  lemma DrawPicks(c: char)
    requires IsAlnum(c)
    ensures ALPHABET[IndexOf(c) % |ALPHABET|] == c
  {
    var k := IndexOf(c);
    AlphabetAt(k);
    assert k % |ALPHABET| == k;
    SymbolOfIndex(c);
  }

  /**
   * Every alphanumeric string of the right length can come out of
   * generate_code: the model's range is exactly the set of codes.
   */
  lemma EveryCodeIsDrawable(s: string)
    requires IsCode(s, |s|)
    ensures GenerateCode(|s|, DrawsFor(s)) == s
  {
    var code := GenerateCode(|s|, DrawsFor(s));
    forall i | 0 <= i < |s|
      ensures code[i] == s[i]
    {
      DrawPicks(s[i]);
    }
  }
}
