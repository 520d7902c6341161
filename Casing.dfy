/**
  Kotlin's character case functions (`isUpperCase`, `lowercaseChar`,
  `uppercaseChar`, `Char.equals(other, ignoreCase = true)`), restricted to the
  letters the Telex engine meets: ASCII letters and the Vietnamese letters
  (the base vowels, their toned forms, and đ/Đ). Every other character is
  caseless here.

  The case pairs follow the Unicode code charts, and are stated on code points:
  - ASCII and Latin-1 letters differ by 0x20 (`A`/`a`, `Ê`/`ê`);
  - Ă, Đ, Ĩ, Ũ, Ơ, Ư and their lowercase forms differ by 1;
  - in U+1EA0..U+1EF9 (Latin Extended Additional), the even code points
    are uppercase, and each one's lowercase form follows it.
*/
module Casing {

  /** The uppercase Latin-1 letters used in Vietnamese; their lowercase forms are 0x20 higher. */
  predicate LatinOneUpperCode(n: int) {
    || n == 0x00C0 || n == 0x00C1 || n == 0x00C2 || n == 0x00C3 || n == 0x00C8 || n == 0x00C9 || n == 0x00CA || n == 0x00CC // À Á Â Ã È É Ê Ì
    || n == 0x00CD || n == 0x00D2 || n == 0x00D3 || n == 0x00D4 || n == 0x00D5 || n == 0x00D9 || n == 0x00DA || n == 0x00DD // Í Ò Ó Ô Õ Ù Ú Ý
  }

  /** The uppercase letters of Latin Extended-A and -B used in Vietnamese; their lowercase forms are 1 higher. */
  predicate ExtendedUpperCode(n: int) {
    || n == 0x0102 || n == 0x0110 || n == 0x0128 || n == 0x0168 || n == 0x01A0 || n == 0x01AF // Ă Đ Ĩ Ũ Ơ Ư
  }

  predicate InVietnameseBlock(n: int) {
    0x1EA0 <= n <= 0x1EF9
  }

  predicate IsUpperCode(n: int) {
    || (0x41 <= n <= 0x5A)
    || LatinOneUpperCode(n)
    || ExtendedUpperCode(n)
    || (InVietnameseBlock(n) && n % 2 == 0)
  }

  predicate IsLowerCode(n: int) {
    || (0x61 <= n <= 0x7A)
    || LatinOneUpperCode(n - 0x20)
    || ExtendedUpperCode(n - 1)
    || (InVietnameseBlock(n) && n % 2 == 1)
  }

  predicate IsUpperCase(c: char)
    ensures IsUpperCase(c) ==> !IsLowerCase(c)
  {
    IsUpperCode(c as int)
  }

  predicate IsLowerCase(c: char) {
    IsLowerCode(c as int)
  }

  function LowercaseChar(c: char): (r: char)
    ensures IsUpperCase(c) ==> IsLowerCase(r) && r != c
    ensures !IsUpperCase(c) ==> r == c
  {
    var n := c as int;
    if 0x41 <= n <= 0x5A || LatinOneUpperCode(n) then (n + 0x20) as char
    else if ExtendedUpperCode(n) || (InVietnameseBlock(n) && n % 2 == 0) then (n + 1) as char
    else c
  }

  function UppercaseChar(c: char): (r: char)
    ensures IsLowerCase(c) ==> IsUpperCase(r) && r != c
    ensures !IsLowerCase(c) ==> r == c
  {
    var n := c as int;
    if 0x61 <= n <= 0x7A || LatinOneUpperCode(n - 0x20) then (n - 0x20) as char
    else if ExtendedUpperCode(n - 1) || (InVietnameseBlock(n) && n % 2 == 1) then (n - 1) as char
    else c
  }

  /** Kotlin's `Char.equals(other, ignoreCase = true)`: equal, or equal after `uppercaseChar`, or after both conversions. */
  predicate EqualsIgnoreCase(a: char, b: char) {
    a == b || UppercaseChar(a) == UppercaseChar(b) || LowercaseChar(UppercaseChar(a)) == LowercaseChar(UppercaseChar(b))
  }

  /** Case-insensitive match of `suffix` at the end of `s` (Kotlin's `endsWith(suffix, ignoreCase = true)`). */
  predicate EndsWithIgnoreCase(s: string, suffix: string) {
    |suffix| <= |s| && forall j :: 0 <= j < |suffix| ==> EqualsIgnoreCase(s[|s| - |suffix| + j], suffix[j])
  }

  /** Case-insensitive occurrence of `sub` in `s` (Kotlin's `contains(sub, ignoreCase = true)`). */
  predicate ContainsIgnoreCase(s: string, sub: string) {
    exists i :: 0 <= i <= |s| - |sub| && MatchesAt(s, sub, i)
  }

  /** `sub` occurs in `s` at index `i`, ignoring case. */
  predicate MatchesAt(s: string, sub: string, i: int)
    requires 0 <= i <= |s| - |sub|
  {
    forall j :: 0 <= j < |sub| ==> EqualsIgnoreCase(s[i + j], sub[j])
  }

  /** Case-insensitive occurrence of the character `c` in `s` (Kotlin's `contains(c, ignoreCase = true)`). */
  predicate ContainsCharIgnoreCase(s: string, c: char) {
    exists i :: 0 <= i < |s| && EqualsIgnoreCase(s[i], c)
  }

  /** Ignoring case, two characters are equal exactly when their folded forms (uppercased, then lowercased) are. */
  lemma EqualsIgnoreCaseFolds(a: char, b: char)
    ensures EqualsIgnoreCase(a, b) <==> LowercaseChar(UppercaseChar(a)) == LowercaseChar(UppercaseChar(b))
  {
  }

  /** A suffix that matches ignoring case is an occurrence. */
  lemma EndsWithIsContains(s: string, suffix: string)
    requires EndsWithIgnoreCase(s, suffix)
    ensures ContainsIgnoreCase(s, suffix)
  {
    assert MatchesAt(s, suffix, |s| - |suffix|);
  }

  /** Every string contains the empty string, and an occurrence is never longer than the string. */
  lemma ContainsIgnoreCaseBounds(s: string, sub: string)
    ensures |sub| == 0 ==> ContainsIgnoreCase(s, sub)
    ensures ContainsIgnoreCase(s, sub) ==> |sub| <= |s|
  {
    assert |sub| == 0 ==> MatchesAt(s, sub, 0);
  }

  /** Containing a character is containing the one-character string. */
  lemma ContainsCharIsContains(s: string, c: char)
    ensures ContainsCharIgnoreCase(s, c) <==> ContainsIgnoreCase(s, [c])
  {
    assert forall i :: 0 <= i < |s| ==> (MatchesAt(s, [c], i) <==> EqualsIgnoreCase(s[i + 0], [c][0]));
    assert forall i :: 0 <= i < |s| ==> (MatchesAt(s, [c], i) <==> EqualsIgnoreCase(s[i], c));
  }

  /** Case conversion of a lowercase letter and back is the identity. */
  lemma LowerUpperRoundTrip(c: char)
    requires IsLowerCase(c)
    ensures LowercaseChar(UppercaseChar(c)) == c
  {
  }

  /** Case conversion of an uppercase letter and back is the identity. */
  lemma UpperLowerRoundTrip(c: char)
    requires IsUpperCase(c)
    ensures UppercaseChar(LowercaseChar(c)) == c
  {
  }

  /** The characters whose lowercase form is the lowercase letter `x` are `x` and its capital. */
  lemma LowercaseIs(c: char, x: char)
    requires IsLowerCase(x)
    ensures LowercaseChar(c) == x <==> c == x || c == UppercaseChar(x)
  {
    LowerUpperRoundTrip(x);
    if IsUpperCase(c) {
      UpperLowerRoundTrip(c);
    }
  }

  /** Ignoring case, a character matches the lowercase letter `x` exactly when it is `x` or its capital. */
  lemma EqualsIgnoreCaseLower(c: char, x: char)
    requires IsLowerCase(x)
    ensures EqualsIgnoreCase(c, x) <==> c == x || c == UppercaseChar(x)
  {
    LowerUpperRoundTrip(x);
    if UppercaseChar(c) == UppercaseChar(x) && IsLowerCase(c) {
      LowerUpperRoundTrip(c);
    }
    if LowercaseChar(UppercaseChar(c)) == x {
      LowercaseIs(UppercaseChar(c), x);
      if IsLowerCase(c) {
        LowerUpperRoundTrip(c);
      }
    }
  }
}
