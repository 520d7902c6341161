/**
  The Telex engine: from the word typed so far and the next key, either the
  rewritten word or `None`, in which case the caller appends the key as it
  is. The rule families are tried in a fixed order: tone keys, the `z`
  revert, the undo of a letter shape, and the forward letter shapes.
*/
module TelexProcessor {
  import opened Wrappers
  import opened Casing
  import opened TelexRules
  import opened VietnameseUtils

  /** `replaceRange(i, i + 1, c.toString())`: the word with its character at `i` replaced by `c`. */
  function ReplaceAt(w: string, i: int, c: char): (r: string)
    requires 0 <= i < |w|
    ensures |r| == |w| && r[i] == c
    ensures forall j :: 0 <= j < |w| && j != i ==> r[j] == w[j]
  {
    w[..i] + [c] + w[i + 1..]
  }

  /** A character carries a tone: it is a key of the tone table. */
  predicate HasTone(c: char)
    ensures HasTone(c) <==> CharToBaseChar(c).Some?
    ensures HasTone(c) ==> !IsVowel(c)
  {
    RemoveTone(c) != c
  }

  /**
    The tone-key rule once the vowel at `i` is chosen. The vowel ends up
    with the key's tone, unless it already had that tone: then it loses it
    and the key is appended. Nothing else in the word changes.
  */
  function ApplyTone(w: string, i: int, tone: char, newKey: char): (r: string)
    requires 0 <= i < |w| && IsVowel(RemoveTone(w[i])) && IsToneMark(tone)
    ensures |r| >= |w| && RemoveTone(r[i]) == RemoveTone(w[i])
    ensures forall j :: 0 <= j < |w| && j != i ==> r[j] == w[j]
    ensures AddTone(RemoveTone(w[i]), tone) == w[i] ==> |r| == |w| + 1 && r[i] == RemoveTone(w[i]) && r[|w|] == newKey
    ensures AddTone(RemoveTone(w[i]), tone) != w[i] ==> |r| == |w| && r[i] == AddTone(RemoveTone(w[i]), tone)
  {
    var vowelChar := w[i];
    var baseVowel := RemoveTone(vowelChar);
    if baseVowel != vowelChar then
      if AddTone(baseVowel, tone) == vowelChar then ReplaceAt(w, i, baseVowel) + [newKey]
      else ReplaceAt(w, i, AddTone(baseVowel, tone))
    else
      ReplaceAt(w, i, AddTone(vowelChar, tone))
  }

  /** The index of the last toned character of `w`, or -1 when it has none. */
  function LastTonedIndex(w: string): (r: int)
    ensures -1 <= r < |w|
    ensures r >= 0 ==> HasTone(w[r])
    ensures forall j :: r < j < |w| ==> !HasTone(w[j])
  {
    IndexOfLast(w, HasTone)
  }

  /** The `z` rule: the last toned character loses its tone; `None` when no character has a tone. */
  function Revert(w: string): (r: Option<string>)
    ensures r.None? <==> forall j :: 0 <= j < |w| ==> !HasTone(w[j])
  {
    var i := LastTonedIndex(w);
    if i == -1 then None else Some(ReplaceAt(w, i, RemoveTone(w[i])))
  }

  /** The reversed search for the last toned character, with its early exit. */
  method FindTonedVowel(w: string) returns (vowelIndex: int, vowelChar: char)
    ensures vowelIndex == LastTonedIndex(w)
    ensures vowelIndex >= 0 ==> vowelChar == w[vowelIndex]
  {
    vowelIndex, vowelChar := -1, ' ';
    var i := |w| - 1;
    while i >= 0
      invariant -1 <= i < |w|
      invariant forall j :: i < j < |w| ==> !HasTone(w[j])
    {
      if HasTone(w[i]) {
        vowelIndex, vowelChar := i, w[i];
        break;
      }
      i := i - 1;
    }
  }

  /** The `z` branch as the engine runs it: search, then strip the tone found. */
  method RevertTone(w: string) returns (r: Option<string>)
    ensures r == Revert(w)
  {
    var vowelIndex, vowelChar := FindTonedVowel(w);
    if vowelIndex != -1 {
      var baseVowel := RemoveTone(vowelChar);
      r := Some(ReplaceAt(w, vowelIndex, baseVowel));
    } else {
      r := None;
    }
  }

  /** The casing of a restored letter: a lowercase letter `c`, made uppercase exactly when `lastChar` is. */
  function CasedLike(lastChar: char, c: char): (r: char)
    ensures IsLowerCase(c) ==> LowercaseChar(r) == c && (IsUpperCase(r) <==> IsUpperCase(lastChar))
  {
    if IsUpperCase(lastChar) then UppercaseChar(c) else c
  }

  /** The casing of a letter produced from two keystrokes: a lowercase letter `c`, made uppercase exactly when both keys are. */
  function CasedLikeBoth(lastChar: char, newKey: char, c: char): (r: char)
    ensures IsLowerCase(c) ==> LowercaseChar(r) == c && (IsUpperCase(r) <==> IsUpperCase(lastChar) && IsUpperCase(newKey))
  {
    if IsUpperCase(lastChar) && IsUpperCase(newKey) then UppercaseChar(c) else c
  }

  /**
    The undo rules, on a nonempty word: a shaped last letter typed again
    with its key goes back to its plain letters followed by the key. Each
    keeps everything before the last one or two letters and adds one
    character.
  */
  function UndoRules(w: string, newKey: char): (r: Option<string>)
    requires |w| > 0
    ensures r.Some? ==> |r.value| == |w| + 1
    ensures r.Some? && EndsWithIgnoreCase(w, "ươ") ==> r.value[..|w| - 2] == w[..|w| - 2]
    ensures r.Some? && !EndsWithIgnoreCase(w, "ươ") ==> r.value[..|w| - 1] == w[..|w| - 1]
  {
    var lastChar := w[|w| - 1];
    var lowerLastChar := LowercaseChar(lastChar);
    var lowerNewKey := LowercaseChar(newKey);
    var wOriginalKey := FindKey(WModifierMap, lowerLastChar);
    var doubleTapOriginalKey := FindKey(DoubleTapMap, lowerLastChar);
    if lowerNewKey == 'w' && EndsWithIgnoreCase(w, "ươ") then
      var original := if IsUpperCase(w[|w| - 2]) then "Uo" else "uo";
      Some(w[..|w| - 2] + original + "w")
    else if wOriginalKey.Some? && lowerNewKey == 'w' then
      Some(w[..|w| - 1] + [CasedLike(lastChar, wOriginalKey.value)] + "w")
    else if lowerLastChar == Dd && lowerNewKey == DModifier then
      Some(w[..|w| - 1] + if IsUpperCase(lastChar) then "DD" else "dd")
    else if doubleTapOriginalKey.Some? && doubleTapOriginalKey.value == lowerNewKey then
      var k := CasedLikeBoth(lastChar, newKey, doubleTapOriginalKey.value);
      Some(w[..|w| - 1] + [k, k])
    else
      None
  }

  /**
    The forward rules, on a nonempty word: `uo` + `w` becomes `ươ`, `d` + `d`
    becomes `đ`, a doubled a, e or o gets a circumflex, and a, o or u + `w`
    gets a breve or horn. Each rewrites the last one or two letters and
    keeps the length.
  */
  function ForwardRules(w: string, newKey: char): (r: Option<string>)
    requires |w| > 0
    ensures r.Some? ==> |r.value| == |w|
    ensures r.Some? && EndsWithIgnoreCase(w, "uo") ==> r.value[..|w| - 2] == w[..|w| - 2]
    ensures r.Some? && !EndsWithIgnoreCase(w, "uo") ==> r.value[..|w| - 1] == w[..|w| - 1]
  {
    var lastChar := w[|w| - 1];
    var lowerLastChar := LowercaseChar(lastChar);
    var lowerNewKey := LowercaseChar(newKey);
    if lowerNewKey == 'w' && EndsWithIgnoreCase(w, "uo") then
      var newEnding :=
        if IsUpperCase(w[|w| - 2]) && IsUpperCase(w[|w| - 1]) then "ƯƠ"
        else if IsUpperCase(w[|w| - 2]) then "Ươ"
        else "ươ";
      Some(w[..|w| - 2] + newEnding)
    else if lowerNewKey == DModifier && lowerLastChar == DModifier then
      Some(w[..|w| - 1] + [CasedLikeBoth(lastChar, newKey, Dd)])
    else if Get(DoubleTapMap, lowerLastChar).Some? && lowerLastChar == lowerNewKey then
      Some(w[..|w| - 1] + [CasedLikeBoth(lastChar, newKey, Get(DoubleTapMap, lowerLastChar).value)])
    else if lowerNewKey == 'w' && Get(WModifierMap, lowerLastChar).Some? then
      Some(w[..|w| - 1] + [CasedLike(lastChar, Get(WModifierMap, lowerLastChar).value)])
    else
      None
  }

  /** The letter-shape rules: nothing for an empty word, else the undo rules, then the forward rules. */
  function ShapeRules(w: string, newKey: char): (r: Option<string>)
    ensures |w| == 0 ==> r.None?
    ensures r.Some? ==> |r.value| == |w| || |r.value| == |w| + 1
  {
    if |w| == 0 then None
    else
      match UndoRules(w, newKey)
      case Some(undone) => Some(undone)
      case None => ForwardRules(w, newKey)
  }

  /**
    `process(currentWord, newKey)`: the rewritten word, or `None` when the
    key is to be appended as typed. A result keeps the word's length or
    adds one character, and an empty word is never rewritten.
  */
  function Process(w: string, newKey: char): (r: Option<string>)
    ensures |w| == 0 ==> r.None?
    ensures r.Some? ==> |r.value| == |w| || |r.value| == |w| + 1
  {
    var lowerNewKey := LowercaseChar(newKey);
    match Get(ToneMarkers, lowerNewKey)
    case Some(tone) =>
      ToneMarkersLookup(lowerNewKey);
      var vowelIndex := GetVowelIndex(w);
      if vowelIndex == -1 then None
      else Some(ApplyTone(w, vowelIndex, tone, newKey))
    case None =>
      if lowerNewKey == ToneRevert && Revert(w).Some? then Revert(w)
      else ShapeRules(w, newKey)
  }

  /**
    The inverse of a table, as Kotlin's `entries.associate { (k, v) -> v to k }`
    builds it: entry by entry, a later entry overriding an earlier one.
  */
  function Inverse(t: Table): (m: map<char, char>)
    ensures forall v :: v in m <==> exists i :: 0 <= i < |t| && t[i].1 == v
  {
    if |t| == 0 then map[]
    else
      var init := t[..|t| - 1];
      assert forall i :: 0 <= i < |init| ==> init[i] == t[i];
      Inverse(init)[t[|t| - 1].1 := t[|t| - 1].0]
  }

  /** `REVERSE_DIACRITIC_MAP`: each shaped letter back to the key that made it. The engine never reads it. */
  function ReverseDiacriticMap(): (m: map<char, char>)
    ensures Dd in m && UppercaseChar(Dd) in m
  {
    Inverse(DoubleTapMap) + Inverse(WModifierMap) + map[Dd := DModifier] + map[UppercaseChar(Dd) := UppercaseChar(DModifier)]
  }
}
