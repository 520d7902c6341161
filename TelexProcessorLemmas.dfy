/** What `process` does, rule family by rule family. */
module TelexProcessorLemmas {
  import opened Wrappers
  import opened Casing
  import opened TelexRules
  import opened VietnameseUtils
  import opened TelexProcessor

  /** The lowercase keys some rule looks at: the tone keys, `z`, and the shape keys a, e, o, w and d. */
  predicate IsRuleKey(k: char) {
    k in {'s', 'f', 'r', 'x', 'j', 'z', 'a', 'e', 'o', 'w', 'd'}
  }

  /**
    A tone key never reaches the later rules. It gives `None` exactly when
    no vowel is chosen; otherwise only the chosen vowel changes, and it takes
    the key's tone.
  */
  lemma ToneKeyRule(w: string, k: char)
    requires Get(ToneMarkers, LowercaseChar(k)).Some?
    ensures Process(w, k).None? <==> GetVowelIndex(w) == -1
    ensures GetVowelIndex(w) != -1 ==>
      var i, r := GetVowelIndex(w), Process(w, k).value;
      && |r| == |w|
      && r[i] == AddTone(w[i], Get(ToneMarkers, LowercaseChar(k)).value)
      && forall j :: 0 <= j < |w| && j != i ==> r[j] == w[j]
  {
    ToneMarkersLookup(LowercaseChar(k));
  }

  /** The vowel chosen for the tone never has one, so the has-tone branch of the tone rule is dead code. */
  lemma ChosenVowelHasNoTone(w: string)
    requires GetVowelIndex(w) != -1
    ensures !HasTone(w[GetVowelIndex(w)])
    ensures RemoveTone(w[GetVowelIndex(w)]) == w[GetVowelIndex(w)]
  {
  }

  /** The same tone key twice on an untoned vowel toggles the tone off again and leaves the key typed after the word. */
  lemma ApplyToneToggle(w: string, i: int, tone: char, newKey: char)
    requires 0 <= i < |w| && IsVowel(w[i]) && IsToneMark(tone)
    ensures ApplyTone(ApplyTone(w, i, tone, newKey), i, tone, newKey) == w + [newKey]
  {
    var once := ApplyTone(w, i, tone, newKey);
    assert once[i] == AddTone(w[i], tone);
  }

  /**
    A different tone on a vowel whose tone was just set replaces that tone:
    the result is as if only the second tone had been typed. (A vowel that
    already carried one of the two tones would toggle it off instead.)
  */
  lemma ApplyToneOverwrite(w: string, i: int, t1: char, k1: char, t2: char, k2: char)
    requires 0 <= i < |w| && IsVowel(RemoveTone(w[i])) && IsToneMark(t1) && IsToneMark(t2) && t1 != t2
    requires AddTone(RemoveTone(w[i]), t1) != w[i] && AddTone(RemoveTone(w[i]), t2) != w[i]
    ensures ApplyTone(ApplyTone(w, i, t1, k1), i, t2, k2) == ApplyTone(w, i, t2, k2)
  {
    var b := RemoveTone(w[i]);
    var once := ApplyTone(w, i, t1, k1);
    AddToneInjective(b, t1, t2);
    assert once[i] == AddTone(b, t1) && RemoveTone(once[i]) == b;
    var twice, direct := ApplyTone(once, i, t2, k2), ApplyTone(w, i, t2, k2);
    assert |twice| == |direct| && forall j :: 0 <= j < |w| ==> twice[j] == direct[j];
  }

  /** A tone key on a word without a vowel letter (every vowel in it already toned, say) is appended as typed. */
  lemma ToneKeyOnTonedWord(w: string, k: char)
    requires Get(ToneMarkers, LowercaseChar(k)).Some?
    requires forall j :: 0 <= j < |w| ==> !IsVowel(w[j])
    ensures Process(w, k) == None
  {
    ToneKeyRule(w, k);
  }

  /** `process("má", 's')` and `process("má", 'f')` are both `None`: the toned á is not a vowel to the heuristic. */
  lemma TonedWordExamples()
    ensures Process("má", 's') == None
    ensures Process("má", 'f') == None
  {
    assert !IsVowel('m') && !IsVowel('á');
    ToneKeyOnTonedWord("má", 's');
    ToneKeyOnTonedWord("má", 'f');
  }

  /** No shape rule fires on the key `z`. */
  lemma RevertKeyIsNoShapeKey(w: string, k: char)
    requires LowercaseChar(k) == ToneRevert
    ensures ShapeRules(w, k) == None
  {
    if |w| > 0 {
      var lowerLastChar := LowercaseChar(w[|w| - 1]);
      DoubleTapLookup(lowerLastChar);
      WModifierLookup(lowerLastChar);
    }
  }

  /**
    `z` or `Z`: the last toned character loses its tone and nothing else
    changes; on a word without a tone the key falls through every rule and
    is appended.
  */
  lemma RevertRule(w: string, k: char)
    requires LowercaseChar(k) == ToneRevert
    ensures LastTonedIndex(w) == -1 ==> Process(w, k) == None
    ensures LastTonedIndex(w) != -1 ==>
      var i := LastTonedIndex(w);
      Process(w, k) == Some(ReplaceAt(w, i, RemoveTone(w[i])))
  {
    ToneRevertIsNotToneKey();
    RevertKeyIsNoShapeKey(w, k);
  }

  /** A word that differs from an untoned word only by the tone at `i` has its last tone at `i`, and stripping it gives the word back. */
  lemma StripSingleTone(w: string, toned: string, i: int)
    requires forall j :: 0 <= j < |w| ==> !HasTone(w[j])
    requires 0 <= i < |w| == |toned| && HasTone(toned[i]) && RemoveTone(toned[i]) == w[i]
    requires forall j :: 0 <= j < |w| && j != i ==> toned[j] == w[j]
    ensures LastTonedIndex(toned) == i && ReplaceAt(toned, i, RemoveTone(toned[i])) == w
  {
    var back := ReplaceAt(toned, i, RemoveTone(toned[i]));
    assert forall j :: 0 <= j < |w| ==> back[j] == w[j];
  }

  /** On a word without tones, a tone key followed by `z` gives the word back. */
  lemma ToneThenRevert(w: string, t: char, z: char)
    requires forall j :: 0 <= j < |w| ==> !HasTone(w[j])
    requires Get(ToneMarkers, LowercaseChar(t)).Some?
    requires Process(w, t).Some?
    requires LowercaseChar(z) == ToneRevert
    ensures Process(Process(w, t).value, z) == Some(w)
  {
    ToneKeyRule(w, t);
    ToneMarkersLookup(LowercaseChar(t));
    var i, toned := GetVowelIndex(w), Process(w, t).value;
    StripSingleTone(w, toned, i);
    RevertRule(toned, z);
  }

  /** An empty word is never rewritten: every key is appended to it. */
  lemma EmptyWordRule(k: char)
    ensures Process("", k) == None
  {
  }

  /** A key that is neither a tone key, nor `z`, nor a shape key is appended as typed. */
  lemma OtherKeysAreAppended(w: string, k: char)
    requires !IsRuleKey(LowercaseChar(k))
    ensures Process(w, k) == None
  {
    ToneMarkersLookup(LowercaseChar(k));
    if |w| > 0 {
      var lowerLastChar := LowercaseChar(w[|w| - 1]);
      DoubleTapLookup(lowerLastChar);
      WModifierLookup(lowerLastChar);
    }
  }

  /**
    The shape keys a, e, o, w and d are neither tone keys nor `z`, so with
    them `process` goes straight to the shape rules.
  */
  lemma ShapeKeyReachesShapeRules(w: string, k: char)
    requires var c := LowercaseChar(k); c == 'a' || c == 'e' || c == 'o' || c == 'w' || c == DModifier
    ensures Process(w, k) == ShapeRules(w, k)
  {
    ToneMarkersLookup(LowercaseChar(k));
  }

  /**
    No shape rule fires when the last letter, in lowercase, does not pair
    with the key: for `w`, the last letter is none of a, o, u, ă, ơ, ư; for
    any other key, the letter is not the key itself among a, e, o, d, and
    is not the shaped letter that key undoes (đ for d, â for a, ê for e,
    ô for o).
  */
  lemma NoShapeRuleMatches(w: string, k: char)
    requires |w| > 0
    requires var c, key := LowercaseChar(w[|w| - 1]), LowercaseChar(k);
      if key == 'w' then c !in "aouăơư"
      else !(c == key && c in "aeod") && (c, key) !in [('đ', 'd'), ('â', 'a'), ('ê', 'e'), ('ô', 'o')]
    ensures ShapeRules(w, k) == None
  {
    var last := w[|w| - 1];
    DoubleTapLookup(LowercaseChar(last));
    WModifierLookup(LowercaseChar(last));
    if LowercaseChar(k) == 'w' {
      LowercaseIs(last, 'ơ');
      LowercaseIs(last, 'o');
      EqualsIgnoreCaseLower(last, 'ơ');
      EqualsIgnoreCaseLower(last, 'o');
      assert |w| >= 2 ==> !EqualsIgnoreCase(w[|w| - 2 + 1], "ươ"[1]) && !EqualsIgnoreCase(w[|w| - 2 + 1], "uo"[1]);
    }
  }

  /** An ending `ươ` and `w` become `uo` + `w` (capital `U` if the `ư` was); this is tried before the `ơ` undo. */
  lemma UndoHornPair(w: string, k: char)
    requires LowercaseChar(k) == 'w'
    requires EndsWithIgnoreCase(w, "ươ")
    ensures Process(w, k) == Some(w[..|w| - 2] + (if IsUpperCase(w[|w| - 2]) then "Uo" else "uo") + "w")
  {
    ShapeKeyReachesShapeRules(w, k);
  }

  /**
    ă, ơ or ư (any case) and `w` become the plain letter, cased like the
    shaped one, followed by a lowercase `w`.
  */
  lemma UndoBreveOrHorn(w: string, k: char)
    requires LowercaseChar(k) == 'w'
    requires |w| > 0 && FindKey(WModifierMap, LowercaseChar(w[|w| - 1])).Some?
    requires !EndsWithIgnoreCase(w, "ươ")
    ensures Process(w, k) == Some(w[..|w| - 1] + [CasedLike(w[|w| - 1], FindKey(WModifierMap, LowercaseChar(w[|w| - 1])).value)] + "w")
  {
    ShapeKeyReachesShapeRules(w, k);
  }

  /** đ (any case) and `d` become `dd`, or `DD` when the đ was a capital. */
  lemma UndoStroke(w: string, k: char)
    requires LowercaseChar(k) == DModifier
    requires |w| > 0 && LowercaseChar(w[|w| - 1]) == Dd
    ensures Process(w, k) == Some(w[..|w| - 1] + if IsUpperCase(w[|w| - 1]) then "DD" else "dd")
  {
    ShapeKeyReachesShapeRules(w, k);
    WModifierLookup(Dd);
  }

  /** â, ê or ô and its key again become the key twice, in capitals only when both the letter and the key are. */
  lemma UndoCircumflex(w: string, k: char)
    requires |w| > 0 && FindKey(DoubleTapMap, LowercaseChar(w[|w| - 1])) == Some(LowercaseChar(k))
    ensures var c := CasedLikeBoth(w[|w| - 1], k, LowercaseChar(k));
      Process(w, k) == Some(w[..|w| - 1] + [c, c])
  {
    var lowerLastChar := LowercaseChar(w[|w| - 1]);
    DoubleTapLookup(lowerLastChar);
    WModifierLookup(lowerLastChar);
    ToneMarkersLookup(LowercaseChar(k));
  }

  /**
    An ending `uo` and `w` become `ươ`, `Ươ` or `ƯƠ` as the `u` alone or both
    letters are capitals; this is tried before the `o` + `w` rule.
  */
  lemma ForwardHornPair(w: string, k: char)
    requires LowercaseChar(k) == 'w'
    requires EndsWithIgnoreCase(w, "uo")
    ensures Process(w, k) == Some(w[..|w| - 2] +
      if IsUpperCase(w[|w| - 2]) && IsUpperCase(w[|w| - 1]) then "ƯƠ"
      else if IsUpperCase(w[|w| - 2]) then "Ươ"
      else "ươ")
  {
    ShapeKeyReachesShapeRules(w, k);
    var lastChar := w[|w| - 1];
    assert EqualsIgnoreCase(w[|w| - 2 + 1], "uo"[1]);
    EqualsIgnoreCaseLower(lastChar, 'o');
    EqualsIgnoreCaseLower(lastChar, 'ơ');
    LowercaseIs(lastChar, 'o');
    assert !EqualsIgnoreCase(w[|w| - 2 + 1], "ươ"[1]);
    WModifierLookup(LowercaseChar(lastChar));
    DoubleTapLookup(LowercaseChar(lastChar));
  }

  /** `d` and `d` become `đ`, or `Đ` when both are capitals. */
  lemma ForwardStroke(w: string, k: char)
    requires LowercaseChar(k) == DModifier
    requires |w| > 0 && LowercaseChar(w[|w| - 1]) == DModifier
    ensures Process(w, k) == Some(w[..|w| - 1] + [CasedLikeBoth(w[|w| - 1], k, Dd)])
  {
    ShapeKeyReachesShapeRules(w, k);
    DoubleTapLookup(DModifier);
  }

  /** a, e or o and the same letter again become â, ê or ô, a capital only when both keys were. */
  lemma ForwardCircumflex(w: string, k: char)
    requires |w| > 0 && Get(DoubleTapMap, LowercaseChar(w[|w| - 1])).Some?
    requires LowercaseChar(w[|w| - 1]) == LowercaseChar(k)
    ensures Process(w, k) == Some(w[..|w| - 1] + [CasedLikeBoth(w[|w| - 1], k, Get(DoubleTapMap, LowercaseChar(k)).value)])
  {
    var lowerLastChar := LowercaseChar(w[|w| - 1]);
    DoubleTapLookup(lowerLastChar);
    WModifierLookup(lowerLastChar);
    ShapeKeyReachesShapeRules(w, k);
    assert UndoRules(w, k) == None;
  }

  /** a, o or u and `w` become ă, ơ or ư, cased like the letter alone. */
  lemma ForwardBreveOrHorn(w: string, k: char)
    requires LowercaseChar(k) == 'w'
    requires |w| > 0 && Get(WModifierMap, LowercaseChar(w[|w| - 1])).Some?
    requires !EndsWithIgnoreCase(w, "uo")
    ensures Process(w, k) == Some(w[..|w| - 1] + [CasedLike(w[|w| - 1], Get(WModifierMap, LowercaseChar(w[|w| - 1])).value)])
  {
    ShapeKeyReachesShapeRules(w, k);
    var lowerLastChar := LowercaseChar(w[|w| - 1]);
    DoubleTapLookup(lowerLastChar);
    WModifierLookup(lowerLastChar);
    EqualsIgnoreCaseLower(w[|w| - 1], 'ơ');
    LowercaseIs(w[|w| - 1], 'ơ');
    assert !EqualsIgnoreCase(w[|w| - 2 + 1], "ươ"[1]);
    assert UndoRules(w, k) == None;
  }

  /** No two entries of the table share a value. */
  predicate ValuesDistinct(t: Table) {
    forall i, j :: 0 <= i < j < |t| ==> t[i].1 != t[j].1
  }

  /** When no two entries share a value, the inverse sends every value back to its key and has one entry per entry. */
  lemma {:induction false} InverseOfDistinct(t: Table)
    requires ValuesDistinct(t)
    ensures forall i :: 0 <= i < |t| ==> t[i].1 in Inverse(t) && Inverse(t)[t[i].1] == t[i].0
    ensures |Inverse(t)| == |t|
  {
    if |t| > 0 {
      var init, last := t[..|t| - 1], t[|t| - 1];
      assert forall i :: 0 <= i < |init| ==> init[i] == t[i];
      InverseOfDistinct(init);
      assert last.1 !in Inverse(init);
      assert Inverse(t) == Inverse(init)[last.1 := last.0];
      forall i | 0 <= i < |init|
        ensures t[i].1 in Inverse(t) && Inverse(t)[t[i].1] == t[i].0
      {
        assert t[i].1 != last.1;
      }
    }
  }

  /** Updating a merge is merging with the updated right-hand map. */
  lemma MergeThenUpdate(m1: map<char, char>, m2: map<char, char>, k: char, v: char)
    ensures (m1 + m2)[k := v] == m1 + m2[k := v]
  {
  }

  /** Inverting two tables one after the other and merging is inverting the concatenated table. */
  lemma {:induction false} InverseOfConcat(t1: Table, t2: Table)
    ensures Inverse(t1 + t2) == Inverse(t1) + Inverse(t2)
  {
    if |t2| > 0 {
      var init := t2[..|t2| - 1];
      var last := t2[|t2| - 1];
      InverseOfConcat(t1, init);
      assert (t1 + t2)[..|t1 + t2| - 1] == t1 + init;
      assert Inverse(t1 + t2) == (Inverse(t1) + Inverse(init))[last.1 := last.0];
      assert Inverse(t2) == Inverse(init)[last.1 := last.0];
      MergeThenUpdate(Inverse(t1), Inverse(init), last.1, last.0);
    } else {
      assert t1 + t2 == t1;
    }
  }

  /** The entries the reverse map is built from, in the order they are added: the double-tap table, the `w` table, đ and Đ. */
  const ShapeEntries: Table := DoubleTapMap + WModifierMap + [(DModifier, Dd), (UppercaseChar(DModifier), UppercaseChar(Dd))]

  /** The inverse of a two-entry table. */
  lemma InverseOfPair(e0: (char, char), e1: (char, char))
    ensures Inverse([e0, e1]) == map[e0.1 := e0.0][e1.1 := e1.0]
  {
    assert [e0, e1][..1] == [e0] && [e0][..0] == [];
  }

  /** The reverse map is the inverse of the eight shape entries. */
  lemma ReverseDiacriticMapIsInverse()
    ensures ReverseDiacriticMap() == Inverse(ShapeEntries)
  {
    var d := [(DModifier, Dd), (UppercaseChar(DModifier), UppercaseChar(Dd))];
    var m := Inverse(DoubleTapMap) + Inverse(WModifierMap);
    calc {
      Inverse(ShapeEntries);
      { InverseOfConcat(DoubleTapMap + WModifierMap, d); }
      Inverse(DoubleTapMap + WModifierMap) + Inverse(d);
      { InverseOfConcat(DoubleTapMap, WModifierMap); }
      m + Inverse(d);
      { InverseOfPair(d[0], d[1]); }
      m + map[Dd := DModifier][UppercaseChar(Dd) := UppercaseChar(DModifier)];
      m + map[Dd := DModifier] + map[UppercaseChar(Dd) := UppercaseChar(DModifier)];
    }
  }

  /** The eight shaped letters are all different. */
  lemma ShapeEntriesDistinct()
    ensures |ShapeEntries| == 8 && ValuesDistinct(ShapeEntries)
  {
    assert UppercaseChar(Dd) == 'Đ' && UppercaseChar(DModifier) == 'D';
    assert ShapeEntries == [('a', 'â'), ('e', 'ê'), ('o', 'ô'), ('a', 'ă'), ('o', 'ơ'), ('u', 'ư'), ('d', 'đ'), ('D', 'Đ')];
  }

  /** So the reverse map has exactly eight entries, each sending a shaped letter back to the key that made it. */
  lemma ReverseDiacriticMapEntries()
    ensures |ReverseDiacriticMap()| == 8
    ensures forall i :: 0 <= i < |ShapeEntries| ==> ShapeEntries[i].1 in ReverseDiacriticMap() && ReverseDiacriticMap()[ShapeEntries[i].1] == ShapeEntries[i].0
  {
    ReverseDiacriticMapIsInverse();
    ShapeEntriesDistinct();
    InverseOfDistinct(ShapeEntries);
    var m := ReverseDiacriticMap();
    assert m == Inverse(ShapeEntries);
  }
}
