/**
  The constant tables of the Telex input method: which key sets which tone,
  the tone-revert key, and the letter-shape rules (double tap, the `w`
  modifier, `dd`). A Kotlin `mapOf` keeps its entries in insertion order,
  and the engine searches them by value, so each table is its list of
  (key, value) entries.
*/
module TelexRules {
  import opened Wrappers
  import opened Casing

  // The five tone marks, as Unicode combining characters.
  const Acute: char := '\U{0301}'
  const Grave: char := '\U{0300}'
  const Hook: char := '\U{0309}'
  const Tilde: char := '\U{0303}'
  const Dot: char := '\U{0323}'

  predicate IsToneMark(t: char) {
    t == Acute || t == Grave || t == Hook || t == Tilde || t == Dot
  }

  /** The entries of a `mapOf` table, in insertion order. */
  type Table = seq<(char, char)>

  const ToneMarkers: Table := [('s', Acute), ('f', Grave), ('r', Hook), ('x', Tilde), ('j', Dot)]

  /** The key that strips the tone of a word. */
  const ToneRevert: char := 'z'

  const DoubleTapMap: Table := [('a', 'â'), ('e', 'ê'), ('o', 'ô')]

  const DModifier: char := 'd'
  const Dd: char := 'đ'

  const WModifierMap: Table := [('a', 'ă'), ('o', 'ơ'), ('u', 'ư')]

  /** `getValue`/`containsKey`: the value of the first entry whose key is `k`. */
  function Get(t: Table, k: char): (r: Option<char>)
    ensures r.Some? <==> exists i :: 0 <= i < |t| && t[i].0 == k
    ensures r.Some? ==> exists i :: 0 <= i < |t| && t[i] == (k, r.value)
  {
    if |t| == 0 then None
    else if t[0].0 == k then Some(t[0].1)
    else
      var r := Get(t[1..], k);
      assert forall i :: 0 <= i < |t| - 1 ==> t[1..][i] == t[i + 1];
      assert r.Some? ==> exists i :: 0 <= i < |t| - 1 && t[1..][i] == (k, r.value);
      r
  }

  /** `entries.find { it.value == v }?.key`: the key of the first entry whose value is `v`. */
  function FindKey(t: Table, v: char): (r: Option<char>)
    ensures r.Some? <==> exists i :: 0 <= i < |t| && t[i].1 == v
    ensures r.Some? ==> exists i :: 0 <= i < |t| && t[i] == (r.value, v)
  {
    if |t| == 0 then None
    else if t[0].1 == v then Some(t[0].0)
    else
      var r := FindKey(t[1..], v);
      assert forall i :: 0 <= i < |t| - 1 ==> t[1..][i] == t[i + 1];
      assert r.Some? ==> exists i :: 0 <= i < |t| - 1 && t[1..][i] == (r.value, v);
      r
  }

  /** No two entries share a key, and no two share a value. */
  predicate Injective(t: Table) {
    forall i, j :: 0 <= i < j < |t| ==> t[i].0 != t[j].0 && t[i].1 != t[j].1
  }

  function Values(t: Table): (vs: set<char>)
    ensures forall v :: v in vs <==> exists i :: 0 <= i < |t| && t[i].1 == v
  {
    set i | 0 <= i < |t| :: t[i].1
  }

  /** The tone keys are exactly s, f, r, x and j, and each sets a different one of the five marks. */
  lemma ToneMarkersLookup(k: char)
    ensures Get(ToneMarkers, k).Some? <==> k in {'s', 'f', 'r', 'x', 'j'}
    ensures Get(ToneMarkers, k).Some? ==> IsToneMark(Get(ToneMarkers, k).value)
    ensures Get(ToneMarkers, k) == Some(Acute) <==> k == 's'
    ensures Get(ToneMarkers, k) == Some(Grave) <==> k == 'f'
    ensures Get(ToneMarkers, k) == Some(Hook) <==> k == 'r'
    ensures Get(ToneMarkers, k) == Some(Tilde) <==> k == 'x'
    ensures Get(ToneMarkers, k) == Some(Dot) <==> k == 'j'
  {
    var t1, t2, t3, t4 := ToneMarkers[1..], ToneMarkers[2..], ToneMarkers[3..], ToneMarkers[4..];
    assert t1[1..] == t2 && t2[1..] == t3 && t3[1..] == t4 && t4[1..] == [];
    assert Get(t4, k) == if k == 'j' then Some(Dot) else None;
    assert Get(t3, k) == if k == 'x' then Some(Tilde) else Get(t4, k);
    assert Get(t2, k) == if k == 'r' then Some(Hook) else Get(t3, k);
    assert Get(t1, k) == if k == 'f' then Some(Grave) else Get(t2, k);
    assert Get(ToneMarkers, k) == if k == 's' then Some(Acute) else if k == 'f' then Some(Grave)
      else if k == 'r' then Some(Hook) else if k == 'x' then Some(Tilde) else if k == 'j' then Some(Dot) else None;
  }

  /** The five marks are five different characters: U+0301, U+0300, U+0309, U+0303 and U+0323. */
  lemma ToneMarksDistinct()
    ensures Injective(ToneMarkers)
    ensures forall t :: IsToneMark(t) <==> t in Values(ToneMarkers)
  {
    forall t ensures IsToneMark(t) <==> t in Values(ToneMarkers) {
      if IsToneMark(t) {
        var i := if t == Acute then 0 else if t == Grave then 1 else if t == Hook then 2 else if t == Tilde then 3 else 4;
        assert ToneMarkers[i].1 == t;
      }
    }
  }

  /** The revert key is not a tone key, so the revert rule is reachable. */
  lemma ToneRevertIsNotToneKey()
    ensures Get(ToneMarkers, ToneRevert) == None
    ensures LowercaseChar(ToneRevert) == ToneRevert
  {
  }

  /** The tone and revert keys and the shape keys (a, e, o, u, w, d) are disjoint sets of letters. */
  lemma ToneKeysAreNotShapeKeys(k: char)
    requires Get(ToneMarkers, k).Some? || k == ToneRevert
    ensures Get(DoubleTapMap, k) == None && Get(WModifierMap, k) == None
    ensures k != 'w' && k != DModifier
  {
    ToneMarkersLookup(k);
  }

  /** Both letter-shape tables are injective, and their targets and đ are pairwise distinct. */
  lemma ModifierTablesInjective()
    ensures Injective(DoubleTapMap) && Injective(WModifierMap)
    ensures Values(DoubleTapMap) !! Values(WModifierMap)
    ensures Dd !in Values(DoubleTapMap) && Dd !in Values(WModifierMap)
  {
  }

  /** Every key and every target of the letter tables is a lowercase letter. */
  lemma ModifierTablesLowercase()
    ensures forall i :: 0 <= i < |DoubleTapMap| ==> IsLowerCase(DoubleTapMap[i].0) && IsLowerCase(DoubleTapMap[i].1)
    ensures forall i :: 0 <= i < |WModifierMap| ==> IsLowerCase(WModifierMap[i].0) && IsLowerCase(WModifierMap[i].1)
    ensures IsLowerCase(DModifier) && IsLowerCase(Dd)
  {
  }

  /** The double-tap table as a function of the letter typed before and of the letter it becomes. */
  lemma DoubleTapLookup(c: char)
    ensures Get(DoubleTapMap, c) == if c == 'a' then Some('â') else if c == 'e' then Some('ê') else if c == 'o' then Some('ô') else None
    ensures FindKey(DoubleTapMap, c) == if c == 'â' then Some('a') else if c == 'ê' then Some('e') else if c == 'ô' then Some('o') else None
  {
    var t1, t2 := DoubleTapMap[1..], DoubleTapMap[2..];
    assert t1[1..] == t2 && t2[1..] == [];
    assert Get(t2, c) == if c == 'o' then Some('ô') else None;
    assert Get(t1, c) == if c == 'e' then Some('ê') else Get(t2, c);
    assert FindKey(t2, c) == if c == 'ô' then Some('o') else None;
    assert FindKey(t1, c) == if c == 'ê' then Some('e') else FindKey(t2, c);
  }

  /** The `w`-modifier table as a function of the letter typed before and of the letter it becomes. */
  lemma WModifierLookup(c: char)
    ensures Get(WModifierMap, c) == if c == 'a' then Some('ă') else if c == 'o' then Some('ơ') else if c == 'u' then Some('ư') else None
    ensures FindKey(WModifierMap, c) == if c == 'ă' then Some('a') else if c == 'ơ' then Some('o') else if c == 'ư' then Some('u') else None
  {
    var t1, t2 := WModifierMap[1..], WModifierMap[2..];
    assert t1[1..] == t2 && t2[1..] == [];
    assert Get(t2, c) == if c == 'u' then Some('ư') else None;
    assert Get(t1, c) == if c == 'o' then Some('ơ') else Get(t2, c);
    assert FindKey(t2, c) == if c == 'ư' then Some('u') else None;
    assert FindKey(t1, c) == if c == 'ơ' then Some('o') else FindKey(t2, c);
  }
}
