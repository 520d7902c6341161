/**
  Character helpers of the Telex engine: which letters are vowels, how to
  strip the tone from a precomposed vowel and how to put one on, and which
  vowel of a word takes the tone.

  Characters are compared by code point here; every line of a table carries
  its characters in a comment.
*/
module VietnameseUtils {
  import opened Wrappers
  import opened Casing
  import opened TelexRules

  /** The code points of the 24 vowel letters without tone. */
  predicate IsVowelCode(n: int) {
    || n == 0x0061 || n == 0x0103 || n == 0x00E2 || n == 0x0065 || n == 0x00EA || n == 0x0069 // a ă â e ê i
    || n == 0x006F || n == 0x00F4 || n == 0x01A1 || n == 0x0075 || n == 0x01B0 || n == 0x0079 // o ô ơ u ư y
    || n == 0x0041 || n == 0x0102 || n == 0x00C2 || n == 0x0045 || n == 0x00CA || n == 0x0049 // A Ă Â E Ê I
    || n == 0x004F || n == 0x00D4 || n == 0x01A0 || n == 0x0055 || n == 0x01AF || n == 0x0059 // O Ô Ơ U Ư Y
  }

  /** `isVowel`: membership in the set of the 24 vowel letters without tone. */
  predicate IsVowel(c: char) {
    IsVowelCode(c as int)
  }

  /** The 12 lowercase vowel letters without tone. */
  const VowelsWithoutTone: string := "aăâeêioôơuưy"

  /**
    The rows of the tone table: the five toned forms of the vowel `b`, in the
    order acute, grave, hook, tilde, dot, or the empty row when `b` is not a
    vowel. Row `b`, column `j` is also the Unicode composition (NFC) of `b`
    with the `j`-th tone mark.
  */
  function ToneRow(b: int): (row: seq<int>)
    ensures IsVowelCode(b) <==> |row| == 5
  {
    match b
    case 0x0061 => [0x00E1, 0x00E0, 0x1EA3, 0x00E3, 0x1EA1] // a: á à ả ã ạ
    case 0x0041 => [0x00C1, 0x00C0, 0x1EA2, 0x00C3, 0x1EA0] // A: Á À Ả Ã Ạ
    case 0x0103 => [0x1EAF, 0x1EB1, 0x1EB3, 0x1EB5, 0x1EB7] // ă: ắ ằ ẳ ẵ ặ
    case 0x0102 => [0x1EAE, 0x1EB0, 0x1EB2, 0x1EB4, 0x1EB6] // Ă: Ắ Ằ Ẳ Ẵ Ặ
    case 0x00E2 => [0x1EA5, 0x1EA7, 0x1EA9, 0x1EAB, 0x1EAD] // â: ấ ầ ẩ ẫ ậ
    case 0x00C2 => [0x1EA4, 0x1EA6, 0x1EA8, 0x1EAA, 0x1EAC] // Â: Ấ Ầ Ẩ Ẫ Ậ
    case 0x0065 => [0x00E9, 0x00E8, 0x1EBB, 0x1EBD, 0x1EB9] // e: é è ẻ ẽ ẹ
    case 0x0045 => [0x00C9, 0x00C8, 0x1EBA, 0x1EBC, 0x1EB8] // E: É È Ẻ Ẽ Ẹ
    case 0x00EA => [0x1EBF, 0x1EC1, 0x1EC3, 0x1EC5, 0x1EC7] // ê: ế ề ể ễ ệ
    case 0x00CA => [0x1EBE, 0x1EC0, 0x1EC2, 0x1EC4, 0x1EC6] // Ê: Ế Ề Ể Ễ Ệ
    case 0x0069 => [0x00ED, 0x00EC, 0x1EC9, 0x0129, 0x1ECB] // i: í ì ỉ ĩ ị
    case 0x0049 => [0x00CD, 0x00CC, 0x1EC8, 0x0128, 0x1ECA] // I: Í Ì Ỉ Ĩ Ị
    case 0x006F => [0x00F3, 0x00F2, 0x1ECF, 0x00F5, 0x1ECD] // o: ó ò ỏ õ ọ
    case 0x004F => [0x00D3, 0x00D2, 0x1ECE, 0x00D5, 0x1ECC] // O: Ó Ò Ỏ Õ Ọ
    case 0x00F4 => [0x1ED1, 0x1ED3, 0x1ED5, 0x1ED7, 0x1ED9] // ô: ố ồ ổ ỗ ộ
    case 0x00D4 => [0x1ED0, 0x1ED2, 0x1ED4, 0x1ED6, 0x1ED8] // Ô: Ố Ồ Ổ Ỗ Ộ
    case 0x01A1 => [0x1EDB, 0x1EDD, 0x1EDF, 0x1EE1, 0x1EE3] // ơ: ớ ờ ở ỡ ợ
    case 0x01A0 => [0x1EDA, 0x1EDC, 0x1EDE, 0x1EE0, 0x1EE2] // Ơ: Ớ Ờ Ở Ỡ Ợ
    case 0x0075 => [0x00FA, 0x00F9, 0x1EE7, 0x0169, 0x1EE5] // u: ú ù ủ ũ ụ
    case 0x0055 => [0x00DA, 0x00D9, 0x1EE6, 0x0168, 0x1EE4] // U: Ú Ù Ủ Ũ Ụ
    case 0x01B0 => [0x1EE9, 0x1EEB, 0x1EED, 0x1EEF, 0x1EF1] // ư: ứ ừ ử ữ ự
    case 0x01AF => [0x1EE8, 0x1EEA, 0x1EEC, 0x1EEE, 0x1EF0] // Ư: Ứ Ừ Ử Ữ Ự
    case 0x0079 => [0x00FD, 0x1EF3, 0x1EF7, 0x1EF9, 0x1EF5] // y: ý ỳ ỷ ỹ ỵ
    case 0x0059 => [0x00DD, 0x1EF2, 0x1EF6, 0x1EF8, 0x1EF4] // Y: Ý Ỳ Ỷ Ỹ Ỵ
    case _ => []
  }

  /** The five cells of a row are different toned letters. */
  lemma RowCellsDistinct(b: int)
    ensures forall j, k :: 0 <= j < k < |ToneRow(b)| ==> ToneRow(b)[j] != ToneRow(b)[k]
    ensures forall j :: 0 <= j < |ToneRow(b)| ==> 0xC0 <= ToneRow(b)[j] <= 0x1EF9
  {
    var row := ToneRow(b);
    if |row| == 5 {
      assert row[0] != row[1] && row[0] != row[2] && row[0] != row[3] && row[0] != row[4];
      assert row[1] != row[2] && row[1] != row[3] && row[1] != row[4];
      assert row[2] != row[3] && row[2] != row[4] && row[3] != row[4];
    }
  }

  /**
    The vowel without tone of the Latin Extended Additional letter `n`
    (U+1EA0..U+1EF9, every one of them a key of the table). The block runs
    through the vowels in ranges; in each, a capital at an even code point is
    followed by its small letter.
  */
  function BlockBase(n: int): (b: int)
    requires 0x1EA0 <= n <= 0x1EF9
    ensures IsVowelCode(b)
  {
    var pair :=
      if n <= 0x1EA3 then (0x0041, 0x0061) // Ạ .. ả: A a
      else if n <= 0x1EAD then (0x00C2, 0x00E2) // Ấ .. ậ: Â â
      else if n <= 0x1EB7 then (0x0102, 0x0103) // Ắ .. ặ: Ă ă
      else if n <= 0x1EBD then (0x0045, 0x0065) // Ẹ .. ẽ: E e
      else if n <= 0x1EC7 then (0x00CA, 0x00EA) // Ế .. ệ: Ê ê
      else if n <= 0x1ECB then (0x0049, 0x0069) // Ỉ .. ị: I i
      else if n <= 0x1ECF then (0x004F, 0x006F) // Ọ .. ỏ: O o
      else if n <= 0x1ED9 then (0x00D4, 0x00F4) // Ố .. ộ: Ô ô
      else if n <= 0x1EE3 then (0x01A0, 0x01A1) // Ớ .. ợ: Ơ ơ
      else if n <= 0x1EE7 then (0x0055, 0x0075) // Ụ .. ủ: U u
      else if n <= 0x1EF1 then (0x01AF, 0x01B0) // Ứ .. ự: Ư ư
      else (0x0059, 0x0079); // Ỳ .. ỹ: Y y
    if n % 2 == 0 then pair.0 else pair.1
  }

  /**
    `CHAR_TO_BASE_CHAR` on code points: the vowel without tone that the key
    `n` stands for, or -1 when `n` is not a key. The keys are the 30 toned
    vowels of Latin-1 and Latin Extended-A and the 90 letters of Latin
    Extended Additional.
  */
  function BaseOf(n: int): (b: int)
    ensures b == -1 || IsVowelCode(b)
    ensures IsVowelCode(n) ==> b == -1
  {
    if 0x1EA0 <= n <= 0x1EF9 then BlockBase(n)
    else
      match n
      case 0x00E0 | 0x00E1 | 0x00E3 => 0x0061 // à á ã -> a
      case 0x00C0 | 0x00C1 | 0x00C3 => 0x0041 // À Á Ã -> A
      case 0x00E8 | 0x00E9 => 0x0065 // è é -> e
      case 0x00C8 | 0x00C9 => 0x0045 // È É -> E
      case 0x00EC | 0x00ED | 0x0129 => 0x0069 // ì í ĩ -> i
      case 0x00CC | 0x00CD | 0x0128 => 0x0049 // Ì Í Ĩ -> I
      case 0x00F2 | 0x00F3 | 0x00F5 => 0x006F // ò ó õ -> o
      case 0x00D2 | 0x00D3 | 0x00D5 => 0x004F // Ò Ó Õ -> O
      case 0x00F9 | 0x00FA | 0x0169 => 0x0075 // ù ú ũ -> u
      case 0x00D9 | 0x00DA | 0x0168 => 0x0055 // Ù Ú Ũ -> U
      case 0x00FD => 0x0079 // ý -> y
      case 0x00DD => 0x0059 // Ý -> Y
      case _ => -1
  }

  /** Every letter of Latin Extended Additional is a cell of its vowel's row. */
  lemma BlockKeysAreComposed(n: int)
    requires 0x1EA0 <= n <= 0x1EF9
    ensures n in ToneRow(BlockBase(n))
  {
  }

  /** Every key of the tone table is a cell of its value's row. */
  lemma KeysAreComposed(n: int)
    requires BaseOf(n) != -1
    ensures n in ToneRow(BaseOf(n))
  {
    if 0x1EA0 <= n <= 0x1EF9 {
      BlockKeysAreComposed(n);
    }
  }

  /** The cells of the rows of the six ASCII vowels and their capitals are keys of their row's vowel. */
  lemma AsciiRowCellsAreKeys(b: int)
    requires b < 0x80
    ensures forall j :: 0 <= j < |ToneRow(b)| ==> BaseOf(ToneRow(b)[j]) == b
  {
  }

  /** The cells of the rows of ă, â, ê, ô, ơ, ư and their capitals are keys of their row's vowel. */
  lemma MarkedRowCellsAreKeys(b: int)
    requires b >= 0x80
    ensures forall j :: 0 <= j < |ToneRow(b)| ==> BaseOf(ToneRow(b)[j]) == b
  {
  }

  /** Every cell of a vowel's row is a key of the tone table whose value is that vowel. */
  lemma CellsAreKeys(b: int)
    ensures forall j :: 0 <= j < |ToneRow(b)| ==> BaseOf(ToneRow(b)[j]) == b
  {
    if b < 0x80 {
      AsciiRowCellsAreKeys(b);
    } else {
      MarkedRowCellsAreKeys(b);
    }
  }

  /** The tone table on characters: `None` for a character that is not a key. */
  function CharToBaseChar(c: char): (r: Option<char>)
    ensures r.Some? ==> !IsVowel(c) && IsVowel(r.value)
    ensures IsVowel(c) ==> r == None
  {
    var b := BaseOf(c as int);
    if b == -1 then None else Some(b as char)
  }

  /**
    `CHAR_TO_BASE_CHAR.getOrDefault(c, c)`. A character changes exactly when it
    is a key of the table; then it is not a vowel letter and becomes one.
  */
  function RemoveTone(c: char): (r: char)
    ensures r != c <==> CharToBaseChar(c).Some?
    ensures IsVowel(c) ==> r == c
    ensures r != c ==> !IsVowel(c) && IsVowel(r)
  {
    match CharToBaseChar(c)
    case Some(base) => base
    case None => c
  }

  /** Stripping the tone twice is stripping it once. */
  lemma RemoveToneIdempotent(c: char)
    ensures RemoveTone(RemoveTone(c)) == RemoveTone(c)
  {
  }

  /** The column of a tone mark in the composition table. */
  function ToneColumn(t: char): (j: nat)
    requires IsToneMark(t)
    ensures j < 5
    ensures t == [Acute, Grave, Hook, Tilde, Dot][j]
  {
    if t == Acute then 0 else if t == Grave then 1 else if t == Hook then 2 else if t == Tilde then 3 else 4
  }

  /**
    `addTone` for the arguments the engine passes: a vowel letter without
    tone and one of the five tone marks. The result is the cell of the
    composition table in `b`'s row and `t`'s column; it is a key of the tone
    table, so removing its tone gives `b` back.
  */
  function AddTone(b: char, t: char): (r: char)
    requires IsVowel(b) && IsToneMark(t)
    ensures CharToBaseChar(r) == Some(b)
    ensures RemoveTone(r) == b && r != b && !IsVowel(r)
  {
    var row := ToneRow(b as int);
    CellsAreKeys(b as int);
    RowCellsDistinct(b as int);
    row[ToneColumn(t)] as char
  }

  /** Different tones on one vowel give different characters. */
  lemma AddToneInjective(b: char, t1: char, t2: char)
    requires IsVowel(b) && IsToneMark(t1) && IsToneMark(t2)
    ensures AddTone(b, t1) == AddTone(b, t2) <==> t1 == t2
  {
    RowCellsDistinct(b as int);
    var j1, j2 := ToneColumn(t1), ToneColumn(t2);
    if j1 < j2 {
      assert ToneRow(b as int)[j1] != ToneRow(b as int)[j2];
    } else if j2 < j1 {
      assert ToneRow(b as int)[j2] != ToneRow(b as int)[j1];
    }
  }

  /** Every key of the tone table is the composition of its value with one of the five marks. */
  lemma TableIsComposition(c: char)
    requires CharToBaseChar(c).Some?
    ensures exists t :: IsToneMark(t) && AddTone(CharToBaseChar(c).value, t) == c
  {
    var b := CharToBaseChar(c).value;
    var row := ToneRow(b as int);
    KeysAreComposed(c as int);
    var j :| 0 <= j < 5 && row[j] == c as int;
    var t := [Acute, Grave, Hook, Tilde, Dot][j];
    assert ToneColumn(t) == j;
    assert AddTone(b, t) == c;
  }

  /** `indexOfLast(p)`: the index of the last character satisfying `p`, or -1 when there is none. */
  function IndexOfLast(s: string, p: char -> bool): (r: int)
    ensures -1 <= r < |s|
    ensures r >= 0 ==> p(s[r])
    ensures forall j :: r < j < |s| ==> !p(s[j])
  {
    if |s| == 0 then -1
    else if p(s[|s| - 1]) then |s| - 1
    else IndexOfLast(s[..|s| - 1], p)
  }

  /** The test of `lastIndexOf('i', ignoreCase = true)`. */
  predicate IsLetterI(c: char) {
    EqualsIgnoreCase(c, 'i')
  }

  /** `count(p)`: the number of characters of `s` satisfying `p`. */
  function Count(s: string, p: char -> bool): (n: nat)
    ensures n <= |s|
  {
    if |s| == 0 then 0
    else Count(s[..|s| - 1], p) + if p(s[|s| - 1]) then 1 else 0
  }

  /** The count is positive exactly when some character satisfies `p`. */
  lemma {:induction false} CountPositive(s: string, p: char -> bool)
    ensures Count(s, p) > 0 <==> exists i :: 0 <= i < |s| && p(s[i])
  {
    if |s| > 0 {
      var init := s[..|s| - 1];
      CountPositive(init, p);
      assert forall i :: 0 <= i < |init| ==> init[i] == s[i];
    }
  }

  /** `letters.count { word.contains(it, ignoreCase = true) }`. */
  function CountContained(letters: string, word: string): (n: nat)
    ensures n <= |letters|
  {
    Count(letters, c => ContainsCharIgnoreCase(word, c))
  }

  /** The count is more than one exactly when two different positions of `s` satisfy `p`. */
  lemma {:induction false} CountAtLeastTwo(s: string, p: char -> bool)
    ensures Count(s, p) > 1 <==> exists i, j :: 0 <= i < j < |s| && p(s[i]) && p(s[j])
  {
    if |s| > 0 {
      var init := s[..|s| - 1];
      CountAtLeastTwo(init, p);
      CountPositive(init, p);
      assert forall i :: 0 <= i < |init| ==> init[i] == s[i];
      if Count(s, p) > 1 {
        if Count(init, p) <= 1 {
          var i :| 0 <= i < |init| && p(init[i]);
          assert p(s[i]) && p(s[|s| - 1]);
        }
      }
    }
  }

  /**
    The test of the "gi" rule on `VOWELS_WITHOUT_TONE`: more than one of its
    letters is counted exactly when two different letters of it each occur
    in `word`, ignoring case.
  */
  lemma CountContainedAtLeastTwo(word: string)
    ensures CountContained(VowelsWithoutTone, word) > 1 <==>
      exists a, b :: a in VowelsWithoutTone && b in VowelsWithoutTone && a != b && ContainsCharIgnoreCase(word, a) && ContainsCharIgnoreCase(word, b)
  {
    var v := VowelsWithoutTone;
    var p := c => ContainsCharIgnoreCase(word, c);
    CountAtLeastTwo(v, p);
    assert forall i, j :: 0 <= i < j < |v| ==> v[i] != v[j];
    if exists a, b :: a in v && b in v && a != b && ContainsCharIgnoreCase(word, a) && ContainsCharIgnoreCase(word, b) {
      var a, b :| a in v && b in v && a != b && ContainsCharIgnoreCase(word, a) && ContainsCharIgnoreCase(word, b);
      var i :| 0 <= i < |v| && v[i] == a;
      var j :| 0 <= j < |v| && v[j] == b;
      if i < j {
        assert p(v[i]) && p(v[j]);
      } else {
        assert p(v[j]) && p(v[i]);
      }
    }
  }

  /** The index of the last vowel letter of `word`, or -1. */
  function LastVowelIndex(word: string): (r: int)
    ensures -1 <= r < |word|
    ensures r >= 0 ==> IsVowel(word[r])
    ensures forall j :: r < j < |word| ==> !IsVowel(word[j])
  {
    IndexOfLast(word, IsVowel)
  }

  /**
    The three conditions of the "gi" rule that do not look at the letter
    before the `i`: the word contains "gi" ignoring case, more than one
    vowel letter without tone occurs in it, and its last vowel is `i`.
  */
  predicate GiCondition(word: string, lastVowelIndex: int)
    requires 0 <= lastVowelIndex < |word|
    ensures GiCondition(word, lastVowelIndex) ==> |word| >= 2
    ensures GiCondition(word, lastVowelIndex) && IsVowel(word[lastVowelIndex]) ==> word[lastVowelIndex] in "iI"
  {
    LowercaseIs(word[lastVowelIndex], 'i');
    && ContainsIgnoreCase(word, "gi")
    && CountContained(VowelsWithoutTone, word) > 1
    && LowercaseChar(RemoveTone(word[lastVowelIndex])) == 'i'
  }

  /** When the last vowel is `i` or `I`, `lastIndexOf('i', ignoreCase = true)` finds that vowel. */
  lemma LastLetterIIsLastVowel(word: string, lastVowelIndex: int)
    requires lastVowelIndex == LastVowelIndex(word) >= 0
    requires LowercaseChar(RemoveTone(word[lastVowelIndex])) == 'i'
    ensures IndexOfLast(word, IsLetterI) == lastVowelIndex
  {
    forall j | lastVowelIndex <= j < |word|
      ensures IsLetterI(word[j]) <==> j == lastVowelIndex
    {
      EqualsIgnoreCaseLower(word[j], 'i');
      LowercaseIs(word[j], 'i');
    }
  }

  /** The "gi" rule applies: its three conditions hold and the last `i` follows a `g`. */
  predicate GiApplies(word: string)
    ensures GiApplies(word) ==> var l := LastVowelIndex(word); l > 0 && word[l] in "iI" && word[l - 1] in "gG"
  {
    var lastVowelIndex := LastVowelIndex(word);
    var iIndex := IndexOfLast(word, IsLetterI);
    && lastVowelIndex != -1
    && GiCondition(word, lastVowelIndex)
    && (LastLetterIIsLastVowel(word, lastVowelIndex); iIndex > 0)
    && (LowercaseIs(word[iIndex - 1], 'g'); LowercaseChar(word[iIndex - 1]) == 'g')
  }

  /** The "qu" rule applies: the last vowel is `u` right after a `q`, ignoring case. */
  predicate QuApplies(word: string)
    ensures QuApplies(word) ==> !GiApplies(word)
  {
    var lastVowelIndex := LastVowelIndex(word);
    && lastVowelIndex > 0
    && LowercaseChar(word[lastVowelIndex]) == 'u'
    && LowercaseChar(word[lastVowelIndex - 1]) == 'q'
  }

  /** The index of the last vowel before the last one, or -1. */
  function PrecedingVowelIndex(word: string): (r: int)
    ensures -1 <= r < LastVowelIndex(word) || r == -1
    ensures r >= 0 ==> IsVowel(word[r])
    ensures forall j :: r < j < LastVowelIndex(word) ==> !IsVowel(word[j])
  {
    var lastVowelIndex := LastVowelIndex(word);
    if lastVowelIndex > 0 then IndexOfLast(word[..lastVowelIndex], IsVowel) else -1
  }

  /**
    The diphthong rules, tried in order on the last two vowels without tone
    and in lowercase: true when the tone goes on the preceding vowel, false
    when it goes on the last one. `vowelBefore` says whether a vowel stands
    right before the preceding one.
  */
  function ChoosesPrecedingVowel(precedingVowel: char, lastVowel: char, vowelBefore: bool): (r: bool)
    ensures r ==> precedingVowel in "eouaơiư" && lastVowel in "iya"
  {
    if precedingVowel in "eou" && lastVowel in "iy" then true
    else if precedingVowel == 'a' && lastVowel in "iy" then true
    else if precedingVowel == 'ơ' && lastVowel == 'i' then true
    else if precedingVowel == 'u' && lastVowel in "ye" then false
    else if precedingVowel in "iư" && lastVowel == 'a' then true
    else if precedingVowel == 'u' && lastVowel == 'a' && vowelBefore then false
    else if precedingVowel == 'u' && lastVowel == 'a' then true
    else false
  }

  /**
    The tone-placement heuristic: the index of the vowel that takes the
    tone, or -1. The result is always a vowel letter (so it carries no tone)
    and never lies after the last vowel.
  */
  function GetVowelIndex(word: string): (r: int)
    ensures r == -1 || (0 <= r < |word| && IsVowel(word[r]))
    ensures r <= LastVowelIndex(word)
    ensures LastVowelIndex(word) == -1 ==> r == -1
  {
    var lastVowelIndex := LastVowelIndex(word);
    if lastVowelIndex == -1 then -1
    else if GiApplies(word) then
      var iIndex := IndexOfLast(word, IsLetterI);
      LastLetterIIsLastVowel(word, lastVowelIndex);
      IndexOfLast(word[..iIndex], IsVowel)
    else if QuApplies(word) then
      IndexOfLast(word[..lastVowelIndex], IsVowel)
    else
      var precedingVowelIndex := PrecedingVowelIndex(word);
      if precedingVowelIndex != -1 then
        var lastVowel := LowercaseChar(RemoveTone(word[lastVowelIndex]));
        var precedingVowel := LowercaseChar(RemoveTone(word[precedingVowelIndex]));
        var vowelBefore := precedingVowelIndex > 0 && IsVowel(word[precedingVowelIndex - 1]);
        if ChoosesPrecedingVowel(precedingVowel, lastVowel, vowelBefore) then precedingVowelIndex else lastVowelIndex
      else lastVowelIndex
  }

  /** `isVowel` holds for exactly the 24 listed letters, the twelve vowels without tone and their capitals. */
  lemma VowelsAreTheListedLetters(c: char)
    ensures IsVowel(c) <==> c in {'a', 'ă', 'â', 'e', 'ê', 'i', 'o', 'ô', 'ơ', 'u', 'ư', 'y', 'A', 'Ă', 'Â', 'E', 'Ê', 'I', 'O', 'Ô', 'Ơ', 'U', 'Ư', 'Y'}
  {
  }

  /** The twelve vowels without tone are lowercase vowel letters whose capitals are vowel letters too. */
  lemma VowelsWithoutToneAreLowercaseVowels(i: int)
    requires 0 <= i < |VowelsWithoutTone|
    ensures IsVowel(VowelsWithoutTone[i]) && IsLowerCase(VowelsWithoutTone[i]) && IsVowel(UppercaseChar(VowelsWithoutTone[i]))
  {
  }

  /** The letters the shape rules produce from vowels (â ê ô ă ơ ư) are vowel letters, and `removeTone` leaves them alone. */
  lemma ShapeTargetsAreVowels()
    ensures forall i :: 0 <= i < |DoubleTapMap| ==> IsVowel(DoubleTapMap[i].1) && RemoveTone(DoubleTapMap[i].1) == DoubleTapMap[i].1
    ensures forall i :: 0 <= i < |WModifierMap| ==> IsVowel(WModifierMap[i].1) && RemoveTone(WModifierMap[i].1) == WModifierMap[i].1
  {
  }

  /** The "gi" rule puts the tone on the last vowel before the final `i`. */
  lemma GiRule(word: string)
    requires GiApplies(word)
    ensures GetVowelIndex(word) == IndexOfLast(word[..LastVowelIndex(word)], IsVowel)
  {
    LastLetterIIsLastVowel(word, LastVowelIndex(word));
  }

  /** The "qu" rule: the `u` after `q` is not a vowel, so the tone goes to the last vowel before it (-1 if none). */
  lemma QuRule(word: string)
    requires QuApplies(word)
    ensures !GiApplies(word)
    ensures GetVowelIndex(word) == IndexOfLast(word[..LastVowelIndex(word)], IsVowel)
  {
  }

  /**
    The vowel pairs (before the last, last) that take the tone on the first
    vowel, with their case and tone removed; `ua` does so only when no vowel
    stands right before the `u`. Every other pair takes it on the last vowel.
  */
  predicate ToneOnFirstVowel(preceding: char, last: char, vowelBeforePreceding: bool) {
    || (preceding, last) in [('e', 'i'), ('e', 'y'), ('o', 'i'), ('o', 'y'), ('u', 'i'), ('u', 'y')]
    || (preceding, last) in [('a', 'i'), ('a', 'y'), ('ơ', 'i'), ('i', 'a'), ('ư', 'a')]
    || ((preceding, last) == ('u', 'a') && !vowelBeforePreceding)
  }

  /** The ordered diphthong rules agree with the pair table; in particular `uy` takes the tone on the `u`. */
  lemma PairTable(precedingVowel: char, lastVowel: char, vowelBefore: bool)
    ensures ChoosesPrecedingVowel(precedingVowel, lastVowel, vowelBefore) <==> ToneOnFirstVowel(precedingVowel, lastVowel, vowelBefore)
  {
  }

  /** Outside the gi and qu rules, a word with two or more vowels takes the tone as the pair table says. */
  lemma DiphthongRule(word: string)
    requires !GiApplies(word) && !QuApplies(word)
    requires PrecedingVowelIndex(word) != -1
    ensures var p, l := PrecedingVowelIndex(word), LastVowelIndex(word);
      var precedingVowel, lastVowel := LowercaseChar(RemoveTone(word[p])), LowercaseChar(RemoveTone(word[l]));
      GetVowelIndex(word) == if ToneOnFirstVowel(precedingVowel, lastVowel, p > 0 && IsVowel(word[p - 1])) then p else l
  {
    var p, l := PrecedingVowelIndex(word), LastVowelIndex(word);
    PairTable(LowercaseChar(RemoveTone(word[p])), LowercaseChar(RemoveTone(word[l])), p > 0 && IsVowel(word[p - 1]));
  }

  /** A word with exactly one vowel, outside the gi and qu rules, takes the tone on that vowel. */
  lemma SingleVowelRule(word: string)
    requires !GiApplies(word) && !QuApplies(word)
    requires PrecedingVowelIndex(word) == -1
    ensures GetVowelIndex(word) == LastVowelIndex(word)
  {
  }
}
