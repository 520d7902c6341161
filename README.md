# Telex engine of HeliBoard's Vietnamese input, in Dafny

HeliBoard's Vietnamese keyboard turns Telex keystrokes into Vietnamese letters. The engine is one function, `process(currentWord, newKey)`. It returns the rewritten word, or `null` when the key is simply appended. Four rule families are tried in order:

- **Tone keys.** `s f r x j` put the acute, grave, hook, tilde or dot tone on the vowel chosen by a tone-placement heuristic. The heuristic handles `gi`, `qu` and the diphthong rules.
- **The `z` key.** It strips the tone of the last toned letter.
- **Undo rules.** A shaped last letter (`ươ`, `ă ơ ư`, `đ`, `â ê ô`) typed again with its key goes back to the plain keys.
- **Forward shape rules.** `uo`+`w` gives `ươ`, `dd` gives `đ`, `aa ee oo` give `â ê ô`, and `a o u`+`w` give `ă ơ ư`.

The project models this engine, its constant tables, the character helpers it relies on, and the tests' `typeWord` helper. It proves what each rule does, on all inputs.

Modules, in dependency order:

- `Wrappers` — `Option`, standing for Kotlin's nullable results.
- `Casing` — Kotlin's `lowercaseChar`, `uppercaseChar`, `isUpperCase` and case-insensitive comparison, for ASCII and Vietnamese letters; their round trips.
- `TelexRules` — the tone marks and the tables `TONE_MARKERS`, `DOUBLE_TAP_MAP` and `W_MODIFIER_MAP`, as ordered entry lists; lookups by key and by value; facts about the tables.
- `VietnameseUtils` — vowels, `removeTone` over the 120-entry tone table, `addTone` as a composition table, and the tone-placement heuristic `getVowelIndex` with its rules as lemmas.
- `TelexProcessor` — `process` and its parts; the `z` search loop as a method proved against a function; the unused `REVERSE_DIACRITIC_MAP`.
- `TelexProcessorLemmas` — one lemma per rule of `process`, tone-then-revert, and the reverse map's contents.
- `TelexTyping` — the tests' `typeWord` as a fold over the keys and as the loop itself.
- `TelexExamples` — the tests' words, typed key by key.

Kotlin strings are sequences of UTF-16 code units. Every character the engine handles lies in the Basic Multilingual Plane, so a Dafny `string` (a `seq<char>`) models them one to one.

The has-tone branch of the tone rule (`TelexProcessor.kt:29-38`) is dead code. `getVowelIndex` only ever returns the index of a vowel letter without tone (`ChosenVowelHasNoTone`). The branch is kept, as written, in `ApplyTone`. As a result:

- a tone key typed on a word whose vowels all carry a tone is appended rather than replacing a tone (`ToneKeyOnTonedWord`, `TonedWordExamples`);
- on a word with a toned and an untoned vowel, the tone goes on the untoned one: "hoá" and `f` give "hòá" (`PartlyTonedWord`);
- "mass" gives "más".

## Model

| member | source | states |
|---|---|---|
| Casing.LowercaseChar | app/src/main/java/helium314/keyboard/latin/vietnamese/TelexProcessor.kt:18 | an uppercase letter becomes a lowercase letter different from it; every other character is unchanged |
| Casing.UppercaseChar | app/src/main/java/helium314/keyboard/latin/vietnamese/TelexProcessor.kt:105 | a lowercase letter becomes an uppercase letter different from it; every other character is unchanged |
| Casing.IsUpperCase | app/src/main/java/helium314/keyboard/latin/vietnamese/TelexProcessor.kt:72 | no character is both uppercase and lowercase |
| Casing.LowerUpperRoundTrip | app/src/main/java/helium314/keyboard/latin/vietnamese/TelexProcessor.kt:111 | lowercasing the capital of a lowercase letter gives the letter back |
| Casing.UpperLowerRoundTrip | app/src/main/java/helium314/keyboard/latin/vietnamese/TelexProcessor.kt:67 | uppercasing the lowercase form of a capital gives the capital back |
| Casing.LowercaseIs | app/src/main/java/helium314/keyboard/latin/vietnamese/VietnameseUtils.kt:60 | the characters whose `lowercaseChar` is a given lowercase letter are exactly that letter and its capital |
| Casing.EqualsIgnoreCaseLower | app/src/main/java/helium314/keyboard/latin/vietnamese/TelexProcessor.kt:71 | a character equals a lowercase letter ignoring case exactly when it is the letter or its capital |
| Casing.EqualsIgnoreCase | app/src/main/java/helium314/keyboard/latin/vietnamese/TelexProcessor.kt:71 | Kotlin's rule for `endsWith(..., ignoreCase = true)`: equal, equal after `uppercaseChar`, or equal after `uppercaseChar` and then `lowercaseChar` (a definition; its meaning is stated by the next row) |
| Casing.EqualsIgnoreCaseFolds | app/src/main/java/helium314/keyboard/latin/vietnamese/TelexProcessor.kt:71 | two characters are equal ignoring case exactly when their folded forms (uppercased, then lowercased) are |
| Casing.EndsWithIgnoreCase | app/src/main/java/helium314/keyboard/latin/vietnamese/TelexProcessor.kt:99 | each character of the suffix equals, ignoring case, the character at the same place from the end (a definition) |
| Casing.EndsWithIsContains | app/src/main/java/helium314/keyboard/latin/vietnamese/TelexProcessor.kt:71 | a suffix matched ignoring case is an occurrence ignoring case |
| Casing.ContainsIgnoreCase | app/src/main/java/helium314/keyboard/latin/vietnamese/VietnameseUtils.kt:55 | some position where every character of the substring matches ignoring case (a definition) |
| Casing.ContainsIgnoreCaseBounds | app/src/main/java/helium314/keyboard/latin/vietnamese/VietnameseUtils.kt:55 | the empty string is always contained, and a contained string is never longer than the word |
| Casing.ContainsCharIgnoreCase | app/src/main/java/helium314/keyboard/latin/vietnamese/VietnameseUtils.kt:56 | some character of the word equals the letter ignoring case (a definition) |
| Casing.ContainsCharIsContains | app/src/main/java/helium314/keyboard/latin/vietnamese/VietnameseUtils.kt:56 | containing a character ignoring case is containing the one-character string |
| TelexRules.Get | app/src/main/java/helium314/keyboard/latin/vietnamese/TelexProcessor.kt:109-110 | `containsKey` holds exactly when some entry has the key, and `getValue` returns the value of such an entry |
| TelexRules.FindKey | app/src/main/java/helium314/keyboard/latin/vietnamese/TelexProcessor.kt:76 | `entries.find { it.value == v }?.key` is non-null exactly when some entry has the value, and returns the key of such an entry |
| TelexRules.ToneMarkersLookup | app/src/main/java/helium314/keyboard/latin/vietnamese/TelexRules.kt:13-19 | the tone keys are exactly s, f, r, x, j, mapping to acute, grave, hook, tilde and dot respectively and to nothing else |
| TelexRules.ToneMarksDistinct | app/src/main/java/helium314/keyboard/latin/vietnamese/TelexRules.kt:7-11 | the five marks are distinct and are exactly the values of the tone table |
| TelexRules.ToneRevertIsNotToneKey | app/src/main/java/helium314/keyboard/latin/vietnamese/TelexRules.kt:22 | `z` is lowercase and not a tone key, so the revert rule can be reached |
| TelexRules.ToneKeysAreNotShapeKeys | app/src/main/java/helium314/keyboard/latin/vietnamese/TelexRules.kt:13-41 | no tone key and not `z` is a key of the double-tap or `w` tables, nor `w`, nor `d` |
| TelexRules.ModifierTablesInjective | app/src/main/java/helium314/keyboard/latin/vietnamese/TelexRules.kt:25-41 | both shape tables are injective, their values are disjoint, and đ is none of them |
| TelexRules.ModifierTablesLowercase | app/src/main/java/helium314/keyboard/latin/vietnamese/TelexRules.kt:25-41 | every key and value of the shape tables, and d and đ, are lowercase letters |
| TelexRules.DoubleTapLookup | app/src/main/java/helium314/keyboard/latin/vietnamese/TelexRules.kt:25-29 | lookup by key and by value in `DOUBLE_TAP_MAP` is exactly a→â, e→ê, o→ô |
| TelexRules.WModifierLookup | app/src/main/java/helium314/keyboard/latin/vietnamese/TelexRules.kt:37-41 | lookup by key and by value in `W_MODIFIER_MAP` is exactly a→ă, o→ơ, u→ư |
| VietnameseUtils.ToneRow | app/src/main/java/helium314/keyboard/latin/vietnamese/VietnameseUtils.kt:40-43 | the composition table has a row of five toned letters exactly for the 24 vowel letters |
| VietnameseUtils.IsVowel | app/src/main/java/helium314/keyboard/latin/vietnamese/VietnameseUtils.kt:36-38 | membership in `VOWELS` (a definition; its exact contents are stated by `VowelsAreTheListedLetters`) |
| VietnameseUtils.ToneColumn | app/src/main/java/helium314/keyboard/latin/vietnamese/TelexRules.kt:7-11 | each of the five tone marks has a column below 5 of the composition table, holding exactly that mark |
| VietnameseUtils.RowCellsDistinct | app/src/main/java/helium314/keyboard/latin/vietnamese/VietnameseUtils.kt:40-43 | the five toned forms of a vowel are distinct letters of Latin-1 through Latin Extended Additional |
| VietnameseUtils.BlockBase | app/src/main/java/helium314/keyboard/latin/vietnamese/VietnameseUtils.kt:10-33 | every Latin Extended Additional letter the table lists goes to a vowel letter without tone |
| VietnameseUtils.BaseOf | app/src/main/java/helium314/keyboard/latin/vietnamese/VietnameseUtils.kt:9-34 | every value of `CHAR_TO_BASE_CHAR` is a vowel letter, and no vowel letter is a key |
| VietnameseUtils.BlockKeysAreComposed | app/src/main/java/helium314/keyboard/latin/vietnamese/VietnameseUtils.kt:10-33 | each of the 90 table keys in Latin Extended Additional is a toned form of its value |
| VietnameseUtils.KeysAreComposed | app/src/main/java/helium314/keyboard/latin/vietnamese/VietnameseUtils.kt:9-34 | every key of `CHAR_TO_BASE_CHAR` is a toned form of its value |
| VietnameseUtils.AsciiRowCellsAreKeys | app/src/main/java/helium314/keyboard/latin/vietnamese/VietnameseUtils.kt:9-34 | every toned form of a, e, i, o, u, y and their capitals is a key whose value is that vowel |
| VietnameseUtils.MarkedRowCellsAreKeys | app/src/main/java/helium314/keyboard/latin/vietnamese/VietnameseUtils.kt:9-34 | every toned form of ă, â, ê, ô, ơ, ư and their capitals is a key whose value is that vowel |
| VietnameseUtils.CellsAreKeys | app/src/main/java/helium314/keyboard/latin/vietnamese/VietnameseUtils.kt:9-34 | every toned form of every vowel is a key of the table whose value is that vowel (the table covers the whole composition table) |
| VietnameseUtils.CharToBaseChar | app/src/main/java/helium314/keyboard/latin/vietnamese/VietnameseUtils.kt:9-34 | a key is never a vowel letter and its value always is; a vowel letter is not a key |
| VietnameseUtils.RemoveTone | app/src/main/java/helium314/keyboard/latin/vietnamese/VietnameseUtils.kt:45-47 | a character changes exactly when it is a key of the table, and then becomes a vowel letter; vowel letters are unchanged |
| VietnameseUtils.RemoveToneIdempotent | app/src/main/java/helium314/keyboard/latin/vietnamese/VietnameseUtils.kt:45-47 | removing the tone twice is removing it once |
| VietnameseUtils.AddTone | app/src/main/java/helium314/keyboard/latin/vietnamese/VietnameseUtils.kt:40-43 | a vowel with a tone mark becomes a different, non-vowel character whose `removeTone` is the vowel again |
| VietnameseUtils.AddToneInjective | app/src/main/java/helium314/keyboard/latin/vietnamese/VietnameseUtils.kt:40-43 | two tones on one vowel give the same character exactly when they are the same tone |
| VietnameseUtils.TableIsComposition | app/src/main/java/helium314/keyboard/latin/vietnamese/VietnameseUtils.kt:9-43 | every key of `CHAR_TO_BASE_CHAR` is `addTone` of its value with one of the five marks |
| VietnameseUtils.IndexOfLast | app/src/main/java/helium314/keyboard/latin/vietnamese/VietnameseUtils.kt:51 | `indexOfLast` returns -1 or an index satisfying the predicate, with no later index satisfying it |
| VietnameseUtils.Count | app/src/main/java/helium314/keyboard/latin/vietnamese/VietnameseUtils.kt:56 | `count` returns at most the length of the string; what its value means is stated by `CountPositive` and `CountAtLeastTwo` |
| VietnameseUtils.CountContained | app/src/main/java/helium314/keyboard/latin/vietnamese/VietnameseUtils.kt:56 | at most as many letters are counted as `VOWELS_WITHOUT_TONE` has; the gi rule's `> 1` test is characterised by `CountContainedAtLeastTwo` |
| VietnameseUtils.CountPositive | app/src/main/java/helium314/keyboard/latin/vietnamese/VietnameseUtils.kt:56 | a count is positive exactly when some character satisfies the predicate |
| VietnameseUtils.CountAtLeastTwo | app/src/main/java/helium314/keyboard/latin/vietnamese/VietnameseUtils.kt:56 | a count is more than one exactly when two different positions satisfy the predicate |
| VietnameseUtils.CountContainedAtLeastTwo | app/src/main/java/helium314/keyboard/latin/vietnamese/VietnameseUtils.kt:56 | `VOWELS_WITHOUT_TONE.count { word.contains(it, ignoreCase = true) } > 1` holds exactly when two different letters of `VOWELS_WITHOUT_TONE` each occur in the word, ignoring case |
| VietnameseUtils.LastVowelIndex | app/src/main/java/helium314/keyboard/latin/vietnamese/VietnameseUtils.kt:51 | the index of a vowel letter with no vowel letter after it, or -1 |
| VietnameseUtils.GiCondition | app/src/main/java/helium314/keyboard/latin/vietnamese/VietnameseUtils.kt:55-57 | the three `gi` conditions need a word of at least two characters whose last vowel, when it carries no tone, is `i` or `I` |
| VietnameseUtils.LastLetterIIsLastVowel | app/src/main/java/helium314/keyboard/latin/vietnamese/VietnameseUtils.kt:57-59 | when the last vowel is `i`, `lastIndexOf('i', ignoreCase = true)` finds that same vowel |
| VietnameseUtils.GiApplies | app/src/main/java/helium314/keyboard/latin/vietnamese/VietnameseUtils.kt:55-60 | when the `gi` rule applies, the last vowel is `i` or `I` and comes right after `g` or `G` |
| VietnameseUtils.QuApplies | app/src/main/java/helium314/keyboard/latin/vietnamese/VietnameseUtils.kt:66 | the `qu` and `gi` rules never both apply |
| VietnameseUtils.PrecedingVowelIndex | app/src/main/java/helium314/keyboard/latin/vietnamese/VietnameseUtils.kt:71 | the last vowel before the last vowel, with no vowel between them, or -1 |
| VietnameseUtils.ChoosesPrecedingVowel | app/src/main/java/helium314/keyboard/latin/vietnamese/VietnameseUtils.kt:76-84 | the first vowel is chosen only when it is e, o, u, a, ơ, i or ư and the last one is i, y or a (`PairTable` names the exact pairs) |
| VietnameseUtils.GetVowelIndex | app/src/main/java/helium314/keyboard/latin/vietnamese/VietnameseUtils.kt:50-88 | the chosen index is -1 or a vowel letter (never a toned one) at or before the last vowel; it is -1 whenever the word has no vowel letter, and may also be -1 when the `qu` rule finds no vowel before the `u` (`QuWithoutVowel`) |
| VietnameseUtils.VowelsAreTheListedLetters | app/src/main/java/helium314/keyboard/latin/vietnamese/VietnameseUtils.kt:7 | `isVowel` holds for exactly the 24 letters of `VOWELS` |
| VietnameseUtils.VowelsWithoutToneAreLowercaseVowels | app/src/main/java/helium314/keyboard/latin/vietnamese/VietnameseUtils.kt:8 | each of the 12 letters of `VOWELS_WITHOUT_TONE` is a lowercase vowel letter whose capital is a vowel letter |
| VietnameseUtils.GiRule | app/src/main/java/helium314/keyboard/latin/vietnamese/VietnameseUtils.kt:55-63 | when the `gi` conditions hold, the tone goes on the last vowel before the final `i` |
| VietnameseUtils.QuRule | app/src/main/java/helium314/keyboard/latin/vietnamese/VietnameseUtils.kt:66-68 | when the last vowel is `u` after `q`, the `gi` rule does not apply and the tone goes on the last vowel before the `u` |
| VietnameseUtils.PairTable | app/src/main/java/helium314/keyboard/latin/vietnamese/VietnameseUtils.kt:75-84 | the ordered diphthong tests choose the first vowel exactly for ei ey oi oy ui uy ai ay ơi ia ưa, and for ua without a vowel before the u |
| VietnameseUtils.DiphthongRule | app/src/main/java/helium314/keyboard/latin/vietnamese/VietnameseUtils.kt:71-87 | outside `gi`/`qu`, with two or more vowels, the tone goes on the first of the last two vowels exactly when the pair table says so, else on the last |
| VietnameseUtils.SingleVowelRule | app/src/main/java/helium314/keyboard/latin/vietnamese/VietnameseUtils.kt:71-87 | outside `gi`/`qu`, a word with one vowel takes the tone on it |
| VietnameseUtils.ShapeTargetsAreVowels | app/src/main/java/helium314/keyboard/latin/vietnamese/TelexRules.kt:25-41 | the targets â ê ô ă ơ ư of the shape tables are vowel letters fixed by `removeTone` |
| TelexProcessor.ReplaceAt | app/src/main/java/helium314/keyboard/latin/vietnamese/TelexProcessor.kt:32 | `replaceRange(i, i + 1, c)` keeps the length, puts `c` at `i`, and changes nothing else |
| TelexProcessor.HasTone | app/src/main/java/helium314/keyboard/latin/vietnamese/TelexProcessor.kt:29 | a character has a tone exactly when it is a key of `CHAR_TO_BASE_CHAR`, and then it is not a vowel letter |
| TelexProcessor.ApplyTone | app/src/main/java/helium314/keyboard/latin/vietnamese/TelexProcessor.kt:26-42 | the vowel keeps its base letter and every other character is kept; the vowel ends up with the key's tone and the length is kept, unless it already had that tone, in which case it loses it and the key follows the word |
| TelexProcessor.LastTonedIndex | app/src/main/java/helium314/keyboard/latin/vietnamese/TelexProcessor.kt:49-56 | the index of a toned character with no toned character after it, or -1 |
| TelexProcessor.Revert | app/src/main/java/helium314/keyboard/latin/vietnamese/TelexProcessor.kt:46-62 | the `z` rule gives nothing exactly when no character of the word has a tone |
| TelexProcessor.FindTonedVowel | app/src/main/java/helium314/keyboard/latin/vietnamese/TelexProcessor.kt:47-56 | the reversed loop with early exit finds the last toned character (or -1) and that character |
| TelexProcessor.RevertTone | app/src/main/java/helium314/keyboard/latin/vietnamese/TelexProcessor.kt:46-60 | the `z` branch as written computes the `z` rule |
| TelexProcessor.CasedLike | app/src/main/java/helium314/keyboard/latin/vietnamese/TelexProcessor.kt:79 | a lowercase letter keeps its lowercase form and becomes uppercase exactly when the last letter is |
| TelexProcessor.CasedLikeBoth | app/src/main/java/helium314/keyboard/latin/vietnamese/TelexProcessor.kt:92 | a lowercase letter keeps its lowercase form and becomes uppercase exactly when both the last letter and the key are |
| TelexProcessor.UndoRules | app/src/main/java/helium314/keyboard/latin/vietnamese/TelexProcessor.kt:69-94 | an undo adds one character and keeps all but the last one (or two, for `ươ`) characters |
| TelexProcessor.ForwardRules | app/src/main/java/helium314/keyboard/latin/vietnamese/TelexProcessor.kt:97-121 | a forward rule keeps the length and all but the last one (or two, for `uo`) characters |
| TelexProcessor.ShapeRules | app/src/main/java/helium314/keyboard/latin/vietnamese/TelexProcessor.kt:64-121 | an empty word is left alone; a result keeps the length or adds one character |
| TelexProcessor.Process | app/src/main/java/helium314/keyboard/latin/vietnamese/TelexProcessor.kt:17-122 | an empty word is never rewritten; a rewrite keeps the length or adds one character |
| TelexProcessor.Inverse | app/src/main/java/helium314/keyboard/latin/vietnamese/TelexProcessor.kt:10-11 | `entries.associate { (k, v) -> v to k }` has exactly the table's values as keys |
| TelexProcessor.ReverseDiacriticMap | app/src/main/java/helium314/keyboard/latin/vietnamese/TelexProcessor.kt:10-13 | the reverse map has đ and Đ as keys |
| TelexProcessorLemmas.ToneKeyRule | app/src/main/java/helium314/keyboard/latin/vietnamese/TelexProcessor.kt:21-43 | a tone key gives `null` exactly when no vowel is chosen; otherwise only the chosen vowel changes and it takes the key's tone |
| TelexProcessorLemmas.ChosenVowelHasNoTone | app/src/main/java/helium314/keyboard/latin/vietnamese/TelexProcessor.kt:29-38 | the chosen vowel never carries a tone, so the has-tone branch is dead |
| TelexProcessorLemmas.ApplyToneToggle | app/src/main/java/helium314/keyboard/latin/vietnamese/TelexProcessor.kt:29-41 | the same tone twice on an untoned vowel gives the word back with the tone key typed after it |
| TelexProcessorLemmas.ApplyToneOverwrite | app/src/main/java/helium314/keyboard/latin/vietnamese/TelexProcessor.kt:34-41 | a second, different tone on a vowel replaces the first, as if only the second had been typed |
| TelexProcessorLemmas.ToneKeyOnTonedWord | app/src/main/java/helium314/keyboard/latin/vietnamese/TelexProcessor.kt:23-24 | a tone key on a word without a vowel letter gives `null` |
| TelexProcessorLemmas.TonedWordExamples | app/src/test/java/helium314/keyboard/latin/vietnamese/TelexProcessorTest.kt:99-101 | `process("má", 's')` and `process("má", 'f')` are `null`, where the test expects "mà" |
| TelexProcessorLemmas.RevertKeyIsNoShapeKey | app/src/main/java/helium314/keyboard/latin/vietnamese/TelexProcessor.kt:64-121 | no shape rule fires on `z` |
| TelexProcessorLemmas.RevertRule | app/src/main/java/helium314/keyboard/latin/vietnamese/TelexProcessor.kt:46-62 | `z` or `Z` strips the tone of the last toned character and changes nothing else, or gives `null` on a word without tone |
| TelexProcessorLemmas.StripSingleTone | app/src/main/java/helium314/keyboard/latin/vietnamese/TelexProcessor.kt:57-59 | a word that differs from an untoned word only by a tone at one position has its last tone there, and stripping it gives the word back |
| TelexProcessorLemmas.ToneThenRevert | app/src/main/java/helium314/keyboard/latin/vietnamese/TelexProcessor.kt:21-62 | on a word without tone, a tone key that applies followed by `z` gives the word back |
| TelexProcessorLemmas.EmptyWordRule | app/src/main/java/helium314/keyboard/latin/vietnamese/TelexProcessor.kt:64 | every key on an empty word gives `null` |
| TelexProcessorLemmas.OtherKeysAreAppended | app/src/main/java/helium314/keyboard/latin/vietnamese/TelexProcessor.kt:121 | a key other than s f r x j z a e o w d (any case) gives `null` |
| TelexProcessorLemmas.ShapeKeyReachesShapeRules | app/src/main/java/helium314/keyboard/latin/vietnamese/TelexProcessor.kt:21-64 | keys a, e, o, w, d skip the tone and `z` rules and reach the shape rules |
| TelexProcessorLemmas.NoShapeRuleMatches | app/src/main/java/helium314/keyboard/latin/vietnamese/TelexProcessor.kt:69-121 | no undo or forward rule fires when the last letter does not pair with the key (for `w`: not a, o, u, ă, ơ, ư; otherwise not the key itself among a, e, o, d, nor the shaped letter that key undoes) |
| TelexProcessorLemmas.UndoHornPair | app/src/main/java/helium314/keyboard/latin/vietnamese/TelexProcessor.kt:71-74 | an ending `ươ` and `w` give `uo`+`w`, with `U` when the `ư` is a capital |
| TelexProcessorLemmas.UndoBreveOrHorn | app/src/main/java/helium314/keyboard/latin/vietnamese/TelexProcessor.kt:76-81 | ă, ơ, ư and `w` give the plain letter cased like the shaped one, then `w` |
| TelexProcessorLemmas.UndoStroke | app/src/main/java/helium314/keyboard/latin/vietnamese/TelexProcessor.kt:83-87 | đ and `d` give `dd`, or `DD` after Đ |
| TelexProcessorLemmas.UndoCircumflex | app/src/main/java/helium314/keyboard/latin/vietnamese/TelexProcessor.kt:89-94 | â, ê, ô and their key give the key twice, in capitals only when both letter and key are |
| TelexProcessorLemmas.ForwardHornPair | app/src/main/java/helium314/keyboard/latin/vietnamese/TelexProcessor.kt:99-102 | an ending `uo` and `w` give `ươ`, `Ươ` or `ƯƠ` as the `u` or both letters are capitals |
| TelexProcessorLemmas.ForwardStroke | app/src/main/java/helium314/keyboard/latin/vietnamese/TelexProcessor.kt:104-107 | `d` and `d` give đ, or Đ when both are capitals |
| TelexProcessorLemmas.ForwardCircumflex | app/src/main/java/helium314/keyboard/latin/vietnamese/TelexProcessor.kt:109-113 | a, e, o typed twice give â, ê, ô, a capital only when both keys are |
| TelexProcessorLemmas.ForwardBreveOrHorn | app/src/main/java/helium314/keyboard/latin/vietnamese/TelexProcessor.kt:115-119 | a, o, u and `w` give ă, ơ, ư cased like the letter |
| TelexProcessorLemmas.InverseOfDistinct | app/src/main/java/helium314/keyboard/latin/vietnamese/TelexProcessor.kt:10-11 | when no two entries share a value, every value is a key of the inverse, goes back to its own key, and the inverse has one entry per entry |
| TelexProcessorLemmas.InverseOfConcat | app/src/main/java/helium314/keyboard/latin/vietnamese/TelexProcessor.kt:10-11 | inverting two tables and merging them (`+`) is inverting their concatenation |
| TelexProcessorLemmas.InverseOfPair | app/src/main/java/helium314/keyboard/latin/vietnamese/TelexProcessor.kt:12-13 | the two `.plus` pairs add the inverse of the two đ entries |
| TelexProcessorLemmas.ReverseDiacriticMapIsInverse | app/src/main/java/helium314/keyboard/latin/vietnamese/TelexProcessor.kt:10-13 | the reverse map is the inverse of the eight shape entries in order |
| TelexProcessorLemmas.ShapeEntriesDistinct | app/src/main/java/helium314/keyboard/latin/vietnamese/TelexRules.kt:25-41 | the eight shaped letters â ê ô ă ơ ư đ Đ are distinct |
| TelexProcessorLemmas.ReverseDiacriticMapEntries | app/src/main/java/helium314/keyboard/latin/vietnamese/TelexProcessor.kt:10-13 | the reverse map has exactly eight entries, each sending a shaped letter back to its key |
| TelexTyping.Step | app/src/test/java/helium314/keyboard/latin/vietnamese/TelexProcessorTest.kt:12-13 | one keystroke keeps or lengthens the word by at most one character, and appends the key when `process` gives `null` |
| TelexTyping.TypeWord | app/src/test/java/helium314/keyboard/latin/vietnamese/TelexProcessorTest.kt:9-16 | the typed word is never longer than the keys and is nonempty when a key was typed |
| TelexTyping.TypeKeys | app/src/test/java/helium314/keyboard/latin/vietnamese/TelexProcessorTest.kt:9-16 | the typing loop computes the fold of `process` over the keys |
| TelexTyping.TypeWordSnoc | app/src/test/java/helium314/keyboard/latin/vietnamese/TelexProcessorTest.kt:11-14 | typing one more key is one more step |
| TelexTyping.FirstKey | app/src/test/java/helium314/keyboard/latin/vietnamese/TelexProcessorTest.kt:11-14 | the first key is always kept as typed |
| TelexExamples.QuWithoutVowel | app/src/main/java/helium314/keyboard/latin/vietnamese/VietnameseUtils.kt:66-67 | in "qu" no vowel takes the tone: the qu rule finds no vowel before the `u` |
| TelexExamples.PartlyTonedWord | app/src/main/java/helium314/keyboard/latin/vietnamese/TelexProcessor.kt:39-41 | `process("hoá", 'f')` is "hòá": the toned á is skipped and the untoned o takes the tone |
| TelexExamples.RevertMa | app/src/test/java/helium314/keyboard/latin/vietnamese/TelexProcessorTest.kt:106-108 | `process("má", 'z')` is "ma" |
| TelexExamples.TypeAa | app/src/test/java/helium314/keyboard/latin/vietnamese/TelexProcessorTest.kt:21 | typing `aa` gives "â" |
| TelexExamples.TypeAaa | app/src/test/java/helium314/keyboard/latin/vietnamese/TelexProcessorTest.kt:22 | typing `aaa` gives "aa" |
| TelexExamples.TypeAaaa | app/src/test/java/helium314/keyboard/latin/vietnamese/TelexProcessorTest.kt:23 | typing `aaaa` gives "aâ", where this assertion expects "aaa" |
| TelexExamples.TypeEe | app/src/test/java/helium314/keyboard/latin/vietnamese/TelexProcessorTest.kt:29 | typing `ee` gives "ê" |
| TelexExamples.TypeEee | app/src/test/java/helium314/keyboard/latin/vietnamese/TelexProcessorTest.kt:30 | typing `eee` gives "ee" |
| TelexExamples.TypeOo | app/src/test/java/helium314/keyboard/latin/vietnamese/TelexProcessorTest.kt:37 | typing `oo` gives "ô" |
| TelexExamples.TypeOoo | app/src/test/java/helium314/keyboard/latin/vietnamese/TelexProcessorTest.kt:38 | typing `ooo` gives "oo" |
| TelexExamples.TypeDd | app/src/test/java/helium314/keyboard/latin/vietnamese/TelexProcessorTest.kt:45 | typing `dd` gives "đ" |
| TelexExamples.TypeDdd | app/src/test/java/helium314/keyboard/latin/vietnamese/TelexProcessorTest.kt:46 | typing `ddd` gives "dd" |
| TelexExamples.TypeAw | app/src/test/java/helium314/keyboard/latin/vietnamese/TelexProcessorTest.kt:52 | typing `aw` gives "ă" |
| TelexExamples.TypeAww | app/src/test/java/helium314/keyboard/latin/vietnamese/TelexProcessorTest.kt:53 | typing `aww` gives "aw" |
| TelexExamples.TypeAwww | app/src/test/java/helium314/keyboard/latin/vietnamese/TelexProcessorTest.kt:54 | typing `awww` gives "aww" |
| TelexExamples.TypeOw | app/src/test/java/helium314/keyboard/latin/vietnamese/TelexProcessorTest.kt:59 | typing `ow` gives "ơ" |
| TelexExamples.TypeOww | app/src/test/java/helium314/keyboard/latin/vietnamese/TelexProcessorTest.kt:60 | typing `oww` gives "ow" |
| TelexExamples.TypeOwww | app/src/test/java/helium314/keyboard/latin/vietnamese/TelexProcessorTest.kt:61 | typing `owww` gives "oww" |
| TelexExamples.TypeUw | app/src/test/java/helium314/keyboard/latin/vietnamese/TelexProcessorTest.kt:66 | typing `uw` gives "ư" |
| TelexExamples.TypeUww | app/src/test/java/helium314/keyboard/latin/vietnamese/TelexProcessorTest.kt:67-68 | typing `uww` gives "uw", as line 67 expects and line 68 does not |
| TelexExamples.TypeUow | app/src/test/java/helium314/keyboard/latin/vietnamese/TelexProcessorTest.kt:73 | typing `uow` gives "ươ" |
| TelexExamples.TypeUoww | app/src/test/java/helium314/keyboard/latin/vietnamese/TelexProcessorTest.kt:74 | typing `uoww` gives "uow" |
| TelexExamples.TypeUowww | app/src/test/java/helium314/keyboard/latin/vietnamese/TelexProcessorTest.kt:75 | typing `uowww` gives "uoww" |
| TelexExamples.TypeMas | app/src/test/java/helium314/keyboard/latin/vietnamese/TelexProcessorTest.kt:80 | typing `mas` gives "má" |
| TelexExamples.TypeMass | app/src/test/java/helium314/keyboard/latin/vietnamese/TelexProcessorTest.kt:81 | typing `mass` gives "más", where this assertion expects "mas" |
| TelexExamples.TypeBaf | app/src/test/java/helium314/keyboard/latin/vietnamese/TelexProcessorTest.kt:84 | typing `baf` gives "bà" |
| TelexExamples.TypeCor | app/src/test/java/helium314/keyboard/latin/vietnamese/TelexProcessorTest.kt:87 | typing `cor` gives "cỏ" |
| TelexExamples.TypeMux | app/src/test/java/helium314/keyboard/latin/vietnamese/TelexProcessorTest.kt:90 | typing `mux` gives "mũ" |
| TelexExamples.TypeLaj | app/src/test/java/helium314/keyboard/latin/vietnamese/TelexProcessorTest.kt:93 | typing `laj` gives "lạ" |
| TelexExamples.TypeMaz | app/src/test/java/helium314/keyboard/latin/vietnamese/TelexProcessorTest.kt:111 | typing `maz` gives "maz" |
| TelexExamples.TypeToans | app/src/test/java/helium314/keyboard/latin/vietnamese/TelexProcessorTest.kt:116 | typing `toans` gives "toán" |
| TelexExamples.TypeHoaf | app/src/test/java/helium314/keyboard/latin/vietnamese/TelexProcessorTest.kt:117 | typing `hoaf` gives "hoà" |
| TelexExamples.TypeKhoer | app/src/test/java/helium314/keyboard/latin/vietnamese/TelexProcessorTest.kt:118 | typing `khoer` gives "khoẻ", where this assertion expects "khỏe" |
| TelexExamples.TypeQuas | app/src/test/java/helium314/keyboard/latin/vietnamese/TelexProcessorTest.kt:119 | typing `quas` gives "qúa", where this assertion expects "quá" |
| TelexExamples.TypeGiaf | app/src/test/java/helium314/keyboard/latin/vietnamese/TelexProcessorTest.kt:120 | typing `giaf` gives "gìa", where this assertion expects "già" |
| TelexExamples.TypePass | app/src/test/java/helium314/keyboard/latin/vietnamese/TelexProcessorTest.kt:125 | typing `pass` gives "pás", where this assertion expects "pass" |
| TelexExamples.TypeHello | app/src/test/java/helium314/keyboard/latin/vietnamese/TelexProcessorTest.kt:126 | typing `hello` gives "hello" |
| TelexExamples.TypeWorld | app/src/test/java/helium314/keyboard/latin/vietnamese/TelexProcessorTest.kt:127 | typing `world` gives "wỏld", where this assertion expects "world" |
| TelexExamples.TypeShiftDShiftD | app/src/test/java/helium314/keyboard/latin/vietnamese/TelexProcessorTest.kt:132 | typing `DD` gives "Đ" |
| TelexExamples.TypeShiftDShiftDd | app/src/test/java/helium314/keyboard/latin/vietnamese/TelexProcessorTest.kt:133 | typing `DDd` gives "DD", where this assertion expects "dd" |
| TelexExamples.TypeShiftDd | app/src/test/java/helium314/keyboard/latin/vietnamese/TelexProcessorTest.kt:134 | typing `Dd` gives "đ", where this assertion expects "Dd" |
| TelexExamples.TypeShiftAShiftA | app/src/test/java/helium314/keyboard/latin/vietnamese/TelexProcessorTest.kt:136 | typing `AA` gives "Â" |
| TelexExamples.TypeShiftAShiftAa | app/src/test/java/helium314/keyboard/latin/vietnamese/TelexProcessorTest.kt:137 | typing `AAa` gives "aa" |
| TelexExamples.TypeShiftAShiftW | app/src/test/java/helium314/keyboard/latin/vietnamese/TelexProcessorTest.kt:139 | typing `AW` gives "Ă" |
| TelexExamples.TypeShiftAShiftWw | app/src/test/java/helium314/keyboard/latin/vietnamese/TelexProcessorTest.kt:140 | typing `AWw` gives "Aw", where this assertion expects "aw" |
| TelexExamples.TypeBoo | app/src/test/java/helium314/keyboard/latin/vietnamese/TelexProcessorTest.kt:145 | typing `boo` gives "bô" |
| TelexExamples.TypeBooo | app/src/test/java/helium314/keyboard/latin/vietnamese/TelexProcessorTest.kt:146 | typing `booo` gives "boo" |
| TelexExamples.TypeBoon | app/src/test/java/helium314/keyboard/latin/vietnamese/TelexProcessorTest.kt:147 | typing `boon` gives "bôn", where this assertion expects "boon" |
| TelexExamples.TypeCoo | app/src/test/java/helium314/keyboard/latin/vietnamese/TelexProcessorTest.kt:153 | typing `coo` gives "cô" |
| TelexExamples.TypeCooo | app/src/test/java/helium314/keyboard/latin/vietnamese/TelexProcessorTest.kt:154 | typing `cooo` gives "coo" |
| TelexExamples.TypeCoop | app/src/test/java/helium314/keyboard/latin/vietnamese/TelexProcessorTest.kt:155 | typing `coop` gives "côp", where this assertion expects "coop" |
| TelexExamples.TypeNguyeenx | app/src/test/java/helium314/keyboard/latin/vietnamese/TelexProcessorTest.kt:160 | typing `nguyeenx` gives "nguyễn" |

## Left out

- AddTone: stated only for a vowel letter without tone and one of the five tone marks, which is all the engine passes it. `Normalizer.normalize(..., NFC).first()` on other arguments is not modelled. Each row of `ToneRow` lists the precomposed letters Unicode defines for that vowel with each mark.
- LowercaseChar, UppercaseChar and IsUpperCase know the case of ASCII letters and the Vietnamese letters (with and without tone, and đ/Đ) only. Every other character counts as caseless, whereas Kotlin uses the full Unicode case tables. This reaches the engine in two places, because in Kotlin 'İ' (U+0130) and 'ı' (U+0131) equal 'i' ignoring case. First, `word.contains("gi", ignoreCase = true)` (`VietnameseUtils.kt:55`) also matches "gİ" and "gı": `process("aigİ", 's')` is "aígİ" in Kotlin but "áigİ" in the model. Second, `lastIndexOf('i', ignoreCase = true)` (`VietnameseUtils.kt:59`) can stop at one of them: `process("âgiİ", 's')` is "âgíİ" in Kotlin but "ấgiİ" in the model. For letters the engine otherwise meets (Vietnamese letters and ASCII keys) the two agree.
- `W_MODIFIER` (`TelexRules.kt:36`) is declared but never read; the engine compares with the literal `'w'`, as the model does.
- `REVERSE_DIACRITIC_MAP` is private and never read by `process`. It is modelled (`ReverseDiacriticMap`) with its contents proved, but nothing uses it.
- Kotlin's `object` singletons and `@JvmStatic` have no counterpart: the tables are constants and the operations are functions.
- The keyboard code that calls `process` and applies its result to the text field is not part of this model; neither are JUnit and `assertEquals`.
- Test assertions that contradict the code (listed below) are not stated as written. The example lemmas state what the code computes.

## Where the tests disagree with the code

The engine as written gives a different word from these assertions of `TelexProcessorTest.kt`. The example lemma named in each line proves what the engine gives instead.

- Line 23: `typeWord("aaaa")` gives "aâ", not "aaa" (`TypeAaaa`). Lines 31, 39 and 47 follow the same pattern: the fourth tap starts a new cycle.
- Line 68: the test's own two lines 67 and 68 disagree with each other; `typeWord("uww")` is "uw" (`TypeUww`).
- Lines 81-82: "mass" gives "más" (`TypeMass`). Lines 85, 88, 91 and 94 follow the same pattern: the second tone key finds no vowel without tone and is appended.
- Line 101: `process("má", 'f')` is `null`, not "mà" (`TonedWordExamples`). The toned á is not a vowel to `getVowelIndex`.
- Line 118: "khoer" gives "khoẻ", not "khỏe" (`TypeKhoer`). `oe` is not among the pairs that take the tone on the first vowel.
- Line 119: "quas" gives "qúa", not "quá" (`TypeQuas`). The `qu` rule only applies when `u` is the last vowel, so `ua` falls to the diphthong rule.
- Line 120: "giaf" gives "gìa", not "già" (`TypeGiaf`). The `gi` rule needs the last vowel to be `i`.
- Line 125: "pass" gives "pás" (`TypePass`). Line 127: "world" gives "wỏld" (`TypeWorld`).
- Lines 133, 134, 140: "DDd" gives "DD", "Dd" gives "đ" and "AWw" gives "Aw" (`TypeShiftDShiftDd`, `TypeShiftDd`, `TypeShiftAShiftWw`).
- Lines 147-148: "boon" gives "bôn" (`TypeBoon`). Line 155: "coop" gives "côp" (`TypeCoop`).
