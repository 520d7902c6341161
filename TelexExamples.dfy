/**
  The engine's tests restated: words typed key by key, with what the engine
  makes of each. Where a test expects something else, the lemma states what
  the engine computes.
*/
module TelexExamples {
  import opened Wrappers
  import opened Casing
  import opened TelexRules
  import opened VietnameseUtils
  import opened TelexProcessor
  import opened TelexProcessorLemmas
  import opened TelexTyping

  lemma KeyShiftAShiftA()
    ensures Step("A", 'A') == "Â"
  {
    DoubleTapLookup('a');
    ForwardCircumflex("A", 'A');
  }

  /** `typeWord("AA")` is "Â", as the test expects. */
  lemma TypeShiftAShiftA()
    ensures TypeWord("AA") == "Â"
  {
    FirstKey('A');
    assert "A" + ['A'] == "AA";
    TypeWordSnoc("A", 'A');
    KeyShiftAShiftA();
  }

  lemma KeyShiftAShiftW()
    ensures Step("A", 'W') == "Ă"
  {
    WModifierLookup('a');
    ForwardBreveOrHorn("A", 'W');
  }

  /** `typeWord("AW")` is "Ă", as the test expects. */
  lemma TypeShiftAShiftW()
    ensures TypeWord("AW") == "Ă"
  {
    FirstKey('A');
    assert "A" + ['W'] == "AW";
    TypeWordSnoc("A", 'W');
    KeyShiftAShiftW();
  }

  lemma KeyShiftDShiftD()
    ensures Step("D", 'D') == "Đ"
  {
    ForwardStroke("D", 'D');
  }

  /** `typeWord("DD")` is "Đ", as the test expects. */
  lemma TypeShiftDShiftD()
    ensures TypeWord("DD") == "Đ"
  {
    FirstKey('D');
    assert "D" + ['D'] == "DD";
    TypeWordSnoc("D", 'D');
    KeyShiftDShiftD();
  }

  lemma KeyShiftDd()
    ensures Step("D", 'd') == "đ"
  {
    ForwardStroke("D", 'd');
  }

  /** `typeWord("Dd")` is "đ", where the test expects "Dd". */
  lemma TypeShiftDd()
    ensures TypeWord("Dd") == "đ"
  {
    FirstKey('D');
    assert "D" + ['d'] == "Dd";
    TypeWordSnoc("D", 'd');
    KeyShiftDd();
  }

  lemma KeyAa()
    ensures Step("a", 'a') == "â"
  {
    DoubleTapLookup('a');
    ForwardCircumflex("a", 'a');
  }

  /** `typeWord("aa")` is "â", as the test expects. */
  lemma TypeAa()
    ensures TypeWord("aa") == "â"
  {
    FirstKey('a');
    assert "a" + ['a'] == "aa";
    TypeWordSnoc("a", 'a');
    KeyAa();
  }

  lemma KeyAw()
    ensures Step("a", 'w') == "ă"
  {
    WModifierLookup('a');
    ForwardBreveOrHorn("a", 'w');
  }

  /** `typeWord("aw")` is "ă", as the test expects. */
  lemma TypeAw()
    ensures TypeWord("aw") == "ă"
  {
    FirstKey('a');
    assert "a" + ['w'] == "aw";
    TypeWordSnoc("a", 'w');
    KeyAw();
  }

  lemma KeyBa()
    ensures Step("b", 'a') == "ba"
  {
    ShapeKeyReachesShapeRules("b", 'a');
    NoShapeRuleMatches("b", 'a');
  }

  lemma TypeBa()
    ensures TypeWord("ba") == "ba"
  {
    FirstKey('b');
    assert "b" + ['a'] == "ba";
    TypeWordSnoc("b", 'a');
    KeyBa();
  }

  lemma KeyBo()
    ensures Step("b", 'o') == "bo"
  {
    ShapeKeyReachesShapeRules("b", 'o');
    NoShapeRuleMatches("b", 'o');
  }

  lemma TypeBo()
    ensures TypeWord("bo") == "bo"
  {
    FirstKey('b');
    assert "b" + ['o'] == "bo";
    TypeWordSnoc("b", 'o');
    KeyBo();
  }

  lemma KeyCo()
    ensures Step("c", 'o') == "co"
  {
    ShapeKeyReachesShapeRules("c", 'o');
    NoShapeRuleMatches("c", 'o');
  }

  lemma TypeCo()
    ensures TypeWord("co") == "co"
  {
    FirstKey('c');
    assert "c" + ['o'] == "co";
    TypeWordSnoc("c", 'o');
    KeyCo();
  }

  lemma KeyDd()
    ensures Step("d", 'd') == "đ"
  {
    ForwardStroke("d", 'd');
  }

  /** `typeWord("dd")` is "đ", as the test expects. */
  lemma TypeDd()
    ensures TypeWord("dd") == "đ"
  {
    FirstKey('d');
    assert "d" + ['d'] == "dd";
    TypeWordSnoc("d", 'd');
    KeyDd();
  }

  lemma KeyEe()
    ensures Step("e", 'e') == "ê"
  {
    DoubleTapLookup('e');
    ForwardCircumflex("e", 'e');
  }

  /** `typeWord("ee")` is "ê", as the test expects. */
  lemma TypeEe()
    ensures TypeWord("ee") == "ê"
  {
    FirstKey('e');
    assert "e" + ['e'] == "ee";
    TypeWordSnoc("e", 'e');
    KeyEe();
  }

  lemma KeyGi()
    ensures Step("g", 'i') == "gi"
  {
    OtherKeysAreAppended("g", 'i');
  }

  lemma TypeGi()
    ensures TypeWord("gi") == "gi"
  {
    FirstKey('g');
    assert "g" + ['i'] == "gi";
    TypeWordSnoc("g", 'i');
    KeyGi();
  }

  lemma KeyHe()
    ensures Step("h", 'e') == "he"
  {
    ShapeKeyReachesShapeRules("h", 'e');
    NoShapeRuleMatches("h", 'e');
  }

  lemma TypeHe()
    ensures TypeWord("he") == "he"
  {
    FirstKey('h');
    assert "h" + ['e'] == "he";
    TypeWordSnoc("h", 'e');
    KeyHe();
  }

  lemma KeyHo()
    ensures Step("h", 'o') == "ho"
  {
    ShapeKeyReachesShapeRules("h", 'o');
    NoShapeRuleMatches("h", 'o');
  }

  lemma TypeHo()
    ensures TypeWord("ho") == "ho"
  {
    FirstKey('h');
    assert "h" + ['o'] == "ho";
    TypeWordSnoc("h", 'o');
    KeyHo();
  }

  lemma KeyKh()
    ensures Step("k", 'h') == "kh"
  {
    OtherKeysAreAppended("k", 'h');
  }

  lemma TypeKh()
    ensures TypeWord("kh") == "kh"
  {
    FirstKey('k');
    assert "k" + ['h'] == "kh";
    TypeWordSnoc("k", 'h');
    KeyKh();
  }

  lemma KeyLa()
    ensures Step("l", 'a') == "la"
  {
    ShapeKeyReachesShapeRules("l", 'a');
    NoShapeRuleMatches("l", 'a');
  }

  lemma TypeLa()
    ensures TypeWord("la") == "la"
  {
    FirstKey('l');
    assert "l" + ['a'] == "la";
    TypeWordSnoc("l", 'a');
    KeyLa();
  }

  lemma KeyMa()
    ensures Step("m", 'a') == "ma"
  {
    ShapeKeyReachesShapeRules("m", 'a');
    NoShapeRuleMatches("m", 'a');
  }

  lemma TypeMa()
    ensures TypeWord("ma") == "ma"
  {
    FirstKey('m');
    assert "m" + ['a'] == "ma";
    TypeWordSnoc("m", 'a');
    KeyMa();
  }

  lemma KeyMu()
    ensures Step("m", 'u') == "mu"
  {
    OtherKeysAreAppended("m", 'u');
  }

  lemma TypeMu()
    ensures TypeWord("mu") == "mu"
  {
    FirstKey('m');
    assert "m" + ['u'] == "mu";
    TypeWordSnoc("m", 'u');
    KeyMu();
  }

  lemma KeyNg()
    ensures Step("n", 'g') == "ng"
  {
    OtherKeysAreAppended("n", 'g');
  }

  lemma TypeNg()
    ensures TypeWord("ng") == "ng"
  {
    FirstKey('n');
    assert "n" + ['g'] == "ng";
    TypeWordSnoc("n", 'g');
    KeyNg();
  }

  lemma KeyOo()
    ensures Step("o", 'o') == "ô"
  {
    DoubleTapLookup('o');
    ForwardCircumflex("o", 'o');
  }

  /** `typeWord("oo")` is "ô", as the test expects. */
  lemma TypeOo()
    ensures TypeWord("oo") == "ô"
  {
    FirstKey('o');
    assert "o" + ['o'] == "oo";
    TypeWordSnoc("o", 'o');
    KeyOo();
  }

  lemma KeyOw()
    ensures Step("o", 'w') == "ơ"
  {
    WModifierLookup('o');
    ForwardBreveOrHorn("o", 'w');
  }

  /** `typeWord("ow")` is "ơ", as the test expects. */
  lemma TypeOw()
    ensures TypeWord("ow") == "ơ"
  {
    FirstKey('o');
    assert "o" + ['w'] == "ow";
    TypeWordSnoc("o", 'w');
    KeyOw();
  }

  lemma KeyPa()
    ensures Step("p", 'a') == "pa"
  {
    ShapeKeyReachesShapeRules("p", 'a');
    NoShapeRuleMatches("p", 'a');
  }

  lemma TypePa()
    ensures TypeWord("pa") == "pa"
  {
    FirstKey('p');
    assert "p" + ['a'] == "pa";
    TypeWordSnoc("p", 'a');
    KeyPa();
  }

  lemma KeyQu()
    ensures Step("q", 'u') == "qu"
  {
    OtherKeysAreAppended("q", 'u');
  }

  lemma TypeQu()
    ensures TypeWord("qu") == "qu"
  {
    FirstKey('q');
    assert "q" + ['u'] == "qu";
    TypeWordSnoc("q", 'u');
    KeyQu();
  }

  lemma KeyTo()
    ensures Step("t", 'o') == "to"
  {
    ShapeKeyReachesShapeRules("t", 'o');
    NoShapeRuleMatches("t", 'o');
  }

  lemma TypeTo()
    ensures TypeWord("to") == "to"
  {
    FirstKey('t');
    assert "t" + ['o'] == "to";
    TypeWordSnoc("t", 'o');
    KeyTo();
  }

  lemma KeyUo()
    ensures Step("u", 'o') == "uo"
  {
    ShapeKeyReachesShapeRules("u", 'o');
    NoShapeRuleMatches("u", 'o');
  }

  lemma TypeUo()
    ensures TypeWord("uo") == "uo"
  {
    FirstKey('u');
    assert "u" + ['o'] == "uo";
    TypeWordSnoc("u", 'o');
    KeyUo();
  }

  lemma KeyUw()
    ensures Step("u", 'w') == "ư"
  {
    WModifierLookup('u');
    ForwardBreveOrHorn("u", 'w');
  }

  /** `typeWord("uw")` is "ư", as the test expects. */
  lemma TypeUw()
    ensures TypeWord("uw") == "ư"
  {
    FirstKey('u');
    assert "u" + ['w'] == "uw";
    TypeWordSnoc("u", 'w');
    KeyUw();
  }

  lemma KeyWo()
    ensures Step("w", 'o') == "wo"
  {
    ShapeKeyReachesShapeRules("w", 'o');
    NoShapeRuleMatches("w", 'o');
  }

  lemma TypeWo()
    ensures TypeWord("wo") == "wo"
  {
    FirstKey('w');
    assert "w" + ['o'] == "wo";
    TypeWordSnoc("w", 'o');
    KeyWo();
  }

  lemma KeyShiftAShiftAa()
    ensures Step("Â", 'a') == "aa"
  {
    DoubleTapLookup('â');
    UndoCircumflex("Â", 'a');
  }

  /** `typeWord("AAa")` is "aa", as the test expects. */
  lemma TypeShiftAShiftAa()
    ensures TypeWord("AAa") == "aa"
  {
    TypeShiftAShiftA();
    assert "AA" + ['a'] == "AAa";
    TypeWordSnoc("AA", 'a');
    KeyShiftAShiftAa();
  }

  lemma KeyShiftAShiftWw()
    ensures Step("Ă", 'w') == "Aw"
  {
    WModifierLookup('ă');
    UndoBreveOrHorn("Ă", 'w');
  }

  /** `typeWord("AWw")` is "Aw", where the test expects "aw". */
  lemma TypeShiftAShiftWw()
    ensures TypeWord("AWw") == "Aw"
  {
    TypeShiftAShiftW();
    assert "AW" + ['w'] == "AWw";
    TypeWordSnoc("AW", 'w');
    KeyShiftAShiftWw();
  }

  lemma KeyShiftDShiftDd()
    ensures Step("Đ", 'd') == "DD"
  {
    UndoStroke("Đ", 'd');
  }

  /** `typeWord("DDd")` is "DD", where the test expects "dd". */
  lemma TypeShiftDShiftDd()
    ensures TypeWord("DDd") == "DD"
  {
    TypeShiftDShiftD();
    assert "DD" + ['d'] == "DDd";
    TypeWordSnoc("DD", 'd');
    KeyShiftDShiftDd();
  }

  lemma KeyAaa()
    ensures Step("â", 'a') == "aa"
  {
    DoubleTapLookup('â');
    UndoCircumflex("â", 'a');
  }

  /** `typeWord("aaa")` is "aa", as the test expects. */
  lemma TypeAaa()
    ensures TypeWord("aaa") == "aa"
  {
    TypeAa();
    assert "aa" + ['a'] == "aaa";
    TypeWordSnoc("aa", 'a');
    KeyAaa();
  }

  lemma KeyAww()
    ensures Step("ă", 'w') == "aw"
  {
    WModifierLookup('ă');
    UndoBreveOrHorn("ă", 'w');
  }

  /** `typeWord("aww")` is "aw", as the test expects. */
  lemma TypeAww()
    ensures TypeWord("aww") == "aw"
  {
    TypeAw();
    assert "aw" + ['w'] == "aww";
    TypeWordSnoc("aw", 'w');
    KeyAww();
  }

  lemma KeyBaf()
    ensures Step("ba", 'f') == "bà"
  {
    VowelBa();
    ToneBaf();
    ToneMarkersLookup('f');
    ToneKeyRule("ba", 'f');
  }

  /** `typeWord("baf")` is "bà", as the test expects. */
  lemma TypeBaf()
    ensures TypeWord("baf") == "bà"
  {
    TypeBa();
    assert "ba" + ['f'] == "baf";
    TypeWordSnoc("ba", 'f');
    KeyBaf();
  }

  lemma KeyBoo()
    ensures Step("bo", 'o') == "bô"
  {
    DoubleTapLookup('o');
    ForwardCircumflex("bo", 'o');
  }

  /** `typeWord("boo")` is "bô", as the test expects. */
  lemma TypeBoo()
    ensures TypeWord("boo") == "bô"
  {
    TypeBo();
    assert "bo" + ['o'] == "boo";
    TypeWordSnoc("bo", 'o');
    KeyBoo();
  }

  lemma KeyCoo()
    ensures Step("co", 'o') == "cô"
  {
    DoubleTapLookup('o');
    ForwardCircumflex("co", 'o');
  }

  /** `typeWord("coo")` is "cô", as the test expects. */
  lemma TypeCoo()
    ensures TypeWord("coo") == "cô"
  {
    TypeCo();
    assert "co" + ['o'] == "coo";
    TypeWordSnoc("co", 'o');
    KeyCoo();
  }

  lemma KeyCor()
    ensures Step("co", 'r') == "cỏ"
  {
    VowelCo();
    ToneCor();
    ToneMarkersLookup('r');
    ToneKeyRule("co", 'r');
  }

  /** `typeWord("cor")` is "cỏ", as the test expects. */
  lemma TypeCor()
    ensures TypeWord("cor") == "cỏ"
  {
    TypeCo();
    assert "co" + ['r'] == "cor";
    TypeWordSnoc("co", 'r');
    KeyCor();
  }

  lemma KeyDdd()
    ensures Step("đ", 'd') == "dd"
  {
    UndoStroke("đ", 'd');
  }

  /** `typeWord("ddd")` is "dd", as the test expects. */
  lemma TypeDdd()
    ensures TypeWord("ddd") == "dd"
  {
    TypeDd();
    assert "dd" + ['d'] == "ddd";
    TypeWordSnoc("dd", 'd');
    KeyDdd();
  }

  lemma KeyEee()
    ensures Step("ê", 'e') == "ee"
  {
    DoubleTapLookup('ê');
    UndoCircumflex("ê", 'e');
  }

  /** `typeWord("eee")` is "ee", as the test expects. */
  lemma TypeEee()
    ensures TypeWord("eee") == "ee"
  {
    TypeEe();
    assert "ee" + ['e'] == "eee";
    TypeWordSnoc("ee", 'e');
    KeyEee();
  }

  lemma KeyGia()
    ensures Step("gi", 'a') == "gia"
  {
    ShapeKeyReachesShapeRules("gi", 'a');
    NoShapeRuleMatches("gi", 'a');
  }

  lemma TypeGia()
    ensures TypeWord("gia") == "gia"
  {
    TypeGi();
    assert "gi" + ['a'] == "gia";
    TypeWordSnoc("gi", 'a');
    KeyGia();
  }

  lemma KeyHel()
    ensures Step("he", 'l') == "hel"
  {
    OtherKeysAreAppended("he", 'l');
  }

  lemma TypeHel()
    ensures TypeWord("hel") == "hel"
  {
    TypeHe();
    assert "he" + ['l'] == "hel";
    TypeWordSnoc("he", 'l');
    KeyHel();
  }

  lemma KeyHoa()
    ensures Step("ho", 'a') == "hoa"
  {
    ShapeKeyReachesShapeRules("ho", 'a');
    NoShapeRuleMatches("ho", 'a');
  }

  lemma TypeHoa()
    ensures TypeWord("hoa") == "hoa"
  {
    TypeHo();
    assert "ho" + ['a'] == "hoa";
    TypeWordSnoc("ho", 'a');
    KeyHoa();
  }

  lemma KeyKho()
    ensures Step("kh", 'o') == "kho"
  {
    ShapeKeyReachesShapeRules("kh", 'o');
    NoShapeRuleMatches("kh", 'o');
  }

  lemma TypeKho()
    ensures TypeWord("kho") == "kho"
  {
    TypeKh();
    assert "kh" + ['o'] == "kho";
    TypeWordSnoc("kh", 'o');
    KeyKho();
  }

  lemma KeyLaj()
    ensures Step("la", 'j') == "lạ"
  {
    VowelLa();
    ToneLaj();
    ToneMarkersLookup('j');
    ToneKeyRule("la", 'j');
  }

  /** `typeWord("laj")` is "lạ", as the test expects. */
  lemma TypeLaj()
    ensures TypeWord("laj") == "lạ"
  {
    TypeLa();
    assert "la" + ['j'] == "laj";
    TypeWordSnoc("la", 'j');
    KeyLaj();
  }

  lemma KeyMas()
    ensures Step("ma", 's') == "má"
  {
    VowelMa();
    ToneMas();
    ToneMarkersLookup('s');
    ToneKeyRule("ma", 's');
  }

  /** `typeWord("mas")` is "má", as the test expects. */
  lemma TypeMas()
    ensures TypeWord("mas") == "má"
  {
    TypeMa();
    assert "ma" + ['s'] == "mas";
    TypeWordSnoc("ma", 's');
    KeyMas();
  }

  lemma KeyMaz()
    ensures Step("ma", 'z') == "maz"
  {
    assert LastTonedIndex("ma") == -1;
    RevertRule("ma", 'z');
  }

  /** `typeWord("maz")` is "maz", as the test expects. */
  lemma TypeMaz()
    ensures TypeWord("maz") == "maz"
  {
    TypeMa();
    assert "ma" + ['z'] == "maz";
    TypeWordSnoc("ma", 'z');
    KeyMaz();
  }

  lemma KeyMux()
    ensures Step("mu", 'x') == "mũ"
  {
    VowelMu();
    ToneMux();
    ToneMarkersLookup('x');
    ToneKeyRule("mu", 'x');
  }

  /** `typeWord("mux")` is "mũ", as the test expects. */
  lemma TypeMux()
    ensures TypeWord("mux") == "mũ"
  {
    TypeMu();
    assert "mu" + ['x'] == "mux";
    TypeWordSnoc("mu", 'x');
    KeyMux();
  }

  lemma KeyNgu()
    ensures Step("ng", 'u') == "ngu"
  {
    OtherKeysAreAppended("ng", 'u');
  }

  lemma TypeNgu()
    ensures TypeWord("ngu") == "ngu"
  {
    TypeNg();
    assert "ng" + ['u'] == "ngu";
    TypeWordSnoc("ng", 'u');
    KeyNgu();
  }

  lemma KeyOoo()
    ensures Step("ô", 'o') == "oo"
  {
    DoubleTapLookup('ô');
    UndoCircumflex("ô", 'o');
  }

  /** `typeWord("ooo")` is "oo", as the test expects. */
  lemma TypeOoo()
    ensures TypeWord("ooo") == "oo"
  {
    TypeOo();
    assert "oo" + ['o'] == "ooo";
    TypeWordSnoc("oo", 'o');
    KeyOoo();
  }

  lemma KeyOww()
    ensures Step("ơ", 'w') == "ow"
  {
    WModifierLookup('ơ');
    UndoBreveOrHorn("ơ", 'w');
  }

  /** `typeWord("oww")` is "ow", as the test expects. */
  lemma TypeOww()
    ensures TypeWord("oww") == "ow"
  {
    TypeOw();
    assert "ow" + ['w'] == "oww";
    TypeWordSnoc("ow", 'w');
    KeyOww();
  }

  lemma KeyPas()
    ensures Step("pa", 's') == "pá"
  {
    VowelPa();
    TonePas();
    ToneMarkersLookup('s');
    ToneKeyRule("pa", 's');
  }

  lemma TypePas()
    ensures TypeWord("pas") == "pá"
  {
    TypePa();
    assert "pa" + ['s'] == "pas";
    TypeWordSnoc("pa", 's');
    KeyPas();
  }

  lemma KeyQua()
    ensures Step("qu", 'a') == "qua"
  {
    ShapeKeyReachesShapeRules("qu", 'a');
    NoShapeRuleMatches("qu", 'a');
  }

  lemma TypeQua()
    ensures TypeWord("qua") == "qua"
  {
    TypeQu();
    assert "qu" + ['a'] == "qua";
    TypeWordSnoc("qu", 'a');
    KeyQua();
  }

  lemma KeyToa()
    ensures Step("to", 'a') == "toa"
  {
    ShapeKeyReachesShapeRules("to", 'a');
    NoShapeRuleMatches("to", 'a');
  }

  lemma TypeToa()
    ensures TypeWord("toa") == "toa"
  {
    TypeTo();
    assert "to" + ['a'] == "toa";
    TypeWordSnoc("to", 'a');
    KeyToa();
  }

  lemma KeyUow()
    ensures Step("uo", 'w') == "ươ"
  {
    ForwardHornPair("uo", 'w');
  }

  /** `typeWord("uow")` is "ươ", as the test expects. */
  lemma TypeUow()
    ensures TypeWord("uow") == "ươ"
  {
    TypeUo();
    assert "uo" + ['w'] == "uow";
    TypeWordSnoc("uo", 'w');
    KeyUow();
  }

  lemma KeyUww()
    ensures Step("ư", 'w') == "uw"
  {
    WModifierLookup('ư');
    UndoBreveOrHorn("ư", 'w');
  }

  /** `typeWord("uww")` is "uw", as one assertion expects (another expects "uww"). */
  lemma TypeUww()
    ensures TypeWord("uww") == "uw"
  {
    TypeUw();
    assert "uw" + ['w'] == "uww";
    TypeWordSnoc("uw", 'w');
    KeyUww();
  }

  lemma KeyWor()
    ensures Step("wo", 'r') == "wỏ"
  {
    VowelWo();
    ToneWor();
    ToneMarkersLookup('r');
    ToneKeyRule("wo", 'r');
  }

  lemma TypeWor()
    ensures TypeWord("wor") == "wỏ"
  {
    TypeWo();
    assert "wo" + ['r'] == "wor";
    TypeWordSnoc("wo", 'r');
    KeyWor();
  }

  lemma KeyAaaa()
    ensures Step("aa", 'a') == "aâ"
  {
    DoubleTapLookup('a');
    ForwardCircumflex("aa", 'a');
  }

  /** `typeWord("aaaa")` is "aâ", where the test expects "aaa". */
  lemma TypeAaaa()
    ensures TypeWord("aaaa") == "aâ"
  {
    TypeAaa();
    assert "aaa" + ['a'] == "aaaa";
    TypeWordSnoc("aaa", 'a');
    KeyAaaa();
  }

  lemma KeyAwww()
    ensures Step("aw", 'w') == "aww"
  {
    ShapeKeyReachesShapeRules("aw", 'w');
    NoShapeRuleMatches("aw", 'w');
  }

  /** `typeWord("awww")` is "aww", as the test expects. */
  lemma TypeAwww()
    ensures TypeWord("awww") == "aww"
  {
    TypeAww();
    assert "aww" + ['w'] == "awww";
    TypeWordSnoc("aww", 'w');
    KeyAwww();
  }

  lemma KeyBoon()
    ensures Step("bô", 'n') == "bôn"
  {
    OtherKeysAreAppended("bô", 'n');
  }

  /** `typeWord("boon")` is "bôn", where the test expects "boon". */
  lemma TypeBoon()
    ensures TypeWord("boon") == "bôn"
  {
    TypeBoo();
    assert "boo" + ['n'] == "boon";
    TypeWordSnoc("boo", 'n');
    KeyBoon();
  }

  lemma KeyBooo()
    ensures Step("bô", 'o') == "boo"
  {
    DoubleTapLookup('ô');
    UndoCircumflex("bô", 'o');
  }

  /** `typeWord("booo")` is "boo", as the test expects. */
  lemma TypeBooo()
    ensures TypeWord("booo") == "boo"
  {
    TypeBoo();
    assert "boo" + ['o'] == "booo";
    TypeWordSnoc("boo", 'o');
    KeyBooo();
  }

  lemma KeyCooo()
    ensures Step("cô", 'o') == "coo"
  {
    DoubleTapLookup('ô');
    UndoCircumflex("cô", 'o');
  }

  /** `typeWord("cooo")` is "coo", as the test expects. */
  lemma TypeCooo()
    ensures TypeWord("cooo") == "coo"
  {
    TypeCoo();
    assert "coo" + ['o'] == "cooo";
    TypeWordSnoc("coo", 'o');
    KeyCooo();
  }

  lemma KeyCoop()
    ensures Step("cô", 'p') == "côp"
  {
    OtherKeysAreAppended("cô", 'p');
  }

  /** `typeWord("coop")` is "côp", where the test expects "coop". */
  lemma TypeCoop()
    ensures TypeWord("coop") == "côp"
  {
    TypeCoo();
    assert "coo" + ['p'] == "coop";
    TypeWordSnoc("coo", 'p');
    KeyCoop();
  }

  lemma KeyGiaf()
    ensures Step("gia", 'f') == "gìa"
  {
    VowelGia();
    ToneGiaf();
    ToneMarkersLookup('f');
    ToneKeyRule("gia", 'f');
  }

  /** `typeWord("giaf")` is "gìa", where the test expects "già". */
  lemma TypeGiaf()
    ensures TypeWord("giaf") == "gìa"
  {
    TypeGia();
    assert "gia" + ['f'] == "giaf";
    TypeWordSnoc("gia", 'f');
    KeyGiaf();
  }

  lemma KeyHell()
    ensures Step("hel", 'l') == "hell"
  {
    OtherKeysAreAppended("hel", 'l');
  }

  lemma TypeHell()
    ensures TypeWord("hell") == "hell"
  {
    TypeHel();
    assert "hel" + ['l'] == "hell";
    TypeWordSnoc("hel", 'l');
    KeyHell();
  }

  lemma KeyHoaf()
    ensures Step("hoa", 'f') == "hoà"
  {
    VowelHoa();
    ToneHoaf();
    ToneMarkersLookup('f');
    ToneKeyRule("hoa", 'f');
  }

  /** `typeWord("hoaf")` is "hoà", as the test expects. */
  lemma TypeHoaf()
    ensures TypeWord("hoaf") == "hoà"
  {
    TypeHoa();
    assert "hoa" + ['f'] == "hoaf";
    TypeWordSnoc("hoa", 'f');
    KeyHoaf();
  }

  lemma KeyKhoe()
    ensures Step("kho", 'e') == "khoe"
  {
    ShapeKeyReachesShapeRules("kho", 'e');
    NoShapeRuleMatches("kho", 'e');
  }

  lemma TypeKhoe()
    ensures TypeWord("khoe") == "khoe"
  {
    TypeKho();
    assert "kho" + ['e'] == "khoe";
    TypeWordSnoc("kho", 'e');
    KeyKhoe();
  }

  lemma KeyMass()
    ensures Step("má", 's') == "más"
  {
    ToneKeyOnTonedWord("má", 's');
  }

  /** `typeWord("mass")` is "más", where the test expects "mas". */
  lemma TypeMass()
    ensures TypeWord("mass") == "más"
  {
    TypeMas();
    assert "mas" + ['s'] == "mass";
    TypeWordSnoc("mas", 's');
    KeyMass();
  }

  lemma KeyNguy()
    ensures Step("ngu", 'y') == "nguy"
  {
    OtherKeysAreAppended("ngu", 'y');
  }

  lemma TypeNguy()
    ensures TypeWord("nguy") == "nguy"
  {
    TypeNgu();
    assert "ngu" + ['y'] == "nguy";
    TypeWordSnoc("ngu", 'y');
    KeyNguy();
  }

  lemma KeyOwww()
    ensures Step("ow", 'w') == "oww"
  {
    ShapeKeyReachesShapeRules("ow", 'w');
    NoShapeRuleMatches("ow", 'w');
  }

  /** `typeWord("owww")` is "oww", as the test expects. */
  lemma TypeOwww()
    ensures TypeWord("owww") == "oww"
  {
    TypeOww();
    assert "oww" + ['w'] == "owww";
    TypeWordSnoc("oww", 'w');
    KeyOwww();
  }

  lemma KeyPass()
    ensures Step("pá", 's') == "pás"
  {
    ToneKeyOnTonedWord("pá", 's');
  }

  /** `typeWord("pass")` is "pás", where the test expects "pass". */
  lemma TypePass()
    ensures TypeWord("pass") == "pás"
  {
    TypePas();
    assert "pas" + ['s'] == "pass";
    TypeWordSnoc("pas", 's');
    KeyPass();
  }

  lemma KeyQuas()
    ensures Step("qua", 's') == "qúa"
  {
    VowelQua();
    ToneQuas();
    ToneMarkersLookup('s');
    ToneKeyRule("qua", 's');
  }

  /** `typeWord("quas")` is "qúa", where the test expects "quá". */
  lemma TypeQuas()
    ensures TypeWord("quas") == "qúa"
  {
    TypeQua();
    assert "qua" + ['s'] == "quas";
    TypeWordSnoc("qua", 's');
    KeyQuas();
  }

  lemma KeyToan()
    ensures Step("toa", 'n') == "toan"
  {
    OtherKeysAreAppended("toa", 'n');
  }

  lemma TypeToan()
    ensures TypeWord("toan") == "toan"
  {
    TypeToa();
    assert "toa" + ['n'] == "toan";
    TypeWordSnoc("toa", 'n');
    KeyToan();
  }

  lemma KeyUoww()
    ensures Step("ươ", 'w') == "uow"
  {
    UndoHornPair("ươ", 'w');
  }

  /** `typeWord("uoww")` is "uow", as the test expects. */
  lemma TypeUoww()
    ensures TypeWord("uoww") == "uow"
  {
    TypeUow();
    assert "uow" + ['w'] == "uoww";
    TypeWordSnoc("uow", 'w');
    KeyUoww();
  }

  lemma KeyWorl()
    ensures Step("wỏ", 'l') == "wỏl"
  {
    OtherKeysAreAppended("wỏ", 'l');
  }

  lemma TypeWorl()
    ensures TypeWord("worl") == "wỏl"
  {
    TypeWor();
    assert "wor" + ['l'] == "worl";
    TypeWordSnoc("wor", 'l');
    KeyWorl();
  }

  lemma KeyHello()
    ensures Step("hell", 'o') == "hello"
  {
    ShapeKeyReachesShapeRules("hell", 'o');
    NoShapeRuleMatches("hell", 'o');
  }

  /** `typeWord("hello")` is "hello", as the test expects. */
  lemma TypeHello()
    ensures TypeWord("hello") == "hello"
  {
    TypeHell();
    assert "hell" + ['o'] == "hello";
    TypeWordSnoc("hell", 'o');
    KeyHello();
  }

  lemma KeyKhoer()
    ensures Step("khoe", 'r') == "khoẻ"
  {
    VowelKhoe();
    ToneKhoer();
    ToneMarkersLookup('r');
    ToneKeyRule("khoe", 'r');
  }

  /** `typeWord("khoer")` is "khoẻ", where the test expects "khỏe". */
  lemma TypeKhoer()
    ensures TypeWord("khoer") == "khoẻ"
  {
    TypeKhoe();
    assert "khoe" + ['r'] == "khoer";
    TypeWordSnoc("khoe", 'r');
    KeyKhoer();
  }

  lemma KeyNguye()
    ensures Step("nguy", 'e') == "nguye"
  {
    ShapeKeyReachesShapeRules("nguy", 'e');
    NoShapeRuleMatches("nguy", 'e');
  }

  lemma TypeNguye()
    ensures TypeWord("nguye") == "nguye"
  {
    TypeNguy();
    assert "nguy" + ['e'] == "nguye";
    TypeWordSnoc("nguy", 'e');
    KeyNguye();
  }

  lemma KeyToans()
    ensures Step("toan", 's') == "toán"
  {
    VowelToan();
    ToneToans();
    ToneMarkersLookup('s');
    ToneKeyRule("toan", 's');
  }

  /** `typeWord("toans")` is "toán", as the test expects. */
  lemma TypeToans()
    ensures TypeWord("toans") == "toán"
  {
    TypeToan();
    assert "toan" + ['s'] == "toans";
    TypeWordSnoc("toan", 's');
    KeyToans();
  }

  lemma KeyUowww()
    ensures Step("uow", 'w') == "uoww"
  {
    ShapeKeyReachesShapeRules("uow", 'w');
    NoShapeRuleMatches("uow", 'w');
  }

  /** `typeWord("uowww")` is "uoww", as the test expects. */
  lemma TypeUowww()
    ensures TypeWord("uowww") == "uoww"
  {
    TypeUoww();
    assert "uoww" + ['w'] == "uowww";
    TypeWordSnoc("uoww", 'w');
    KeyUowww();
  }

  lemma KeyWorld()
    ensures Step("wỏl", 'd') == "wỏld"
  {
    ShapeKeyReachesShapeRules("wỏl", 'd');
    NoShapeRuleMatches("wỏl", 'd');
  }

  /** `typeWord("world")` is "wỏld", where the test expects "world". */
  lemma TypeWorld()
    ensures TypeWord("world") == "wỏld"
  {
    TypeWorl();
    assert "worl" + ['d'] == "world";
    TypeWordSnoc("worl", 'd');
    KeyWorld();
  }

  lemma KeyNguyee()
    ensures Step("nguye", 'e') == "nguyê"
  {
    DoubleTapLookup('e');
    ForwardCircumflex("nguye", 'e');
  }

  lemma TypeNguyee()
    ensures TypeWord("nguyee") == "nguyê"
  {
    TypeNguye();
    assert "nguye" + ['e'] == "nguyee";
    TypeWordSnoc("nguye", 'e');
    KeyNguyee();
  }

  lemma KeyNguyeen()
    ensures Step("nguyê", 'n') == "nguyên"
  {
    OtherKeysAreAppended("nguyê", 'n');
  }

  lemma TypeNguyeen()
    ensures TypeWord("nguyeen") == "nguyên"
  {
    TypeNguyee();
    assert "nguyee" + ['n'] == "nguyeen";
    TypeWordSnoc("nguyee", 'n');
    KeyNguyeen();
  }

  lemma KeyNguyeenx()
    ensures Step("nguyên", 'x') == "nguyễn"
  {
    VowelNguyen();
    ToneNguyeenx();
    ToneMarkersLookup('x');
    ToneKeyRule("nguyên", 'x');
  }

  /** `typeWord("nguyeenx")` is "nguyễn", as the test expects. */
  lemma TypeNguyeenx()
    ensures TypeWord("nguyeenx") == "nguyễn"
  {
    TypeNguyeen();
    assert "nguyeen" + ['x'] == "nguyeenx";
    TypeWordSnoc("nguyeen", 'x');
    KeyNguyeenx();
  }

  /** `process("má", 'z')` strips the tone again. */
  lemma RevertMa()
    ensures Process("má", 'z') == Some("ma")
  {
    LastTonedMa();
    RevertRule("má", 'z');
    assert RemoveTone('á') == 'a';
    assert ReplaceAt("má", 1, 'a') == "ma";
  }

  lemma LastTonedMa()
    ensures LastTonedIndex("má") == 1
  {
  }

  /** In "qu" the `u` is no vowel for the tone, and no vowel precedes it: no vowel is chosen. */
  lemma QuWithoutVowel()
    ensures GetVowelIndex("qu") == -1
  {
    assert LastVowelIndex("qu") == 1;
    QuRule("qu");
    assert "qu"[..1] == "q";
  }

  /** A tone key on a word with one toned vowel tones the other one: "hoá" and `f` give "hòá". */
  lemma PartlyTonedWord()
    ensures Process("hoá", 'f') == Some("hòá")
  {
    VowelPartlyToned();
    ToneMarkersLookup('f');
    ToneKeyRule("hoá", 'f');
    assert AddTone('o', Grave) == 'ò';
    assert Process("hoá", 'f').Some?;
    var r := Process("hoá", 'f').value;
    assert |r| == 3 && r[0] == 'h' && r[1] == 'ò' && r[2] == 'á';
    assert r == "hòá";
  }

  lemma LastVowelPartlyToned()
    ensures LastVowelIndex("hoá") == 1
  {
    assert "hoá"[..2] == "ho";
  }

  lemma VowelPartlyToned()
    ensures GetVowelIndex("hoá") == 1
  {
    LastVowelPartlyToned();
    assert "hoá"[..1] == "h";
    SingleVowelRule("hoá");
  }

  lemma LastVowelBa()
    ensures LastVowelIndex("ba") == 1
  {

  }

  lemma PrecedingVowelBa()
    ensures PrecedingVowelIndex("ba") == -1
  {
    LastVowelBa();
    assert "ba"[..1] == "b";
    assert "b"[..0] == "";
  }

  lemma NoGiQuBa()
    ensures !GiApplies("ba") && !QuApplies("ba")
  {
    LastVowelBa();
  }

  lemma VowelBa()
    ensures GetVowelIndex("ba") == 1
  {
    LastVowelBa();
    PrecedingVowelBa();
    NoGiQuBa();
    SingleVowelRule("ba");
  }

  lemma ToneBaf()
    ensures AddTone('a', Grave) == 'à'
  {
  }

  lemma LastVowelCo()
    ensures LastVowelIndex("co") == 1
  {

  }

  lemma PrecedingVowelCo()
    ensures PrecedingVowelIndex("co") == -1
  {
    LastVowelCo();
    assert "co"[..1] == "c";
    assert "c"[..0] == "";
  }

  lemma NoGiQuCo()
    ensures !GiApplies("co") && !QuApplies("co")
  {
    LastVowelCo();
  }

  lemma VowelCo()
    ensures GetVowelIndex("co") == 1
  {
    LastVowelCo();
    PrecedingVowelCo();
    NoGiQuCo();
    SingleVowelRule("co");
  }

  lemma ToneCor()
    ensures AddTone('o', Hook) == 'ỏ'
  {
  }

  lemma LastVowelLa()
    ensures LastVowelIndex("la") == 1
  {

  }

  lemma PrecedingVowelLa()
    ensures PrecedingVowelIndex("la") == -1
  {
    LastVowelLa();
    assert "la"[..1] == "l";
    assert "l"[..0] == "";
  }

  lemma NoGiQuLa()
    ensures !GiApplies("la") && !QuApplies("la")
  {
    LastVowelLa();
  }

  lemma VowelLa()
    ensures GetVowelIndex("la") == 1
  {
    LastVowelLa();
    PrecedingVowelLa();
    NoGiQuLa();
    SingleVowelRule("la");
  }

  lemma ToneLaj()
    ensures AddTone('a', Dot) == 'ạ'
  {
  }

  lemma LastVowelMa()
    ensures LastVowelIndex("ma") == 1
  {

  }

  lemma PrecedingVowelMa()
    ensures PrecedingVowelIndex("ma") == -1
  {
    LastVowelMa();
    assert "ma"[..1] == "m";
    assert "m"[..0] == "";
  }

  lemma NoGiQuMa()
    ensures !GiApplies("ma") && !QuApplies("ma")
  {
    LastVowelMa();
  }

  lemma VowelMa()
    ensures GetVowelIndex("ma") == 1
  {
    LastVowelMa();
    PrecedingVowelMa();
    NoGiQuMa();
    SingleVowelRule("ma");
  }

  lemma ToneMas()
    ensures AddTone('a', Acute) == 'á'
  {
  }

  lemma LastVowelMu()
    ensures LastVowelIndex("mu") == 1
  {

  }

  lemma PrecedingVowelMu()
    ensures PrecedingVowelIndex("mu") == -1
  {
    LastVowelMu();
    assert "mu"[..1] == "m";
    assert "m"[..0] == "";
  }

  lemma NoGiQuMu()
    ensures !GiApplies("mu") && !QuApplies("mu")
  {
    LastVowelMu();
  }

  lemma VowelMu()
    ensures GetVowelIndex("mu") == 1
  {
    LastVowelMu();
    PrecedingVowelMu();
    NoGiQuMu();
    SingleVowelRule("mu");
  }

  lemma ToneMux()
    ensures AddTone('u', Tilde) == 'ũ'
  {
  }

  lemma LastVowelPa()
    ensures LastVowelIndex("pa") == 1
  {

  }

  lemma PrecedingVowelPa()
    ensures PrecedingVowelIndex("pa") == -1
  {
    LastVowelPa();
    assert "pa"[..1] == "p";
    assert "p"[..0] == "";
  }

  lemma NoGiQuPa()
    ensures !GiApplies("pa") && !QuApplies("pa")
  {
    LastVowelPa();
  }

  lemma VowelPa()
    ensures GetVowelIndex("pa") == 1
  {
    LastVowelPa();
    PrecedingVowelPa();
    NoGiQuPa();
    SingleVowelRule("pa");
  }

  lemma TonePas()
    ensures AddTone('a', Acute) == 'á'
  {
  }

  lemma LastVowelWo()
    ensures LastVowelIndex("wo") == 1
  {

  }

  lemma PrecedingVowelWo()
    ensures PrecedingVowelIndex("wo") == -1
  {
    LastVowelWo();
    assert "wo"[..1] == "w";
    assert "w"[..0] == "";
  }

  lemma NoGiQuWo()
    ensures !GiApplies("wo") && !QuApplies("wo")
  {
    LastVowelWo();
  }

  lemma VowelWo()
    ensures GetVowelIndex("wo") == 1
  {
    LastVowelWo();
    PrecedingVowelWo();
    NoGiQuWo();
    SingleVowelRule("wo");
  }

  lemma ToneWor()
    ensures AddTone('o', Hook) == 'ỏ'
  {
  }

  lemma LastVowelGia()
    ensures LastVowelIndex("gia") == 2
  {

  }

  lemma PrecedingVowelGia()
    ensures PrecedingVowelIndex("gia") == 1
  {
    LastVowelGia();
    assert "gia"[..2] == "gi";
  }

  lemma NoGiQuGia()
    ensures !GiApplies("gia") && !QuApplies("gia")
  {
    LastVowelGia();
  }

  lemma VowelGia()
    ensures GetVowelIndex("gia") == 1
  {
    LastVowelGia();
    PrecedingVowelGia();
    NoGiQuGia();
    DiphthongRule("gia");
  }

  lemma ToneGiaf()
    ensures AddTone('i', Grave) == 'ì'
  {
  }

  lemma LastVowelHoa()
    ensures LastVowelIndex("hoa") == 2
  {

  }

  lemma PrecedingVowelHoa()
    ensures PrecedingVowelIndex("hoa") == 1
  {
    LastVowelHoa();
    assert "hoa"[..2] == "ho";
  }

  lemma NoGiQuHoa()
    ensures !GiApplies("hoa") && !QuApplies("hoa")
  {
    LastVowelHoa();
  }

  lemma VowelHoa()
    ensures GetVowelIndex("hoa") == 2
  {
    LastVowelHoa();
    PrecedingVowelHoa();
    NoGiQuHoa();
    DiphthongRule("hoa");
  }

  lemma ToneHoaf()
    ensures AddTone('a', Grave) == 'à'
  {
  }

  lemma LastVowelQua()
    ensures LastVowelIndex("qua") == 2
  {

  }

  lemma PrecedingVowelQua()
    ensures PrecedingVowelIndex("qua") == 1
  {
    LastVowelQua();
    assert "qua"[..2] == "qu";
  }

  lemma NoGiQuQua()
    ensures !GiApplies("qua") && !QuApplies("qua")
  {
    LastVowelQua();
  }

  lemma VowelQua()
    ensures GetVowelIndex("qua") == 1
  {
    LastVowelQua();
    PrecedingVowelQua();
    NoGiQuQua();
    DiphthongRule("qua");
  }

  lemma ToneQuas()
    ensures AddTone('u', Acute) == 'ú'
  {
  }

  lemma LastVowelKhoe()
    ensures LastVowelIndex("khoe") == 3
  {

  }

  lemma PrecedingVowelKhoe()
    ensures PrecedingVowelIndex("khoe") == 2
  {
    LastVowelKhoe();
    assert "khoe"[..3] == "kho";
  }

  lemma NoGiQuKhoe()
    ensures !GiApplies("khoe") && !QuApplies("khoe")
  {
    LastVowelKhoe();
  }

  lemma VowelKhoe()
    ensures GetVowelIndex("khoe") == 3
  {
    LastVowelKhoe();
    PrecedingVowelKhoe();
    NoGiQuKhoe();
    DiphthongRule("khoe");
  }

  lemma ToneKhoer()
    ensures AddTone('e', Hook) == 'ẻ'
  {
  }

  lemma LastVowelToan()
    ensures LastVowelIndex("toan") == 2
  {
    assert "toan"[..3] == "toa";
  }

  lemma PrecedingVowelToan()
    ensures PrecedingVowelIndex("toan") == 1
  {
    LastVowelToan();
    assert "toan"[..2] == "to";
  }

  lemma NoGiQuToan()
    ensures !GiApplies("toan") && !QuApplies("toan")
  {
    LastVowelToan();
  }

  lemma VowelToan()
    ensures GetVowelIndex("toan") == 2
  {
    LastVowelToan();
    PrecedingVowelToan();
    NoGiQuToan();
    DiphthongRule("toan");
  }

  lemma ToneToans()
    ensures AddTone('a', Acute) == 'á'
  {
  }

  lemma LastVowelNguyen()
    ensures LastVowelIndex("nguyên") == 4
  {
    assert "nguyên"[..5] == "nguyê";
  }

  lemma PrecedingVowelNguyen()
    ensures PrecedingVowelIndex("nguyên") == 3
  {
    LastVowelNguyen();
    assert "nguyên"[..4] == "nguy";
  }

  lemma NoGiQuNguyen()
    ensures !GiApplies("nguyên") && !QuApplies("nguyên")
  {
    LastVowelNguyen();
  }

  lemma VowelNguyen()
    ensures GetVowelIndex("nguyên") == 4
  {
    LastVowelNguyen();
    PrecedingVowelNguyen();
    NoGiQuNguyen();
    DiphthongRule("nguyên");
  }

  lemma ToneNguyeenx()
    ensures AddTone('ê', Tilde) == 'ễ'
  {
  }

}
