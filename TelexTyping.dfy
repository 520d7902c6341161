/**
  Typing a word key by key, as the engine's tests do: each key goes through
  the engine, and when the engine leaves the word alone the key is
  appended as typed.
*/
module TelexTyping {
  import opened Wrappers
  import opened Casing
  import opened TelexRules
  import opened TelexProcessor
  import opened TelexProcessorLemmas

  /** One keystroke: the engine's rewrite of `w`, or `w` with `k` appended. */
  function Step(w: string, k: char): (r: string)
    ensures |w| <= |r| <= |w| + 1
    ensures Process(w, k).None? ==> r == w + [k]
  {
    match Process(w, k)
    case Some(rewritten) => rewritten
    case None => w + [k]
  }

  /** `typeWord(keys)`: the keys typed one after the other into an empty word. */
  function TypeWord(keys: string): (r: string)
    ensures |r| <= |keys|
    ensures |keys| > 0 ==> |r| > 0
  {
    if |keys| == 0 then ""
    else Step(TypeWord(keys[..|keys| - 1]), keys[|keys| - 1])
  }

  /** The typing loop itself: the word after each key is the fold so far. */
  method TypeKeys(keys: string) returns (currentWord: string)
    ensures currentWord == TypeWord(keys)
  {
    currentWord := "";
    for i := 0 to |keys|
      invariant currentWord == TypeWord(keys[..i])
    {
      assert keys[..i + 1][..i] == keys[..i];
      var result := Process(currentWord, keys[i]);
      currentWord := match result case Some(rewritten) => rewritten case None => currentWord + [keys[i]];
    }
    assert keys[..|keys|] == keys;
  }

  /** Typing one more key is one more step. */
  lemma TypeWordSnoc(keys: string, k: char)
    ensures TypeWord(keys + [k]) == Step(TypeWord(keys), k)
  {
    assert (keys + [k])[..|keys|] == keys;
  }

  /** A first key is always typed as it is. */
  lemma FirstKey(k: char)
    ensures TypeWord([k]) == [k]
  {
    TypeWordSnoc("", k);
    EmptyWordRule(k);
  }
}
