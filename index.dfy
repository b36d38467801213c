/**
 * Index entries for the LaTeX `\index` command: "Ribeiro da Silva" is filed
 * as "Silva!Ribeiro da", "revista do IAGP" as "Revista!do IAGP".
 * Models `src/data/index.rs`.
 */
module Indexes {
  import opened Results
  import opened Text

  /** `Capitalize`: the first character in upper case, the rest unchanged. */
  function Capitalize(s: string): (r: string)
    ensures |r| == |s|
    ensures s != [] ==> r[0] == UpperChar(s[0]) && r[1..] == s[1..]
  {
    if s == [] then [] else [UpperChar(s[0])] + s[1..]
  }

  /** Capitalising twice is capitalising once. */
  lemma CapitalizeIdempotent(s: string)
    ensures Capitalize(Capitalize(s)) == Capitalize(s)
  {
    if s != [] {
      assert !IsLower(UpperChar(s[0]));
      assert Capitalize(s) == [UpperChar(s[0])] + s[1..];
    }
  }

  /** The two names that are filed under another word. */
  function Remap(s: string): string {
    if s == "1º secretário do IAGP" then "IAGP 1º secretário do"
    else if s == "Ribeiro da Silva" then "Silva Ribeiro da"
    else s
  }

  /** The position of the first space, if there is one. */
  function FirstSpace(s: string): (r: Option<nat>)
    ensures r.Some? ==> r.value < |s| && s[r.value] == ' '
    ensures forall i :: 0 <= i < |s| && (r.None? || i < r.value) ==> s[i] != ' '
  {
    if s == [] then None
    else if s[0] == ' ' then Some(0)
    else match FirstSpace(s[1..])
      case None => None
      case Some(i) => Some(i + 1)
  }

  /** The index key: the first word capitalised and, after a space, `!` and the remainder as it is. */
  function IndexKey(t: string): string {
    match FirstSpace(t)
    case None => Capitalize(t)
    case Some(i) => Capitalize(t[..i]) + "!" + t[i + 1..]
  }

  /** `Index`'s `Display`: nothing for an empty text, else `\index{key}`. */
  function RenderIndex(s: string): (r: string)
    ensures s == [] <==> r == []
    ensures s != [] ==> r == "\\index{" + IndexKey(Remap(s)) + "}"
  {
    if s == [] then [] else "\\index{" + IndexKey(Remap(s)) + "}"
  }

  /**
   * Only the first space splits: a text made of a word, a space and any
   * remainder is filed under the word, the remainder kept with its spaces.
   */
  lemma {:induction false} IndexKeySplitsAtFirstSpace(word: string, rest: string)
    requires forall i :: 0 <= i < |word| ==> word[i] != ' '
    ensures IndexKey(word + " " + rest) == Capitalize(word) + "!" + rest
  {
    var t := word + " " + rest;
    FirstSpaceAfterWord(word, rest);
    assert t[..|word|] == word && t[|word| + 1..] == rest;
  }

  lemma {:induction false} FirstSpaceAfterWord(word: string, rest: string)
    requires forall i :: 0 <= i < |word| ==> word[i] != ' '
    ensures FirstSpace(word + " " + rest) == Some(|word|)
  {
    if word != [] {
      assert (word + " " + rest)[1..] == word[1..] + " " + rest;
      FirstSpaceAfterWord(word[1..], rest);
    }
  }

  /** A single word is filed under itself, capitalised, with no sub-entry. */
  lemma IndexKeyOneWord(word: string)
    requires forall i :: 0 <= i < |word| ==> word[i] != ' '
    ensures IndexKey(word) == Capitalize(word)
  {
  }

  /** A text remapped to a word, a space and a remainder is filed under that word. */
  lemma RenderRemapped(s: string, word: string, rest: string)
    requires s != [] && Remap(s) == word + " " + rest
    requires forall i :: 0 <= i < |word| ==> word[i] != ' '
    ensures RenderIndex(s) == "\\index{" + Capitalize(word) + "!" + rest + "}"
  {
    IndexKeySplitsAtFirstSpace(word, rest);
  }

  /**
   * The two remapped names become their last word, a space and the words
   * before it, so by `RenderRemapped` they are filed as "\\index{Silva!Ribeiro da}"
   * and "\\index{IAGP!1º secretário do}".
   */
  lemma RemappedNames()
    ensures Remap("Ribeiro da Silva") == "Silva" + " " + "Ribeiro da"
    ensures Remap("1º secretário do IAGP") == "IAGP" + " " + "1º secretário do"
    ensures Capitalize("Silva") == "Silva" && Capitalize("IAGP") == "IAGP"
    ensures forall i :: 0 <= i < |"Silva"| ==> "Silva"[i] != ' '
    ensures forall i :: 0 <= i < |"IAGP"| ==> "IAGP"[i] != ' '
  {
  }
}
