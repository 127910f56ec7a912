/**
 * Looking up pinyin and definitions: `generateCharInfo` builds a map from
 * every code unit of the text to its dictionary entry, and the sheet turns
 * the result into the pinyin it prints above each character.
 */
module CharInfo {
  import opened Wrappers
  import opened Text
  import opened Pagination

  /** A dictionary record; a field is None when it is missing or null. */
  datatype DictEntry = DictEntry(pinyin: Option<string>, definition: Option<string>)

  /** The dictionary, keyed by one-unit strings. */
  type Dictionary = map<CodeUnit, DictEntry>

  /** One value of the returned map. */
  datatype Entry = Entry(pinyin: string, definition: string)

  /** The value stored for `c`: the entry's fields `|| ''`, or two empty strings without an entry. */
  function EntryFor(dictionary: Dictionary, c: CodeUnit): Entry
  {
    if c in dictionary then
      Entry(dictionary[c].pinyin.GetOr(""), dictionary[c].definition.GetOr(""))
    else Entry("", "")
  }

  /** The map as a function of the set of units in the text. */
  function CharInfoOf(text: JsString, dictionary: Dictionary): map<CodeUnit, Entry>
  {
    map c | c in text :: EntryFor(dictionary, c)
  }

  /**
   * `generateCharInfo`: an empty text gives the empty map; otherwise every
   * unit of the text, hanzi or not, gets an entry, overwritten on each repeat.
   */
  method GenerateCharInfo(text: JsString, dictionary: Dictionary) returns (m: map<CodeUnit, Entry>)
    ensures text == [] ==> m == map[]
    ensures forall c :: c in m <==> c in text
    ensures forall c :: c in m && c in dictionary ==>
      m[c] == Entry(dictionary[c].pinyin.GetOr(""), dictionary[c].definition.GetOr(""))
    ensures forall c :: c in m && c !in dictionary ==> m[c] == Entry("", "")
    ensures m == CharInfoOf(text, dictionary)
  {
    if |text| == 0 {
      return map[];
    }
    m := map[];
    var i := 0;
    while i < |text|
      invariant i <= |text|
      invariant m == CharInfoOf(text[..i], dictionary)
    {
      var ch := text[i];
      assert text[..i + 1] == text[..i] + [ch];
      m := m[ch := EntryFor(dictionary, ch)];
      i := i + 1;
    }
    assert text[..i] == text;
  }

  /** Repeats and order do not matter: texts with the same units give the same map. */
  lemma SameUnitsSameInfo(a: JsString, b: JsString, dictionary: Dictionary)
    requires forall c :: c in a <==> c in b
    ensures CharInfoOf(a, dictionary) == CharInfoOf(b, dictionary)
  {
  }

  // ---------------------------------------------------------------------
  // What the sheet makes of the result
  // ---------------------------------------------------------------------

  /** The name of the property the sheet reads from the result: "charMap". */
  const CharMapName: JsString := [0x63, 0x68, 0x61, 0x72, 0x4D, 0x61, 0x70]

  /** The property names of the returned object: the one-unit strings of its keys. */
  function PropertyNames(m: map<CodeUnit, Entry>): (names: set<JsString>)
    ensures forall name :: name in names ==> |name| == 1
  {
    set c | c in m :: [c]
  }

  /**
   * `charInfoMap` as the sheet sets it after a lookup: {} when there is no
   * hanzi, otherwise `result.charMap || {}`. The returned object has only
   * one-unit property names, so `result.charMap` is always undefined and the
   * map is always empty.
   */
  function FetchedInfoAsWritten(text: JsString, dictionary: Dictionary): (info: map<CodeUnit, Info>)
    ensures info == map[]
  {
    if Hanzi(text) == [] then map[]
    else
      var result := CharInfoOf(text, dictionary);
      if CharMapName in PropertyNames(result) then (assert false; map[])
      else map[]
  }

  /** The evidently intended `charInfoMap`: each unit's pinyin, with no pinyinAll. */
  function FetchedInfo(text: JsString, dictionary: Dictionary): (info: map<CodeUnit, Info>)
    ensures Hanzi(text) == [] ==> info == map[]
    ensures Hanzi(text) != [] ==> forall c :: c in info <==> c in text
    ensures forall c :: c in info ==>
      info[c] == Info(if c in dictionary then dictionary[c].pinyin.GetOr("") else "", "")
  {
    if Hanzi(text) == [] then map[]
    else
      var result := CharInfoOf(text, dictionary);
      map c | c in result :: Info(result[c].pinyin, "")
  }

  /** With the intended map, every character block's header shows its dictionary pinyin. */
  lemma HeaderShowsDictionaryPinyin(text: JsString, dictionary: Dictionary, k: nat)
    requires k < |Hanzi(text)|
    ensures var c := Hanzi(text)[k];
      CharBlockFor(FetchedInfo(text, dictionary), c, k).HeaderText()
        == (if c in dictionary then dictionary[c].pinyin.GetOr("") else "")
  {
    var c := Hanzi(text)[k];
    assert c in Hanzi(text);
  }

  /** A hanzi with pinyin in the dictionary, for the lemma below. */
  const Ni: CodeUnit := 0x4F60

  /**
   * As written, the dictionary's pinyin never reaches the page: for the text
   * U+4F60 with pinyin "ni3" the block carries empty pinyin, while the
   * intended map carries "ni3".
   */
  lemma PinyinLostAsWritten()
    ensures var dictionary := map[Ni := DictEntry(Some("ni3"), Some("you"))];
      && CharBlockFor(FetchedInfoAsWritten([Ni], dictionary), Ni, 0).HeaderText() == ""
      && CharBlockFor(FetchedInfo([Ni], dictionary), Ni, 0).HeaderText() == "ni3"
  {
    var dictionary := map[Ni := DictEntry(Some("ni3"), Some("you"))];
    assert Hanzi([Ni]) == [Ni];
    HeaderShowsDictionaryPinyin([Ni], dictionary, 0);
  }
}
