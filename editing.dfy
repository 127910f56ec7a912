/**
 * The "Clean Up" button: keep only the hanzi of the input and drop every
 * repeat, keeping the first occurrence of each.
 */
module Editing {
  import opened Text

  /** Drop every unit that already occurred earlier; defined on the last unit. */
  function Dedup(s: JsString): (r: JsString)
    ensures |r| <= |s|
    ensures forall c :: c in r <==> c in s
  {
    if s == [] then []
    else
      var init, last := s[..|s| - 1], s[|s| - 1];
      assert s == init + [last];
      var d := Dedup(init);
      if last in d then d else d + [last]
  }

  /** What the button leaves in the input. */
  function Sanitized(s: JsString): JsString
  {
    Dedup(Hanzi(s))
  }

  /** Every unit appears at most once. */
  predicate NoRepeats(s: JsString) {
    forall i, j :: 0 <= i < j < |s| ==> s[i] != s[j]
  }

  /**
   * The button's handler: filter to hanzi, then walk them with a `seen` set,
   * appending each one not seen before.
   */
  method SanitizeChars(characters: JsString) returns (r: JsString)
    ensures r == Sanitized(characters)
  {
    var chineseChars := Hanzi(characters);
    var uniqueChars: JsString := [];
    var seen: set<CodeUnit> := {};
    var i := 0;
    while i < |chineseChars|
      invariant i <= |chineseChars|
      invariant uniqueChars == Dedup(chineseChars[..i])
      invariant forall c :: c in seen <==> c in uniqueChars
    {
      var ch := chineseChars[i];
      assert chineseChars[..i + 1][..i] == chineseChars[..i];
      if ch !in seen {
        seen := seen + {ch};
        uniqueChars := uniqueChars + [ch];
      }
      i := i + 1;
    }
    assert chineseChars[..i] == chineseChars;
    r := uniqueChars;
  }

  // ---------------------------------------------------------------------
  // Properties of the cleaned-up input
  // ---------------------------------------------------------------------

  /** Only hanzi are left, each once, and exactly the hanzi of the input are left. */
  lemma SanitizedContents(s: JsString)
    ensures forall i :: 0 <= i < |Sanitized(s)| ==> IsHanzi(Sanitized(s)[i])
    ensures NoRepeats(Sanitized(s))
    ensures forall c :: c in Sanitized(s) <==> c in s && IsHanzi(c)
  {
    DedupNoRepeats(Hanzi(s));
  }

  lemma {:induction false} DedupNoRepeats(s: JsString)
    ensures NoRepeats(Dedup(s))
  {
    if s != [] {
      DedupNoRepeats(s[..|s| - 1]);
    }
  }

  /**
   * The hanzi stay in the order of their first occurrence in the input. Since
   * first occurrences are distinct positions of the input, this also makes
   * the result a subsequence of the input.
   */
  lemma SanitizedKeepsFirstOrder(s: JsString, i: nat, j: nat)
    requires i < j < |Sanitized(s)|
    ensures Sanitized(s)[i] in s && Sanitized(s)[j] in s
    ensures FirstIndex(s, Sanitized(s)[i]) < FirstIndex(s, Sanitized(s)[j])
  {
    var h, r := Hanzi(s), Sanitized(s);
    DedupIsFirstOccurrences(h, i, j);
    HanziKeepsFirstOrder(s, r[i], r[j]);
  }

  /** Dedup lists units in the order of their first occurrence. */
  lemma {:induction false} DedupIsFirstOccurrences(s: JsString, i: nat, j: nat)
    requires i < j < |Dedup(s)|
    ensures Dedup(s)[i] in s && Dedup(s)[j] in s
    ensures FirstIndex(s, Dedup(s)[i]) < FirstIndex(s, Dedup(s)[j])
  {
    var init, last := s[..|s| - 1], s[|s| - 1];
    assert s == init + [last];
    var d := Dedup(init);
    var r := Dedup(s);
    assert r[i] in r && r[j] in r;
    if j < |d| {
      DedupIsFirstOccurrences(init, i, j);
      FirstIndexOfPrefix(init, [last], r[i]);
      FirstIndexOfPrefix(init, [last], r[j]);
    } else {
      // r[j] is `last`, appended because it does not occur in `init`
      assert r[j] == last && last !in init;
      assert r[i] in d;
      FirstIndexOfPrefix(init, [last], r[i]);
      assert FirstIndex(s, r[j]) == |init| by {
        FirstIndexNotInPrefix(init, last);
      }
    }
  }

  lemma {:induction false} FirstIndexNotInPrefix(a: JsString, c: CodeUnit)
    requires c !in a
    ensures FirstIndex(a + [c], c) == |a|
  {
    if a != [] {
      assert (a + [c])[1..] == a[1..] + [c];
      FirstIndexNotInPrefix(a[1..], c);
    }
  }

  /** Pressing the button twice leaves what pressing it once left. */
  lemma SanitizeIdempotent(s: JsString)
    ensures Sanitized(Sanitized(s)) == Sanitized(s)
  {
    var r := Sanitized(s);
    SanitizedContents(s);
    HanziOfHanzi(r);
    DedupOfNoRepeats(r);
  }

  lemma {:induction false} DedupOfNoRepeats(s: JsString)
    requires NoRepeats(s)
    ensures Dedup(s) == s
  {
    if s != [] {
      var init := s[..|s| - 1];
      DedupOfNoRepeats(init);
      assert s == init + [s[|s| - 1]];
    }
  }
}
