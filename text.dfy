/**
 * Strings as JavaScript sees them: sequences of UTF-16 code units. Both
 * `s.length` and `s.split('')` count code units, so a character outside the
 * Basic Multilingual Plane is two units and neither of them is a hanzi.
 */
module Text {

  /** One UTF-16 code unit. */
  newtype CodeUnit = x: int | 0 <= x < 0x1_0000

  type JsString = seq<CodeUnit>

  /** `c.match(/[\u4E00-\u9FFF]/)` on a one-unit string: the CJK Unified Ideographs block. */
  predicate IsHanzi(c: CodeUnit) {
    0x4E00 <= c <= 0x9FFF
  }

  /** `s.split('').filter(c => c.match(/[\u4E00-\u9FFF]/))`, defined on the last unit. */
  function Hanzi(s: JsString): (r: JsString)
    ensures |r| <= |s|
    ensures forall i :: 0 <= i < |r| ==> IsHanzi(r[i])
    ensures forall c :: c in r <==> c in s && IsHanzi(c)
  {
    if s == [] then []
    else
      var init, last := s[..|s| - 1], s[|s| - 1];
      assert s == init + [last];
      Hanzi(init) + (if IsHanzi(last) then [last] else [])
  }

  /** Position of the first occurrence of `c` in `s` (`s.indexOf(c)`). */
  function FirstIndex(s: JsString, c: CodeUnit): (k: nat)
    requires c in s
    ensures k < |s| && s[k] == c
    ensures forall j :: 0 <= j < k ==> s[j] != c
  {
    if s[0] == c then 0 else 1 + FirstIndex(s[1..], c)
  }

  /** Filtering a string made only of hanzi changes nothing. */
  lemma {:induction false} HanziOfHanzi(s: JsString)
    requires forall i :: 0 <= i < |s| ==> IsHanzi(s[i])
    ensures Hanzi(s) == s
  {
    if s != [] {
      var init := s[..|s| - 1];
      HanziOfHanzi(init);
      assert s == init + [s[|s| - 1]];
    }
  }

  /** Filtering keeps the relative order in which hanzi first occur. */
  lemma {:induction false} HanziKeepsFirstOrder(s: JsString, c: CodeUnit, d: CodeUnit)
    requires c in s && d in s && IsHanzi(c) && IsHanzi(d)
    ensures FirstIndex(s, c) < FirstIndex(s, d) <==> FirstIndex(Hanzi(s), c) < FirstIndex(Hanzi(s), d)
  {
    var init, last := s[..|s| - 1], s[|s| - 1];
    assert s == init + [last];
    var h := Hanzi(s);
    assert h == Hanzi(init) + (if IsHanzi(last) then [last] else []);
    if c in init && d in init {
      HanziKeepsFirstOrder(init, c, d);
      FirstIndexOfPrefix(init, [last], c);
      FirstIndexOfPrefix(init, [last], d);
      FirstIndexOfPrefix(Hanzi(init), if IsHanzi(last) then [last] else [], c);
      FirstIndexOfPrefix(Hanzi(init), if IsHanzi(last) then [last] else [], d);
    } else if c in init {
      // d first occurs at the last position, after c, in both strings
      FirstIndexOfPrefix(init, [last], c);
      FirstIndexOfPrefix(Hanzi(init), [last], c);
      assert d !in Hanzi(init);
    } else if d in init {
      FirstIndexOfPrefix(init, [last], d);
      FirstIndexOfPrefix(Hanzi(init), [last], d);
      assert c !in Hanzi(init);
    } else {
      assert c == last && d == last;
    }
  }

  /** The first occurrence of a unit that already occurs in a prefix lies in that prefix. */
  lemma {:induction false} FirstIndexOfPrefix(a: JsString, b: JsString, c: CodeUnit)
    requires c in a
    ensures FirstIndex(a + b, c) == FirstIndex(a, c)
  {
    if a[0] != c {
      assert (a + b)[1..] == a[1..] + b;
      FirstIndexOfPrefix(a[1..], b, c);
    }
  }
}
