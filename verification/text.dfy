/**
 * String primitives the source relies on: `toLowerCase`, `includes`, `startsWith`
 * and `join`, over Dafny strings (sequences of Unicode scalar values).
 */
module Text {

  /**
   * Lower-case mapping of one character, for the Basic Latin, Latin-1 Supplement
   * and Latin Extended-A blocks (the latter holds every Czech letter: Č Ď Ě Ň Ř Š Ť Ů Ž).
   * Characters outside these blocks, and U+0130 whose lower case is two characters,
   * are returned unchanged.
   */
  function LowerChar(c: char): char
  {
    var n := c as int;
    if 'A' <= c <= 'Z' then (n + 32) as char
    else if 0xC0 <= n <= 0xDE && n != 0xD7 then (n + 32) as char
    else if (0x100 <= n <= 0x12F || 0x132 <= n <= 0x137 || 0x14A <= n <= 0x177) && n % 2 == 0 then (n + 1) as char
    else if (0x139 <= n <= 0x148 || 0x179 <= n <= 0x17E) && n % 2 == 1 then (n + 1) as char
    else if n == 0x178 then 0xFF as char
    else c
  }

  /** Lower-casing an already lower-cased character changes nothing. */
  lemma LowerCharIdempotent(c: char)
    ensures LowerChar(LowerChar(c)) == LowerChar(c)
  {
  }

  /** `String.prototype.toLowerCase`: character-wise lower-casing. */
  function Lower(s: string): (r: string)
    ensures |r| == |s|
    ensures forall i :: 0 <= i < |s| ==> r[i] == LowerChar(s[i])
  {
    seq(|s|, i requires 0 <= i < |s| => LowerChar(s[i]))
  }

  /** Lower-casing is idempotent, so comparing lower-cased strings ignores case once and for all. */
  lemma LowerIdempotent(s: string)
    ensures Lower(Lower(s)) == Lower(s)
  {
    forall i | 0 <= i < |s|
      ensures Lower(Lower(s))[i] == Lower(s)[i]
    {
      LowerCharIdempotent(s[i]);
    }
  }

  /** `s.startsWith(prefix)`. */
  predicate StartsWith(s: string, prefix: string)
  {
    |prefix| <= |s| && s[..|prefix|] == prefix
  }

  /** `hay.includes(needle)`: `needle` occurs at some position of `hay`; the empty needle occurs everywhere. */
  predicate Contains(hay: string, needle: string)
    decreases |hay|
  {
    StartsWith(hay, needle) || (hay != [] && Contains(hay[1..], needle))
  }

  /** `needle` occurs in `hay` starting at position `i`. */
  predicate OccursAt(hay: string, needle: string, i: int)
  {
    0 <= i && i + |needle| <= |hay| && hay[i..i + |needle|] == needle
  }

  /** `Contains` holds exactly when `needle` sits at some position of `hay`. */
  lemma {:induction false} ContainsAt(hay: string, needle: string)
    ensures Contains(hay, needle) <==> exists i :: OccursAt(hay, needle, i)
    decreases |hay|
  {
    if StartsWith(hay, needle) {
      assert OccursAt(hay, needle, 0);
    } else if hay == [] {
      assert |needle| > 0;
    } else {
      ContainsAt(hay[1..], needle);
      if exists i :: OccursAt(hay, needle, i) {
        var i :| OccursAt(hay, needle, i);
        assert i != 0;
        assert hay[1..][i - 1..i - 1 + |needle|] == needle;
        assert OccursAt(hay[1..], needle, i - 1);
      }
      if Contains(hay[1..], needle) {
        var j :| OccursAt(hay[1..], needle, j);
        assert hay[j + 1..j + 1 + |needle|] == needle;
        assert OccursAt(hay, needle, j + 1);
      }
    }
  }

  /** Every string contains the empty string. */
  lemma ContainsEmpty(hay: string)
    ensures Contains(hay, "")
  {
    assert StartsWith(hay, "");
  }

  /** The middle part of a concatenation is contained in it. */
  lemma ContainsMiddle(a: string, b: string, c: string)
    ensures Contains(a + b + c, b)
  {
    assert (a + b + c)[|a|..|a| + |b|] == b;
    assert OccursAt(a + b + c, b, |a|);
    ContainsAt(a + b + c, b);
  }

  /** Text found in the tail of a concatenation is found in the whole. */
  lemma ContainsInSuffix(a: string, b: string, needle: string)
    requires Contains(b, needle)
    ensures Contains(a + b, needle)
  {
    ContainsAt(b, needle);
    var i :| OccursAt(b, needle, i);
    assert (a + b)[|a| + i..|a| + i + |needle|] == b[i..i + |needle|];
    assert OccursAt(a + b, needle, |a| + i);
    ContainsAt(a + b, needle);
  }

  /** `names.join(sep)`. */
  function Join(names: seq<string>, sep: string): string
  {
    if names == [] then ""
    else if |names| == 1 then names[0]
    else names[0] + sep + Join(names[1..], sep)
  }

  /** Every joined name can be found in the joined text. */
  lemma {:induction false} JoinContains(names: seq<string>, sep: string, k: nat)
    requires k < |names|
    ensures Contains(Join(names, sep), names[k])
  {
    if |names| == 1 {
      ContainsMiddle("", names[0], "");
      assert "" + names[0] + "" == names[0];
    } else if k == 0 {
      ContainsMiddle("", names[0], sep + Join(names[1..], sep));
      assert "" + names[0] + (sep + Join(names[1..], sep)) == Join(names, sep);
    } else {
      JoinContains(names[1..], sep, k - 1);
      var tail := Join(names[1..], sep);
      ContainsAt(tail, names[k]);
      var i :| OccursAt(tail, names[k], i);
      var prefix := names[0] + sep;
      assert Join(names, sep) == prefix + tail;
      assert (prefix + tail)[|prefix| + i..|prefix| + i + |names[k]|] == tail[i..i + |names[k]|];
      assert OccursAt(Join(names, sep), names[k], |prefix| + i);
      ContainsAt(Join(names, sep), names[k]);
    }
  }
}
