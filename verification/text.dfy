/** Substring search on text, as JavaScript's `String.prototype.includes` does it;
    the customer list's search uses it, and the detail page uses it to say where a trimmed note sits. */
module Text {
  /** `needle` occurs in `hay` starting at position `k`. */
  predicate OccursAt(hay: string, needle: string, k: int)
  {
    0 <= k && k + |needle| <= |hay| && hay[k..k + |needle|] == needle
  }

  /** `hay.includes(needle)`: `needle` occurs in `hay` at some position. */
  function Includes(hay: string, needle: string): (r: bool)
    ensures r <==> exists k :: OccursAt(hay, needle, k)
    decreases |hay|
  {
    if |needle| > |hay| then false
    else if hay[..|needle|] == needle then
      assert OccursAt(hay, needle, 0);
      true
    else
      IncludesShift(hay, needle);
      Includes(hay[1..], needle)
  }

  lemma IncludesShift(hay: string, needle: string)
    requires |needle| <= |hay| && hay[..|needle|] != needle
    ensures (exists k :: OccursAt(hay, needle, k)) <==> (exists k :: OccursAt(hay[1..], needle, k))
  {
    if exists k :: OccursAt(hay, needle, k) {
      var k :| OccursAt(hay, needle, k);
      assert k != 0;
      assert hay[1..][k - 1..k - 1 + |needle|] == needle;
      assert OccursAt(hay[1..], needle, k - 1);
    }
    if exists k :: OccursAt(hay[1..], needle, k) {
      var k :| OccursAt(hay[1..], needle, k);
      assert hay[k + 1..k + 1 + |needle|] == needle;
      assert OccursAt(hay, needle, k + 1);
    }
  }

  /** Everything includes the empty string, and a text that includes `s + t` includes `s`. */
  lemma IncludesPrefix(hay: string, s: string, t: string)
    ensures Includes(hay, "")
    ensures Includes(hay, s + t) ==> Includes(hay, s)
  {
    assert OccursAt(hay, "", 0);
    if Includes(hay, s + t) {
      var k :| OccursAt(hay, s + t, k);
      assert hay[k..k + |s|] == (s + t)[..|s|] == s;
      assert OccursAt(hay, s, k);
    }
  }
}
