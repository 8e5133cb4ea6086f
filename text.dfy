/**
 * Substring search on strings, the `str::contains` test that the manifest
 * check relies on. `Contains` is the executable search; `OccursAt` is the
 * independent positional definition it is proved against.
 */
module Text {

  /** `needle` sits in `haystack` starting at index `i`. */
  predicate OccursAt(haystack: string, needle: string, i: int) {
    0 <= i && i + |needle| <= |haystack| && haystack[i..i + |needle|] == needle
  }

  /** Naive left-to-right search: try every start position in turn. */
  function Contains(haystack: string, needle: string): (r: bool)
    ensures r <==> exists i :: OccursAt(haystack, needle, i)
    decreases |haystack|
  {
    if |haystack| < |needle| then
      assert forall i :: !OccursAt(haystack, needle, i);
      false
    else if needle <= haystack then
      assert OccursAt(haystack, needle, 0);
      true
    else
      var rest := Contains(haystack[1..], needle);
      ShiftOccurrence(haystack, needle);
      rest
  }

  /** An occurrence at `i + 1` in `haystack` is an occurrence at `i` in its tail, and back. */
  lemma ShiftOccurrence(haystack: string, needle: string)
    requires |haystack| > 0
    ensures forall i :: 0 <= i ==> (OccursAt(haystack, needle, i + 1) <==> OccursAt(haystack[1..], needle, i))
    ensures !(needle <= haystack) ==> !OccursAt(haystack, needle, 0)
    ensures (exists i :: OccursAt(haystack, needle, i)) <==>
            (needle <= haystack || exists i :: OccursAt(haystack[1..], needle, i))
  {
    forall i | 0 <= i && OccursAt(haystack, needle, i + 1)
      ensures OccursAt(haystack[1..], needle, i)
    {
      assert haystack[1..][i..i + |needle|] == haystack[i + 1..i + 1 + |needle|];
    }
    forall i | OccursAt(haystack[1..], needle, i)
      ensures OccursAt(haystack, needle, i + 1)
    {
      assert haystack[1..][i..i + |needle|] == haystack[i + 1..i + 1 + |needle|];
    }
    if exists i :: OccursAt(haystack, needle, i) {
      var i :| OccursAt(haystack, needle, i);
      if i == 0 {
        assert needle == haystack[..|needle|];
      } else {
        assert OccursAt(haystack[1..], needle, i - 1);
      }
    }
    if needle <= haystack {
      assert OccursAt(haystack, needle, 0);
    }
  }

  /** Whatever surrounds it, a piece of text contains itself. */
  lemma ContainsInfix(prefix: string, needle: string, suffix: string)
    ensures Contains(prefix + needle + suffix, needle)
  {
    var h := prefix + needle + suffix;
    assert h[|prefix|..|prefix| + |needle|] == needle;
    assert OccursAt(h, needle, |prefix|);
  }
}
