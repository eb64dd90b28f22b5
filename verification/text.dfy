/**
 * String helpers the handlers lean on: Python's `str.strip()`, Python
 * truthiness of strings, and the substring test behind `LIKE '%term%'`.
 */
module Text {
  import opened Wrappers

  /** The characters Python's `str.isspace()` accepts, which `str.strip()` removes. */
  predicate IsSpace(c: char) {
    || c == ' '
    || '\t' <= c <= '\r'
    || '\U{1c}' <= c <= '\U{1f}'
    || c == '\U{85}' || c == '\U{a0}' || c == '\U{1680}'
    || '\U{2000}' <= c <= '\U{200a}'
    || c == '\U{2028}' || c == '\U{2029}' || c == '\U{202f}' || c == '\U{205f}' || c == '\U{3000}'
  }

  /** A string `not s.strip()` holds of: empty or whitespace only. */
  predicate IsBlank(s: string) {
    forall i :: 0 <= i < |s| ==> IsSpace(s[i])
  }

  /** Python truthiness of an optional string: `if x:` passes for a non-empty string only. */
  predicate Truthy(o: Option<string>) {
    o.Some? && o.value != ""
  }

  /** Number of leading whitespace characters. */
  function LeadCount(s: string): (k: nat)
    ensures k <= |s|
    ensures forall i :: 0 <= i < k ==> IsSpace(s[i])
    ensures k < |s| ==> !IsSpace(s[k])
  {
    if |s| > 0 && IsSpace(s[0]) then 1 + LeadCount(s[1..]) else 0
  }

  /** Number of trailing whitespace characters. */
  function TrailCount(s: string): (k: nat)
    ensures k <= |s|
    ensures forall i :: |s| - k <= i < |s| ==> IsSpace(s[i])
    ensures k < |s| ==> !IsSpace(s[|s| - k - 1])
  {
    if |s| > 0 && IsSpace(s[|s| - 1]) then 1 + TrailCount(s[..|s| - 1]) else 0
  }

  /** Python's `s.strip()`: the slice of `s` between its leading and trailing whitespace. */
  function Strip(s: string): (r: string)
    ensures LeadCount(s) + |r| <= |s|
    ensures r == s[LeadCount(s)..LeadCount(s) + |r|]
    ensures forall i :: 0 <= i < LeadCount(s) ==> IsSpace(s[i])
    ensures forall i :: LeadCount(s) + |r| <= i < |s| ==> IsSpace(s[i])
    ensures r != [] ==> !IsSpace(r[0]) && !IsSpace(r[|r| - 1])
    ensures r == [] <==> IsBlank(s)
  {
    var rest := s[LeadCount(s)..];
    rest[..|rest| - TrailCount(rest)]
  }

  /** Stripping a second time removes nothing. */
  lemma StripIdempotent(s: string)
    ensures Strip(Strip(s)) == Strip(s)
  {
    var r := Strip(s);
    if r != [] {
      assert LeadCount(r) == 0;
      assert TrailCount(r[LeadCount(r)..]) == 0 by {
        assert r[LeadCount(r)..] == r;
      }
    }
  }

  /** `needle` occurs in `hay` starting at index `i`. */
  predicate OccursAt(hay: string, needle: string, i: int) {
    0 <= i && i + |needle| <= |hay| && hay[i..i + |needle|] == needle
  }

  /**
   * The substring test SQL's `column LIKE '%term%'` performs (wildcard
   * escaping and collation-dependent case folding are not modelled).
   */
  function Contains(hay: string, needle: string): (r: bool)
    ensures r <==> exists i :: OccursAt(hay, needle, i)
    decreases |hay|
  {
    if |needle| > |hay| then
      false
    else if hay[..|needle|] == needle then
      assert OccursAt(hay, needle, 0);
      true
    else
      OccurrencesShift(hay, needle);
      Contains(hay[1..], needle)
  }

  /** An occurrence in a non-empty `hay` is at index 0 or is an occurrence in `hay[1..]` shifted by one. */
  lemma OccurrencesShift(hay: string, needle: string)
    requires |needle| <= |hay| && |hay| > 0
    ensures (exists i :: OccursAt(hay, needle, i))
        <==> hay[..|needle|] == needle || exists j :: OccursAt(hay[1..], needle, j)
  {
    if exists i :: OccursAt(hay, needle, i) {
      var i :| OccursAt(hay, needle, i);
      if i > 0 {
        assert hay[1..][i - 1..i - 1 + |needle|] == hay[i..i + |needle|];
        assert OccursAt(hay[1..], needle, i - 1);
      }
    }
    if exists j :: OccursAt(hay[1..], needle, j) {
      var j :| OccursAt(hay[1..], needle, j);
      assert hay[1..][j..j + |needle|] == hay[j + 1..j + 1 + |needle|];
      assert OccursAt(hay, needle, j + 1);
    }
    if hay[..|needle|] == needle {
      assert OccursAt(hay, needle, 0);
    }
  }

  /** The empty pattern occurs in every string, and every string contains itself. */
  lemma ContainsTrivial(s: string)
    ensures Contains(s, "")
    ensures Contains(s, s)
  {
    assert OccursAt(s, "", 0);
    assert OccursAt(s, s, 0);
  }
}
