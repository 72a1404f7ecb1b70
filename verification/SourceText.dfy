/** Strings as the planner sees them: exact substring search, Python slices and blank text. */
module SourceText {

  /** `needle` stands in `hay` at offset `i`; occurrences may overlap. */
  predicate OccursAt(hay: string, needle: string, i: int) {
    0 <= i && i + |needle| <= |hay| && hay[i..i + |needle|] == needle
  }

  /** `hay.find(needle, from)`, -1 when there is no match. */
  function Find(hay: string, needle: string, from: nat): (r: int)
    ensures r == -1 || (from <= r && OccursAt(hay, needle, r))
    decreases |hay| + 1 - from
  {
    if from + |needle| > |hay| then -1
    else if hay[from..from + |needle|] == needle then from
    else Find(hay, needle, from + 1)
  }

  /** The match found is the first one at or after `from`. */
  lemma {:induction false} FindIsFirst(hay: string, needle: string, from: nat)
    ensures var r := Find(hay, needle, from);
            forall i :: from <= i && (r == -1 || i < r) ==> !OccursAt(hay, needle, i)
    decreases |hay| + 1 - from
  {
    if from + |needle| <= |hay| && hay[from..from + |needle|] != needle {
      FindIsFirst(hay, needle, from + 1);
    }
  }

  /** The characters `str.strip()` removes. */
  predicate IsSpace(c: char) {
    var u := c as int;
    || 9 <= u <= 13 || 28 <= u <= 32 || u == 0x85 || u == 0xA0 || u == 0x1680
    || 0x2000 <= u <= 0x200A || u == 0x2028 || u == 0x2029 || u == 0x202F || u == 0x205F || u == 0x3000
  }

  /** `not s.strip()` */
  predicate Blank(s: string) {
    forall i :: 0 <= i < |s| ==> IsSpace(s[i])
  }

  /** Python's reading of a slice bound: negative counts from the end, the rest is clamped. */
  function SliceBound(n: nat, i: int): (b: nat)
    ensures b <= n
    ensures 0 <= i <= n ==> b == i
  {
    if i < 0 then (if i + n < 0 then 0 else i + n) else if i > n then n else i
  }

  /** `s[lo:hi]` */
  function Slice(s: string, lo: int, hi: int): (r: string)
    ensures 0 <= lo <= hi <= |s| ==> r == s[lo..hi]
  {
    var a, b := SliceBound(|s|, lo), SliceBound(|s|, hi);
    if a <= b then s[a..b] else ""
  }
}
