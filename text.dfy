/**
 * Case-insensitive substring search as the search boxes do it:
 * `text.toLowerCase().includes(term.toLowerCase())`, with case folding
 * restricted to ASCII letters.
 */
module Text {

  predicate IsUpper(c: char) { 'A' <= c <= 'Z' }

  /** ASCII lower-casing of one character; every other character is unchanged. */
  function LowerChar(c: char): (r: char)
    ensures !IsUpper(r)
    ensures IsUpper(c) ==> r as int == c as int + 32
    ensures !IsUpper(c) ==> r == c
  {
    if IsUpper(c) then (c as int + 32) as char else c
  }

  /** `s.toLowerCase()` on ASCII letters. */
  function Lower(s: string): (r: string)
    ensures |r| == |s|
    ensures forall i :: 0 <= i < |s| ==> r[i] == LowerChar(s[i])
  {
    if s == [] then [] else [LowerChar(s[0])] + Lower(s[1..])
  }

  /** `hay.includes(needle)`: `needle` occurs in `hay` at some position. */
  function Includes(hay: string, needle: string): (r: bool)
    ensures |needle| == 0 ==> r
    ensures |needle| > |hay| ==> !r
  {
    if |needle| > |hay| then false
    else if hay[..|needle|] == needle then true
    else Includes(hay[1..], needle)
  }

  /** `needle` occurs in `hay` starting at index `i`. */
  predicate OccursAt(hay: string, needle: string, i: int)
  {
    0 <= i && i + |needle| <= |hay| && hay[i..i + |needle|] == needle
  }

  /** `Includes` holds exactly when there is a position where `needle` occurs. */
  lemma {:induction false} IncludesIffOccurs(hay: string, needle: string)
    ensures Includes(hay, needle) <==> exists i :: OccursAt(hay, needle, i)
  {
    if |needle| > |hay| {
    } else if hay[..|needle|] == needle {
      assert OccursAt(hay, needle, 0);
    } else {
      forall i | OccursAt(hay[1..], needle, i) ensures OccursAt(hay, needle, i + 1) {
        forall k | 0 <= k < |needle| ensures hay[i + 1 + k] == needle[k] {
          assert hay[1..][i + k] == hay[i + 1 + k];
        }
        assert hay[i + 1..i + 1 + |needle|] == needle;
      }
      forall i | OccursAt(hay, needle, i) ensures i >= 1 && OccursAt(hay[1..], needle, i - 1) {
        assert i != 0;
        forall k | 0 <= k < |needle| ensures hay[1..][i - 1 + k] == needle[k] {
          assert hay[1..][i - 1 + k] == hay[i + k];
        }
        assert hay[1..][i - 1..i - 1 + |needle|] == needle;
      }
      IncludesIffOccurs(hay[1..], needle);
    }
  }

  /** The search test used by every list on the pages. */
  predicate ContainsIgnoringCase(text: string, term: string)
  {
    Includes(Lower(text), Lower(term))
  }

  /** An empty search term matches every text. */
  lemma EmptyTermMatches(text: string)
    ensures ContainsIgnoringCase(text, "")
  {
  }

  /** The test ignores the case of the term: upper-casing a letter of it changes nothing. */
  lemma {:induction false} TermCaseIrrelevant(text: string, term: string, term': string)
    requires |term| == |term'|
    requires forall i :: 0 <= i < |term| ==> LowerChar(term[i]) == LowerChar(term'[i])
    ensures ContainsIgnoringCase(text, term) == ContainsIgnoringCase(text, term')
  {
    assert Lower(term) == Lower(term');
  }
}
