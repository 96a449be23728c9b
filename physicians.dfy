/**
 * The physician directory page: a search over name, specialty and
 * department, the avatar colour picked from the first letter of the name,
 * and the card shown when nothing matches.
 */
module Physicians {
  import opened Wrappers
  import opened Lists
  import opened Text

  datatype Physician = Physician(
    id: string,
    name: string,
    email: string,
    phone: string,
    specialty: string,
    department: string,
    isActive: bool,
    avatar: string,
    location: string,
    shiftsThisWeek: nat,
    totalHours: nat)

  /** The search term occurs, ignoring case, in the name, the specialty or the department. */
  predicate Matches(p: Physician, term: string)
  {
    || ContainsIgnoringCase(p.name, term)
    || ContainsIgnoringCase(p.specialty, term)
    || ContainsIgnoringCase(p.department, term)
  }

  /** The callback given to `physicians.filter`. */
  function Keep(term: string): Physician -> bool
  {
    p => Matches(p, term)
  }

  /** `filteredPhysicians`: the physicians the search matches, in directory order. */
  function FilterPhysicians(physicians: seq<Physician>, term: string): (r: seq<Physician>)
    ensures IsSubsequence(r, physicians)
    ensures forall i :: 0 <= i < |r| ==> r[i] in physicians && Matches(r[i], term)
    ensures forall i :: 0 <= i < |physicians| && Matches(physicians[i], term) ==> physicians[i] in r
  {
    FilterIsSubsequence(physicians, Keep(term));
    Filter(physicians, Keep(term))
  }

  /** The search is element by element: filtering a concatenation concatenates the results. */
  lemma FilterPhysiciansAppend(a: seq<Physician>, b: seq<Physician>, term: string)
    ensures FilterPhysicians(a + b, term) == FilterPhysicians(a, term) + FilterPhysicians(b, term)
  {
    FilterAppend(a, b, Keep(term));
  }

  /** An empty search lists every physician, active or not. */
  lemma EmptySearchListsAll(physicians: seq<Physician>)
    ensures FilterPhysicians(physicians, "") == physicians
  {
    forall i | 0 <= i < |physicians| ensures Matches(physicians[i], "") {
      EmptyTermMatches(physicians[i].name);
    }
    FilterKeepsAll(physicians, Keep(""));
  }

  /** The "No physicians found" card is shown when the filtered list is empty. */
  predicate ShowsNoResults(physicians: seq<Physician>, term: string)
  {
    |FilterPhysicians(physicians, term)| == 0
  }

  /** The card is shown exactly when no physician matches the search. */
  lemma NoResultsIffNoMatch(physicians: seq<Physician>, term: string)
    ensures ShowsNoResults(physicians, term) <==>
              forall i :: 0 <= i < |physicians| ==> !Matches(physicians[i], term)
  {
    var r := FilterPhysicians(physicians, term);
    if !ShowsNoResults(physicians, term) {
      assert r[0] in physicians;
    }
  }

  /** The avatar palette, in order. */
  function AvatarColors(): seq<string>
  {
    ["bg-blue-500", "bg-green-500", "bg-purple-500", "bg-red-500", "bg-yellow-500", "bg-indigo-500"]
  }

  /**
   * `name.charCodeAt(0) % colors.length`. For an empty name `charCodeAt(0)`
   * is NaN and so is the index: `None`.
   */
  function AvatarColorIndex(name: string): (r: Option<nat>)
    ensures r.Some? <==> |name| > 0
    ensures r.Some? ==> r.value < |AvatarColors()|
    ensures r.Some? ==> (name[0] as int - r.value) % 6 == 0
  {
    if |name| == 0 then None else Some((name[0] as int) % |AvatarColors()|)
  }

  /** `getAvatarColor(name)`: a palette entry for a non-empty name, `undefined` otherwise. */
  function AvatarColor(name: string): (r: Option<string>)
    ensures r.Some? <==> |name| > 0
    ensures r.Some? ==> r.value in AvatarColors()
    ensures r.Some? ==> r.value == AvatarColors()[(name[0] as int) % 6]
  {
    match AvatarColorIndex(name)
    case Some(i) => Some(AvatarColors()[i])
    case None => None
  }
}
