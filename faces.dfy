/** The six face labels of the puzzle and the fixed order in which the
    faces are scanned (main.js:16-30). */
module Faces {
  import opened Wrappers

  /** A facelet label. Each label is also the name of the face whose centre
      carries that colour: white U, yellow D, blue F, green B, red L, orange R. */
  datatype Face = U | D | F | B | L | R

  /** The one-letter string the source stores for a label. */
  function Letter(f: Face): char
  {
    match f
    case U => 'U'
    case D => 'D'
    case F => 'F'
    case B => 'B'
    case L => 'L'
    case R => 'R'
  }

  /** Looking a character up as a key of the source's per-face tables
      (`axisMap`, `layerMap`): a character that names no face has no entry. */
  function FaceOf(c: char): (r: Option<Face>)
    ensures r.Some? ==> Letter(r.value) == c
    ensures r.None? ==> forall f: Face :: Letter(f) != c
  {
    if c == 'U' then Some(U)
    else if c == 'D' then Some(D)
    else if c == 'F' then Some(F)
    else if c == 'B' then Some(B)
    else if c == 'L' then Some(L)
    else if c == 'R' then Some(R)
    else None
  }

  lemma LetterRoundTrip(f: Face)
    ensures FaceOf(Letter(f)) == Some(f)
  {
  }

  /** `SCAN_ORDER`: the faces in the order the user must show them. */
  const ScanOrder: seq<Face> := [U, L, F, R, B, D]

  /** The faces captured once the first `k` entries of the scan order are done. */
  function ScannedFaces(k: nat): set<Face>
    requires k <= |ScanOrder|
  {
    set i | 0 <= i < k :: ScanOrder[i]
  }

  /** The scan order lists every face exactly once. */
  lemma ScanOrderIsPermutation()
    ensures |ScanOrder| == 6
    ensures forall i, j :: 0 <= i < j < |ScanOrder| ==> ScanOrder[i] != ScanOrder[j]
    ensures forall f: Face :: f in ScannedFaces(|ScanOrder|)
  {
    forall f: Face ensures f in ScannedFaces(|ScanOrder|) {
      var i := match f case U => 0 case L => 1 case F => 2 case R => 3 case B => 4 case D => 5;
      assert ScanOrder[i] == f;
    }
  }
}
