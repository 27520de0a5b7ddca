/** The canonical facelet string handed to the solver: the stored faces
    concatenated in scan order, U L F R B D (main.js:194). */
module Serial {
  import opened Faces

  /** A face's stored labels written as one letter each, joined with no separator. */
  function Word(labels: seq<Face>): (w: string)
    ensures |w| == |labels|
  {
    seq(|labels|, j requires 0 <= j < |labels| => Letter(labels[j]))
  }

  /** Every face of the scan order has an entry. */
  predicate HasScanFaces(cubeState: map<Face, seq<Face>>)
  {
    forall i :: 0 <= i < |ScanOrder| ==> ScanOrder[i] in cubeState
  }

  /** Every stored face holds nine labels. */
  predicate NineEach(cubeState: map<Face, seq<Face>>)
  {
    forall f :: f in cubeState ==> |cubeState[f]| == 9
  }

  /** The canonical string: each face of the scan order, in that order,
      contributes its labels as letters. With nine labels per face it has
      54 characters. */
  function Serialize(cubeState: map<Face, seq<Face>>): (r: string)
    requires HasScanFaces(cubeState)
    ensures NineEach(cubeState) ==> |r| == 54
  {
    if NineEach(cubeState) then SerializeFromLength(cubeState, 0); SerializeFrom(cubeState, 0)
    else SerializeFrom(cubeState, 0)
  }

  /** The part of the string that starts with scan-order entry `i`. */
  function SerializeFrom(cubeState: map<Face, seq<Face>>, i: nat): string
    requires HasScanFaces(cubeState) && i <= |ScanOrder|
    decreases |ScanOrder| - i
  {
    if i == |ScanOrder| then "" else Word(cubeState[ScanOrder[i]]) + SerializeFrom(cubeState, i + 1)
  }

  lemma {:induction false} SerializeFromLength(cubeState: map<Face, seq<Face>>, i: nat)
    requires HasScanFaces(cubeState) && NineEach(cubeState) && i <= |ScanOrder|
    ensures |SerializeFrom(cubeState, i)| == 9 * (|ScanOrder| - i)
    decreases |ScanOrder| - i
  {
    if i < |ScanOrder| {
      SerializeFromLength(cubeState, i + 1);
    }
  }

  lemma {:induction false} SerializeFromAt(cubeState: map<Face, seq<Face>>, i: nat, k: nat, j: nat)
    requires HasScanFaces(cubeState) && NineEach(cubeState)
    requires i <= k < |ScanOrder| && j < 9
    ensures 9 * (k - i) + j < |SerializeFrom(cubeState, i)|
    ensures SerializeFrom(cubeState, i)[9 * (k - i) + j] == Letter(cubeState[ScanOrder[k]][j])
    decreases k - i
  {
    SerializeFromLength(cubeState, i);
    SerializeFromLength(cubeState, i + 1);
    var w := Word(cubeState[ScanOrder[i]]);
    if k > i {
      SerializeFromAt(cubeState, i + 1, k, j);
      assert SerializeFrom(cubeState, i)[9 * (k - i) + j] == SerializeFrom(cubeState, i + 1)[9 * (k - i - 1) + j];
    } else {
      assert SerializeFrom(cubeState, i)[j] == w[j];
    }
  }

  /** A fully scanned state gives 54 characters, and characters 9k..9k+8 are
      the labels stored for the k-th face of the scan order, in order. */
  lemma SerializeLayout(cubeState: map<Face, seq<Face>>, k: nat, j: nat)
    requires HasScanFaces(cubeState) && NineEach(cubeState)
    requires k < |ScanOrder| && j < 9
    ensures |Serialize(cubeState)| == 54
    ensures Serialize(cubeState)[9 * k + j] == Letter(cubeState[ScanOrder[k]][j])
  {
    SerializeFromLength(cubeState, 0);
    SerializeFromAt(cubeState, 0, k, j);
  }

  /** When every stored centre equals its key, character 9k+4 is the letter
      of the k-th face of the scan order. */
  lemma SerializeCentres(cubeState: map<Face, seq<Face>>, k: nat)
    requires HasScanFaces(cubeState) && NineEach(cubeState)
    requires forall f :: f in cubeState ==> cubeState[f][4] == f
    requires k < |ScanOrder|
    ensures |Serialize(cubeState)| == 54
    ensures Serialize(cubeState)[9 * k + 4] == Letter(ScanOrder[k])
  {
    SerializeLayout(cubeState, k, 4);
  }

  /** No information is lost: two fully scanned states with the same string
      are the same state. */
  lemma SerializeInjective(a: map<Face, seq<Face>>, b: map<Face, seq<Face>>)
    requires HasScanFaces(a) && NineEach(a) && a.Keys == ScannedFaces(|ScanOrder|)
    requires HasScanFaces(b) && NineEach(b) && b.Keys == ScannedFaces(|ScanOrder|)
    requires Serialize(a) == Serialize(b)
    ensures a == b
  {
    forall k | 0 <= k < |ScanOrder|
      ensures a[ScanOrder[k]] == b[ScanOrder[k]]
    {
      forall j | 0 <= j < 9
        ensures a[ScanOrder[k]][j] == b[ScanOrder[k]][j]
      {
        SerializeLayout(a, k, j);
        SerializeLayout(b, k, j);
        LetterRoundTrip(a[ScanOrder[k]][j]);
        LetterRoundTrip(b[ScanOrder[k]][j]);
      }
    }
  }

  /** A solved cube: every face holds nine copies of its own label. */
  function SolvedState(): (m: map<Face, seq<Face>>)
    ensures HasScanFaces(m) && NineEach(m)
  {
    map f | f in ScannedFaces(|ScanOrder|) :: seq(9, _ => f)
  }

  /** Scanning a solved cube yields the solved canonical string. */
  lemma SolvedSerialization()
    ensures Serialize(SolvedState())
         == "UUUUUUUUU" + "LLLLLLLLL" + "FFFFFFFFF" + "RRRRRRRRR" + "BBBBBBBBB" + "DDDDDDDDD"
  {
    SerializeUnfold(SolvedState());
    SolvedWords();
  }

  /** The canonical string is the six faces' words in scan order. */
  lemma SerializeUnfold(m: map<Face, seq<Face>>)
    requires HasScanFaces(m)
    ensures forall f: Face :: f in m
    ensures Serialize(m) == Word(m[U]) + Word(m[L]) + Word(m[F]) + Word(m[R]) + Word(m[B]) + Word(m[D])
  {
    assert ScanOrder[0] in m && ScanOrder[1] in m && ScanOrder[2] in m;
    assert ScanOrder[3] in m && ScanOrder[4] in m && ScanOrder[5] in m;
    forall f: Face ensures f in m {
      match f
      case U => assert ScanOrder[0] == U;
      case L => assert ScanOrder[1] == L;
      case F => assert ScanOrder[2] == F;
      case R => assert ScanOrder[3] == R;
      case B => assert ScanOrder[4] == B;
      case D => assert ScanOrder[5] == D;
    }
    calc {
      Serialize(m);
      Word(m[U]) + SerializeFrom(m, 1);
      Word(m[U]) + (Word(m[L]) + SerializeFrom(m, 2));
      Word(m[U]) + (Word(m[L]) + (Word(m[F]) + SerializeFrom(m, 3)));
      Word(m[U]) + (Word(m[L]) + (Word(m[F]) + (Word(m[R]) + SerializeFrom(m, 4))));
      Word(m[U]) + (Word(m[L]) + (Word(m[F]) + (Word(m[R]) + (Word(m[B]) + SerializeFrom(m, 5)))));
      Word(m[U]) + (Word(m[L]) + (Word(m[F]) + (Word(m[R]) + (Word(m[B]) + (Word(m[D]) + "")))));
      Word(m[U]) + Word(m[L]) + Word(m[F]) + Word(m[R]) + Word(m[B]) + Word(m[D]);
    }
  }

  lemma SolvedWords()
    ensures forall f: Face :: f in SolvedState()
    ensures Word(SolvedState()[U]) == "UUUUUUUUU" && Word(SolvedState()[L]) == "LLLLLLLLL"
    ensures Word(SolvedState()[F]) == "FFFFFFFFF" && Word(SolvedState()[R]) == "RRRRRRRRR"
    ensures Word(SolvedState()[B]) == "BBBBBBBBB" && Word(SolvedState()[D]) == "DDDDDDDDD"
  {
    ScanOrderIsPermutation();
  }
}
