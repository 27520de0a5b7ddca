/** The session state the source keeps in globals (`cubies`, `scanIndex`,
    `cubeState`, main.js:31-33) and the handlers that change it: the scan
    key handler, the lattice builder, one move, the move loop and the solve
    button. */
module Session {
  import opened Wrappers
  import opened Faces
  import opened Classifier
  import opened Serial
  import opened Tokens
  import opened Lattice
  import opened Moves
  import opened Sequencer

  /** The scan invariant after `k` accepted captures: the stored faces are
      exactly the first `k` of the scan order, each holds nine labels and
      its centre label is its own key. */
  predicate ScanInvariant(k: nat, cubeState: map<Face, seq<Face>>)
  {
    && k <= |ScanOrder|
    && cubeState.Keys == ScannedFaces(k)
    && forall f :: f in cubeState ==> |cubeState[f]| == 9 && cubeState[f][4] == f
  }

  /** An accepted capture stores a face that was not stored before and keeps
      the invariant with one more face: faces are captured in scan order,
      each once. */
  lemma CaptureStep(k: nat, cubeState: map<Face, seq<Face>>, faceColors: seq<Face>)
    requires ScanInvariant(k, cubeState) && k < |ScanOrder|
    requires |faceColors| == 9 && faceColors[4] == ScanOrder[k]
    ensures ScanOrder[k] !in cubeState
    ensures ScanInvariant(k + 1, cubeState[ScanOrder[k] := faceColors])
  {
    ScanOrderIsPermutation();
    var m := cubeState[ScanOrder[k] := faceColors];
    assert ScannedFaces(k + 1) == ScannedFaces(k) + {ScanOrder[k]};
    assert m.Keys == cubeState.Keys + {ScanOrder[k]};
  }

  /** Once all six faces are captured, the state holds every face with nine
      labels, and its canonical string has 54 characters with each face's
      own letter at its centre position 9k+4. */
  lemma CompleteScan(cubeState: map<Face, seq<Face>>)
    requires ScanInvariant(|ScanOrder|, cubeState)
    ensures forall f: Face :: f in cubeState
    ensures HasScanFaces(cubeState) && NineEach(cubeState)
    ensures |Serialize(cubeState)| == 54
    ensures forall k :: 0 <= k < |ScanOrder| ==> Serialize(cubeState)[9 * k + 4] == Letter(ScanOrder[k])
  {
    ScanOrderIsPermutation();
    forall k | 0 <= k < |ScanOrder|
      ensures Serialize(cubeState)[9 * k + 4] == Letter(ScanOrder[k])
    {
      SerializeCentres(cubeState, k);
    }
  }

  /** What a scan key press did. */
  datatype ScanOutcome =
    | Ignored         // not Space, or all six faces already captured
    | CenterMismatch  // the centre label is not the expected face: alert, nothing stored
    | Captured        // stored, more faces to go
    | Completed       // the sixth face stored: the lattice is built

  /** The solve button's result. */
  datatype SolveOutcome =
    | SolverFailed                                   // the solver threw or answered nothing
    | Played(applied: nat, solved: bool, trace: seq<Event>)

  class App {
    var scanIndex: nat
    var cubeState: map<Face, seq<Face>>
    var cubies: seq<Cubie>

    ghost predicate Valid()
      reads this
    {
      ScanInvariant(scanIndex, cubeState)
    }

    /** The state at page load: nothing scanned, no cubies. */
    constructor ()
      ensures Valid()
      ensures scanIndex == 0 && cubeState == map[] && cubies == []
    {
      scanIndex := 0;
      cubeState := map[];
      cubies := [];
    }

    /** `init` (main.js:45-66): the scan restarts from the first face. The
        cubie list is not cleared. */
    method Init()
      modifies this
      ensures Valid()
      ensures scanIndex == 0 && cubeState == map[] && cubies == old(cubies)
    {
      scanIndex := 0;
      cubeState := map[];
    }

    /** `handleScanKeyPress` (main.js:93-117), with the nine camera samples
        `detectColors` reads passed in. `faceColors` is what the classifier
        made of them (empty when the key press is ignored). */
    method HandleScanKeyPress(code: string, samples: seq<Rgb>) returns (outcome: ScanOutcome, faceColors: seq<Face>)
      requires Valid() && |samples| == 9
      modifies this
      ensures Valid()
      ensures outcome == Ignored <==> !(code == "Space" && old(scanIndex) < |ScanOrder|)
      ensures outcome == Ignored ==> faceColors == []
      ensures outcome != Ignored ==>
        && |faceColors| == 9
        && (forall i :: 0 <= i < 9 ==> IsNearest(samples[i], PaletteIndex(faceColors[i])))
        && (outcome == CenterMismatch <==> faceColors[4] != ScanOrder[old(scanIndex)])
      ensures outcome == Ignored || outcome == CenterMismatch ==>
        scanIndex == old(scanIndex) && cubeState == old(cubeState) && cubies == old(cubies)
      ensures outcome == Captured || outcome == Completed ==>
        && cubeState == old(cubeState)[ScanOrder[old(scanIndex)] := faceColors]
        && scanIndex == old(scanIndex) + 1
      ensures outcome == Completed <==> (outcome == Captured || outcome == Completed) && scanIndex == |ScanOrder|
      ensures outcome == Captured ==> cubies == old(cubies)
      ensures outcome == Completed ==> cubies == InitialCubies()
    {
      faceColors := [];
      if code == "Space" && scanIndex < |ScanOrder| {
        var faceId := ScanOrder[scanIndex];
        faceColors := DetectColors(samples);
        if faceColors[4] != faceId {
          outcome := CenterMismatch;
          return;
        }
        CaptureStep(scanIndex, cubeState, faceColors);
        cubeState := cubeState[faceId := faceColors];
        scanIndex := scanIndex + 1;
        if scanIndex >= |ScanOrder| {
          PopulateCubeFromState();
          outcome := Completed;
        } else {
          outcome := Captured;
        }
      } else {
        outcome := Ignored;
      }
    }

    /** `populateCubeFromState` (main.js:168-189): the list is cleared and
        refilled by three nested loops over x, y and z, skipping the origin. */
    method PopulateCubeFromState()
      modifies this
      ensures cubies == InitialCubies()
      ensures scanIndex == old(scanIndex) && cubeState == old(cubeState)
    {
      cubies := [];
      for x := -1 to 2
        invariant |cubies| == Visited(x, -1, -1)
        invariant scanIndex == old(scanIndex) && cubeState == old(cubeState)
        invariant BuiltPrefix(cubies)
      {
        for y := -1 to 2
          invariant |cubies| == Visited(x, y, -1)
          invariant scanIndex == old(scanIndex) && cubeState == old(cubeState)
          invariant BuiltPrefix(cubies)
        {
          for z := -1 to 2
            invariant |cubies| == Visited(x, y, z)
            invariant scanIndex == old(scanIndex) && cubeState == old(cubeState)
            invariant BuiltPrefix(cubies)
          {
            if !(x == 0 && y == 0 && z == 0) {
              BuildStep(cubies, x, y, z);
              cubies := cubies + [Home(Vec(x, y, z))];
            }
          }
        }
      }
      BuildComplete(cubies);
    }

    /** `performMoveAnimation` (main.js:227-261) once its rotation has been
        baked, with the corrected layer selection and bake (see module
        AsWritten). `ok` is false when the call throws. The layer is
        filtered in list order; the bake then visits the pivot's children
        last first. */
    method PerformMoveAnimation(move: string) returns (ok: bool)
      modifies this
      ensures ok <==> Step(old(cubies), move).Some?
      ensures cubies == if ok then Step(old(cubies), move).value else old(cubies)
      ensures scanIndex == old(scanIndex) && cubeState == old(cubeState)
    {
      var parsed := ParseMove(move);
      if parsed.None? {
        ok := |cubies| == 0;
        return;
      }
      var m := parsed.value;
      var layer := LayerIndices(m.face, cubies);
      var axis, turns := AxisOf(m.face), QuarterTurns(m);
      ghost var before := cubies;
      var i := |layer|;
      while i > 0
        invariant 0 <= i <= |layer|
        invariant |cubies| == |before|
        invariant scanIndex == old(scanIndex) && cubeState == old(cubeState)
        invariant forall j :: 0 <= j < |cubies| ==>
          cubies[j] == if j in layer[i..] then TurnCubie(axis, turns, before[j]) else before[j]
      {
        i := i - 1;
        var child := layer[i];
        SuffixMembership(layer, i);
        cubies := cubies[child := TurnCubie(axis, turns, cubies[child])];
      }
      LayerMembership(m.face, before, layer);
      assert cubies == ApplyMove(m, before);
      ok := true;
    }

    /** `animateMoves` (main.js:216-225): the tokens one at a time, each
        started only after the previous one finished; a move that throws
        ends the loop (the async function rejects) before its highlight is
        removed and before the completion alert. */
    method AnimateMoves(moves: seq<string>) returns (applied: nat, solved: bool, trace: seq<Event>)
      modifies this
      ensures (cubies, applied) == Play(old(cubies), moves)
      ensures solved <==> applied == |moves|
      ensures trace == Trace(applied, solved)
      ensures scanIndex == old(scanIndex) && cubeState == old(cubeState)
    {
      trace := [];
      var i := 0;
      while i < |moves|
        invariant 0 <= i <= |moves|
        invariant Play(old(cubies), moves) == (Play(cubies, moves[i..]).0, i + Play(cubies, moves[i..]).1)
        invariant trace == Highlights(i)
        invariant scanIndex == old(scanIndex) && cubeState == old(cubeState)
      {
        trace := trace + [Begin(i)];
        var ok := PerformMoveAnimation(moves[i]);
        if !ok {
          applied, solved := i, false;
          return;
        }
        assert moves[i..][1..] == moves[i + 1..];
        trace := trace + [End(i)];
        i := i + 1;
      }
      applied, solved := i, true;
      trace := trace + [Solved];
    }

    /** The solve button (main.js:192-214). The external solver is a
        parameter: its answer to the canonical string, or None when it
        throws. An empty answer counts as no answer. */
    method SolveClicked(solution: Option<string>) returns (stateString: string, outcome: SolveOutcome)
      requires Valid() && scanIndex == |ScanOrder|
      modifies this
      ensures Valid() && scanIndex == old(scanIndex) && cubeState == old(cubeState)
      ensures |stateString| == 54 && stateString == Serialize(cubeState)
      ensures outcome == SolverFailed <==> solution == None || solution == Some("")
      ensures outcome == SolverFailed ==> cubies == old(cubies)
      ensures outcome.Played? ==>
        && (cubies, outcome.applied) == Play(old(cubies), Tokenize(solution.value))
        && (outcome.solved <==> outcome.applied == |Tokenize(solution.value)|)
        && outcome.trace == Trace(outcome.applied, outcome.solved)
    {
      CompleteScan(cubeState);
      stateString := Serialize(cubeState);
      if solution == None || solution == Some("") {
        outcome := SolverFailed;
        return;
      }
      var moves := Tokenize(solution.value);
      var applied, solved, trace := AnimateMoves(moves);
      outcome := Played(applied, solved, trace);
    }
  }

  /** In a strictly increasing index list, the suffix from `i` is its first
      element followed by the suffix from `i + 1`, which does not hold it. */
  lemma SuffixMembership(layer: seq<nat>, i: nat)
    requires i < |layer|
    requires forall k, l :: 0 <= k < l < |layer| ==> layer[k] < layer[l]
    ensures layer[i] !in layer[i + 1..]
    ensures forall j :: j in layer[i..] <==> j == layer[i] || j in layer[i + 1..]
  {
    assert layer[i..] == [layer[i]] + layer[i + 1..];
  }

  /** An index is among a face's layer indices exactly when its cubie lies
      in the layer. */
  lemma LayerMembership(f: Face, cs: seq<Cubie>, layer: seq<nat>)
    requires layer == LayerIndices(f, cs)
    ensures forall j :: 0 <= j < |cs| ==> (j in layer[0..] <==> InLayer(f, cs[j].pos))
  {
    assert layer[0..] == layer;
  }

  /** The cubies built so far are the first ones of the initial list. */
  ghost predicate BuiltPrefix(cubies: seq<Cubie>)
  {
    |cubies| <= 26 && forall k :: 0 <= k < |cubies| ==> cubies[k] == Home(PointAt(k))
  }

  /** Off the origin, appending the cubie at the point the loops have
      reached extends the built prefix by one. */
  lemma BuildStep(cubies: seq<Cubie>, x: int, y: int, z: int)
    requires -1 <= x <= 1 && -1 <= y <= 1 && -1 <= z <= 1 && !(x == 0 && y == 0 && z == 0)
    requires BuiltPrefix(cubies) && |cubies| == Visited(x, y, z)
    ensures BuiltPrefix(cubies + [Home(Vec(x, y, z))])
  {
    IndexPointRoundTrip(Vec(x, y, z));
    assert IndexOf(Vec(x, y, z)) == |cubies|;
    PrefixExtend(cubies, Home(Vec(x, y, z)));
  }

  lemma PrefixExtend(cubies: seq<Cubie>, c: Cubie)
    requires BuiltPrefix(cubies) && |cubies| < 26 && c == Home(PointAt(|cubies|))
    ensures BuiltPrefix(cubies + [c])
  {
    var built := cubies + [c];
    forall k | 0 <= k < |built| ensures built[k] == Home(PointAt(k)) {
      if k < |cubies| {
        assert built[k] == cubies[k];
      }
    }
  }

  lemma BuildComplete(cubies: seq<Cubie>)
    requires BuiltPrefix(cubies) && |cubies| == 26
    ensures cubies == InitialCubies()
  {
  }

  /** How many lattice points the nested loops have visited before reaching
      (x, y, z): all triples before it in loop order, less the skipped origin.
      Unlike `Lattice.IndexOf` it is defined for every loop-counter value,
      including the origin and the values 2 a loop ends on, because the loop
      invariants need it there. At the origin nothing has been skipped yet
      (13 points came before it), hence `<=` where `IndexOf`, which is only
      asked about lattice points, has `<`; on every lattice point the two
      agree. */
  function Visited(x: int, y: int, z: int): int
  {
    var j := 9 * (x + 1) + 3 * (y + 1) + (z + 1);
    if j <= 13 then j else j - 1
  }
}
