# Rubik's cube scanner and animator — a verified model

The application scans a physical Rubik's cube through the camera, one face at a time, in the order White (U), Red (L), Blue (F), Orange (R), Green (B), Yellow (D).

- **Classifying a face.** Each scan samples nine pixels. Each sample becomes the nearest of six reference colours, and the nearest is judged by Euclidean RGB distance.
- **Accepting a face.** A face is stored only when its centre sticker shows the expected colour.
- **After six faces.** The app builds a 3D cube of 26 cubies.
- **Solving.** When the user clicks Solve, the app writes the scanned state as a 54-letter canonical string and hands that string to an external solver.
- **Playing the solution.** The solver's answer is split into move tokens. The tokens are animated strictly one after another: each move rotates the nine cubies of one outer layer about that face's axis.

This project models that core in Dafny:

- the colour classifier (`Classifier`);
- the face alphabet and scan order (`Faces`);
- the canonical string (`Serial`);
- the tokenizer of the solver's answer (`Tokens`);
- the integer lattice of cubies and its quarter turns (`Lattice`);
- move parsing, layer selection and the baked result of one move (`Moves`);
- the sequencing of a move list (`Sequencer`);
- the application state and its handlers, as a class `Session.App` whose fields are the source's globals `scanIndex`, `cubeState` and `cubies`.

Cubie positions in the source are `1.05 * (x, y, z)` for integer `x, y, z` in {-1, 0, 1}. The model keeps the integer lattice point. A layer predicate such as `position.y > 0.5` then reads `2 * y > 1`, and the two agree on every lattice point.

A cubie carries its position and the images of its three local axes, so a rotation of the cubie is modelled rigidly and not just as a change of position. Rotation by `n` quarter turns about an axis follows three.js's right-handed convention, and `n` of either sign is reduced modulo 4.

Module `AsWritten` models three places where the move code, read literally, does not do what it evidently intends. They are listed under "## Findings". The rest of the model uses the corrected behaviour.

## Model

| member | source | states |
|---|---|---|
| Faces.FaceOf | main.js:232-238 | a character maps to a face exactly when it is that face's letter; no other character maps to a face |
| Faces.LetterRoundTrip | main.js:16-23 | every face's letter maps back to that face |
| Faces.ScanOrderIsPermutation | main.js:27-30 | the scan order lists six faces, pairwise distinct, covering every face |
| Classifier.PaletteIndex | main.js:16-23 | every face label has an entry in the reference palette carrying that label |
| Classifier.IsNearest | main.js:143-154 | definition: palette entry k is at minimum squared distance from the sample and strictly closer than every earlier entry |
| Classifier.ClosestColor | main.js:143-154 | the returned label belongs to a palette entry at minimum squared distance from the sample, and to the first such entry in palette order (strict `<` keeps the earlier entry on ties) |
| Classifier.DetectColors | main.js:136-140 | one label per sample, in sample order, each the nearest palette colour to its sample |
| Classifier.NearestUnique | main.js:146-151 | the nearest-with-first-tie-break entry is unique, so the classifier is a function of the sample |
| Classifier.SqDistZero | main.js:147 | the squared distance is zero exactly for equal colours (square root omitted: it preserves order) |
| Classifier.PaletteDistinct | main.js:16-23 | the six reference colours are pairwise distinct |
| Classifier.ExactColourClassifiedAsItself | main.js:143-154 | a sample that is exactly a reference colour is classified as that colour's face |
| Serial.Word | main.js:194 | a face's labels joined with no separator give one letter per label |
| Serial.Serialize | main.js:194 | the canonical string concatenates the scanned faces' words in scan order; with nine labels per face it has 54 characters |
| Serial.SerializeLayout | main.js:194 | the canonical string has 54 characters; character 9k+j is the letter of sticker j of the k-th face in scan order |
| Serial.SerializeCentres | main.js:194 | with every stored centre equal to its face, character 9k+4 is the k-th scanned face's own letter |
| Serial.SerializeInjective | main.js:194 | two complete scans with the same canonical string are the same scan |
| Serial.SerializeUnfold | main.js:194 | the canonical string is the U, L, F, R, B, D words concatenated in that order |
| Serial.SolvedSerialization | main.js:194 | a solved cube serialises to nine U, nine L, nine F, nine R, nine B and nine D |
| Tokens.IsSpace | main.js:200 | definition: the ECMAScript WhiteSpace and LineTerminator characters, which `trim` removes and `\s` matches |
| Tokens.TrimStart | main.js:200 | the result is a suffix of the input that starts with a non-space, and all that was dropped is white space |
| Tokens.TrimEnd | main.js:200 | the result is a prefix of the input that ends with a non-space, and all that was dropped is white space |
| Tokens.Trim | main.js:200 | trimming never lengthens the answer; the result is empty exactly when the answer is all white space, and otherwise starts and ends with a non-space |
| Tokens.SplitSpaces | main.js:200 | splitting never yields an empty list; starting from a space-free token, every piece is space-free |
| Tokens.Tokenize | main.js:200 | there is always at least one token, and no token contains white space |
| Tokens.SplitSqueeze | main.js:200 | joining the pieces by single spaces gives the current token followed by the input with every white-space run squeezed to one space |
| Tokens.TokenizeSqueeze | main.js:200 | the tokens of any answer, joined by single spaces, are the trimmed answer with its white-space runs squeezed |
| Tokens.JoinInjective | main.js:200 | two lists of tokens that join to the same string are equal |
| Tokens.TokenizeCharacterised | main.js:200 | for an answer with a non-space, a list of tokens is its tokenization exactly when the list joined by single spaces is the trimmed, squeezed answer |
| Tokens.TrimOfTrimmed | main.js:200 | trimming a string that starts and ends with a non-space leaves it unchanged |
| Tokens.TrimEnds | main.js:200 | a string with a non-space trims to a non-empty string starting and ending with a non-space |
| Tokens.TokenizeWellFormed | main.js:200 | an answer with any non-space yields a non-empty list of non-empty tokens free of white space |
| Tokens.TokenizeBlank | main.js:200 | an answer made only of white space yields the single empty token |
| Tokens.SplitThroughToken | main.js:200 | splitting reads a space-free run into the current token |
| Tokens.SplitJoin | main.js:200 | splitting a space-joined list of tokens gives back the list |
| Tokens.TokenizeJoin | main.js:200 | round trip: tokenizing a space-joined list of tokens gives back exactly the list |
| Lattice.Turn | main.js:246-247 | definition: k successive quarter turns about one axis |
| Lattice.TurnBy | main.js:231-247 | definition: a turn by n quarter turns, n of either sign, reduced modulo 4 |
| Lattice.Quarter | main.js:246-247 | a quarter turn keeps the coordinate along its own axis |
| Lattice.TurnKeepsAxis | main.js:246-247 | any number of quarter turns keeps the coordinate along the axis |
| Lattice.TurnAdd | main.js:246-247 | turning by i then by j is turning by i + j |
| Lattice.FullTurn | main.js:246-247 | four quarter turns are the identity |
| Lattice.TurnByCompose | main.js:231-247 | signed turns compose additively |
| Lattice.TurnByInverse | main.js:231-247 | turning by -n undoes turning by n |
| Lattice.TurnByQuarters | main.js:231-247 | turning by 1, by 2 or -2, and by 3 or -1 is one, two and three quarter turns |
| Lattice.TurnByKeepsAxis | main.js:231-247 | a signed turn keeps the axis coordinate |
| Lattice.TurnByInjective | main.js:231-247 | a turn never sends two points to the same place |
| Lattice.CubePointsAreLattice | main.js:177-180 | the 26 points are exactly the integer points of the 3x3x3 block without its centre |
| Lattice.TurnStaysOnLattice | main.js:246-247 | quarter turns keep lattice points on the lattice |
| Lattice.TurnByStaysOnLattice | main.js:231-247 | signed turns keep lattice points on the lattice |
| Lattice.TurnCubie | main.js:250-254 | definition: a cubie's position and the images of its three local axes turned by the same signed quarter turns, a rigid rotation |
| Lattice.TurnCubieInverse | main.js:250-254 | a cubie turned by n and then by -n is restored, orientation included |
| Lattice.TurnCubieCompose | main.js:250-254 | cubie rotations about one axis compose additively |
| Lattice.TurnCubieFull | main.js:250-254 | a cubie rotation by a multiple of four quarter turns is the identity |
| Lattice.TurnCubieFourTimes | main.js:250-254 | four equal cubie rotations restore the cubie |
| Lattice.PointAt | main.js:177-185 | the i-th point the nested loops visit is a lattice point |
| Lattice.PointIndexRoundTrip | main.js:177-185 | the i-th point the nested loops visit is a lattice point whose visit index is i |
| Lattice.IndexPointRoundTrip | main.js:177-185 | each lattice point is visited once, at index IndexOf, below 26 |
| Lattice.InitialCubies | main.js:177-188 | the built list has 26 unrotated cubies on lattice points |
| Lattice.InitialIsLattice | main.js:177-188 | the built list has 26 unrotated cubies on 26 distinct lattice points covering the whole lattice |
| Moves.AxisOf | main.js:232 | definition: U and D turn about y, R and L about x, F and B about z |
| Moves.Side | main.js:234-238 | every face lies on the +1 or the -1 side of the centre along its axis |
| Moves.Outward | main.js:232-238 | a face's outward unit vector is its side along its axis and zero on the other two axes |
| Moves.Direction | main.js:234 | the corrected direction is the opposite of the face's side |
| Moves.QuarterTurns | main.js:229-234 | a move turns by one or two quarter turns; it is negative exactly for an unprimed U, R or F move or a primed D, L or B move; it is two exactly when the token holds a `2` |
| Moves.FaceTurnsClockwise | main.js:229-247 | an unprimed single move turns every point a quarter turn clockwise as seen from outside its face |
| Moves.PrimeTurnsCounterClockwise | main.js:229-247 | a primed single move turns every point a quarter turn counter-clockwise as seen from outside its face |
| Moves.ParseMove | main.js:228-233 | a token is a move exactly when its first character is a face letter; then it is primed exactly when it contains `'` and doubled exactly when it contains `2` |
| Moves.ParseFaceTokens | main.js:228-230 | "X", "X'" and "X2" parse to a plain, a primed and a doubled move of face X |
| Moves.InLayer | main.js:235-238 | definition: the cubies beyond the ±0.5 plane on the face's side of its axis |
| Moves.LayerIsHalfSpace | main.js:235-238 | each layer predicate selects the outer half-space on its face's side along its axis |
| Moves.LayerIndices | main.js:240 | the selected indices are in range, in list order without repeats, and are exactly the cubies the face's predicate accepts |
| Moves.Moved | main.js:246-254 | definition: a cubie in the layer is turned rigidly by the move's quarter turns about the face's axis; any other is left alone |
| Moves.ApplyMove | main.js:240-254 | a move keeps the number of cubies |
| Moves.MoveFrame | main.js:240-254 | a move leaves every unselected cubie alone, and rotates every selected cubie rigidly by the move's quarter turns about the face's axis, keeping its axis coordinate |
| Moves.MovedStaysInLayer | main.js:235-254 | a rotated cubie stays in its layer, and others stay out |
| Moves.MoveKeepsLayer | main.js:235-254 | repeating a move selects the same cubies |
| Moves.Inverse | main.js:229-231 | the primed form of a move turns by the opposite angle |
| Moves.MoveThenInverse | main.js:227-254 | a move followed by its prime form restores every cubie |
| Moves.FourMoves | main.js:227-254 | four equal moves restore every cubie |
| Moves.FourMovedCubie | main.js:227-254 | four equal moves restore a single cubie |
| Moves.MovePreservesLattice | main.js:227-254 | after a move the cubies again sit on 26 distinct lattice points covering the lattice |
| Moves.SquareSize | main.js:235-238 | a face's outer square has nine points |
| Moves.LayerIsSquare | main.js:235-238 | a lattice point is in a face's layer exactly when it lies in that face's outer square |
| Moves.LayerPositionsSnoc | main.js:240 | the selected positions grow by at most the last cubie's position |
| Moves.LastPositionIsNew | main.js:240 | without shared positions, the last cubie's position is not already selected |
| Moves.LayerIndicesCount | main.js:240 | without shared positions, the number of selected cubies is the number of selected positions |
| Moves.SquareOnLattice | main.js:235-238 | the points of an outer square are lattice points |
| Moves.LayerSize | main.js:235-240 | on the lattice every face selects exactly nine cubies, occupying exactly its outer square |
| Moves.LayerSquareCount | main.js:240 | selected positions equal to an outer square mean nine selected cubies |
| Moves.LayerInSquare | main.js:235-240 | every selected position lies in the face's outer square |
| Moves.SquareInLayer | main.js:235-240 | every point of the face's outer square is a selected position |
| Moves.MovePermutesLayer | main.js:240-254 | on the lattice a move selects the same cubies after as before, and they occupy the same nine points |
| Sequencer.Step | main.js:227-261 | one move call completes exactly when its token parses or there are no cubies, and then keeps the number of cubies |
| Sequencer.Play | main.js:216-222 | at most every token completes, and the cubie count is unchanged |
| Sequencer.PlayAppend | main.js:218-222 | once a list has completed, a longer list continues from the state it reached |
| Sequencer.PlayStopsAtFailure | main.js:218-222 | the loop stops exactly at the first token that throws: every earlier token completed, and that one throws on the state reached |
| Sequencer.PlayPreservesLattice | main.js:218-222 | any move list keeps the lattice invariant |
| Sequencer.TokenThenPrime | main.js:218-222 | playing "X" then "X'" completes both and restores every cubie |
| Sequencer.FourTokens | main.js:218-222 | playing one move token four times completes all four and restores every cubie |
| Sequencer.Highlights | main.js:218-222 | the first k moves produce two highlight events each |
| Sequencer.Trace | main.js:216-225 | definition: the highlight events of the completed moves, then the alert or the highlight of the move that threw |
| Sequencer.HighlightsOrder | main.js:218-222 | move i's highlight is added at event 2i and removed at event 2i+1 |
| Sequencer.TraceOrder | main.js:216-225 | moves are highlighted strictly one at a time and in order; the completion alert comes last, once, and only when every move completed |
| Session.ScanInvariant | main.js:94-107 | definition: after k captures the stored faces are the first k of the scan order, each with nine labels and its own label at the centre |
| Session.CaptureStep | main.js:94-105 | an accepted capture stores the next face of the scan order, which was not stored before, and keeps the scan invariant |
| Session.CompleteScan | main.js:107-112 | after six captures every face is stored with nine labels; the canonical string has 54 characters with each scanned face's letter at its centre |
| Session.App.constructor | main.js:31-33 | the page-load state: nothing scanned and no cubies |
| Session.App.Init | main.js:58-59 | the scan restarts with nothing stored; the cubies are kept |
| Session.App.HandleScanKeyPress | main.js:93-117 | ignored unless Space with faces left; otherwise the nine samples are classified; a wrong centre stores nothing; an accepted face is stored under the next face of the scan order, and the sixth builds the lattice |
| Session.App.PopulateCubeFromState | main.js:168-189 | the triple loop rebuilds the list as the 26 unrotated cubies in loop order |
| Session.App.PerformMoveAnimation | main.js:227-261 | succeeds exactly when the token parses or there are no cubies, and leaves the cubies as the corrected move leaves them |
| Session.App.AnimateMoves | main.js:216-225 | the cubies and number of completed moves are those of playing the list; it is solved exactly when every move completed; the events are those of `Sequencer.Trace` |
| Session.App.SolveClicked | main.js:192-214 | the 54-letter canonical string is sent to the solver; no answer or an empty answer is a failure that changes nothing; otherwise the tokenized answer is played |
| AsWritten.FilterWith | main.js:240 | a filter that does not throw returns in-range indices of cubies in the face's layer |
| AsWritten.FilterAsWrittenThrows | main.js:240 | as written, the layer filter throws on every non-empty cubie list |
| AsWritten.FilterAsWrittenThrowsOnLattice | main.js:240 | as written, the filter throws on the lattice the scan builds |
| AsWritten.FilterIntended | main.js:236-240 | passing the cubie never throws and selects exactly `Moves.LayerIndices` |
| AsWritten.BakeAsWritten | main.js:250-254 | definition: the pivot's rotation applied to a layer cubie twice |
| AsWritten.BakeAsWrittenDoubles | main.js:250-254 | as written, every baked cubie is turned by twice the pivot's angle |
| AsWritten.QuarterBakedAsHalf | main.js:250-254 | as written, a quarter-turn token turns its layer by a half turn, whichever sign the pivot turns by |
| AsWritten.HalfBakedInPlace | main.js:250-254 | as written, a half-turn token leaves its layer as it was |
| AsWritten.QuarterTurnAsWritten | main.js:228-254 | "U" as written sends edge (0,1,1) to (0,1,-1) with either sign; a clockwise quarter turn sends it to (-1,1,0) |
| AsWritten.HalfTurnAsWritten | main.js:228-254 | "U2" as written leaves corner (1,1,1) unchanged with either sign; a half turn sends it to (-1,1,-1) |
| AsWritten.DirectionAsWritten | main.js:234 | the code's direction is the face's side, the opposite of the corrected direction |
| AsWritten.QuarterTurnsAsWritten | main.js:229-234 | as written, every token turns by the opposite angle of the corrected move, that is, by the angle of its own prime form |
| AsWritten.UnprimedAsWrittenCounterClockwise | main.js:229-247 | as written, an unprimed single move turns its layer counter-clockwise as seen from outside its face |
| AsWritten.DirectionAsWrittenExample | main.js:228-247 | "U" as written sends (0,1,1) to (1,1,0); a clockwise U turn sends it to (-1,1,0) |

## Left out

- Camera access (`getUserMedia`), canvas drawing and pixel reads are left out. `detectColors` takes its nine RGB samples as a parameter.
- The face snapshots, the DOM (prompts, buttons, the solution list) and `alert` are left out. Their order is kept as the `Event` trace.
- The three.js scene, materials, rendering and lighting are left out.
- The TWEEN animation, its easing and the floating-point matrices are left out. A move is modelled by its baked end state, with integer positions and exact quarter turns. The 1.05 spacing is scaled away.
- The external solver (`Cube.initSolver`, `Cube.fromString(...).solve()`) is a parameter of `Session.App.SolveClicked`: its answer, or None when it throws. Whether the solver accepts a given canonical string is not modelled.
- `Session.App.SolveClicked`: the source calls `animateMoves` without awaiting it, so a move that throws rejects a promise nobody handles. The model returns the same outcome, with the same state and trace.
- Keyboard listener registration, the reset button and stopping the camera tracks are left out. `Session.App.Init` models the state part of `init`.
- Asynchrony is left out: each move is atomic. The strict ordering of moves is modelled by the sequence of calls and by `Sequencer.Trace`.
- The display names in the scan order (WHITE, RED, …) are left out; only the face letters are modelled.
- The face order expected by the solver's string format is not part of this model. `Serial.Serialize` uses the order the code writes, U, L, F, R, B, D.
- A token whose first character is not a face letter looks up an undefined `layerMap` entry. On a non-empty cubie list the filter then throws. On an empty list the filter never calls it, and the move does nothing. `Sequencer.Step` models both cases.
- `Classifier.ClosestColor` compares squared distances, not `Math.sqrt` of them. The square root is monotone, so the comparisons agree.
- A move with an unknown face on an empty cubie list also starts a tween on an undefined axis. The model takes that tween not to throw.

## Findings

| source | as written | input that shows it | evidently intended | confidence | as-written member | corrected member |
|---|---|---|---|---|---|---|
| main.js:240 | `layerMap[face](c.position)` hands the predicate the position vector, and the predicate reads `.position.y` of it again, which throws a TypeError | any move with a valid face, e.g. "U", on the 26 cubies the scan builds | `layerMap[face](c)`, selecting the cubies of the face's outer layer | not executed | AsWritten.FilterAsWrittenThrows | AsWritten.FilterIntended |
| main.js:250-254 | `child.applyMatrix4(pivot.matrixWorld)` bakes the pivot's rotation into the child, and `CUBE_GROUP.attach(child)` then keeps its world transform, which applies the rotation once more | reachable only once the filter at main.js:240 is fixed. "U": edge cubie at (0,1,1) ends at (0,1,-1) instead of (-1,1,0); "U2": corner at (1,1,1) does not move | each layer cubie rotated once by the move's angle (attach alone, or applyMatrix4 followed by a plain add) | not executed | AsWritten.QuarterTurnAsWritten | Moves.MoveFrame |
| main.js:234 | `direction` is +1 for U, R and F, so an unprimed U, R or F turns positively about +y, +x or +z. In three.js's right-handed convention that is counter-clockwise seen from outside the face, and D, L and B are mirrored the same way. Every move then plays as its own prime form. | reachable only once main.js:240 is fixed. "U": the edge at (0,1,1) turns towards (1,1,0), where a U turn of standard cube notation takes it to (-1,1,0) | the sign of standard notation, which the solver's answer uses: an unprimed move turns clockwise seen from outside the face, so `direction` is -1 for U, R and F and +1 for D, L and B | not executed | AsWritten.UnprimedAsWrittenCounterClockwise | Moves.FaceTurnsClockwise |
