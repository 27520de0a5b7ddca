/** Nearest-colour classification of camera samples against the fixed
    six-entry palette (`COLORS` and `getClosestColor`, main.js:16-23 and
    main.js:143-154, and the sampling loop of `detectColors`, main.js:136-140). */
module Classifier {
  import opened Faces

  /** A sampled pixel or a palette colour. */
  datatype Rgb = Rgb(r: int, g: int, b: int)

  /** One palette entry: the label it stands for and its reference colour. */
  datatype Swatch = Swatch(name: Face, rgb: Rgb)

  /** `COLORS` in its enumeration order: white, yellow, blue, green, red, orange. */
  const Palette: seq<Swatch> := [
    Swatch(U, Rgb(255, 255, 255)),
    Swatch(D, Rgb(255, 255, 0)),
    Swatch(F, Rgb(0, 81, 186)),
    Swatch(B, Rgb(0, 158, 96)),
    Swatch(L, Rgb(196, 30, 58)),
    Swatch(R, Rgb(255, 88, 0))
  ]

  /** Squared Euclidean distance. The source takes the square root of this;
      the root is monotone, so comparing squares orders the entries the same way. */
  function SqDist(p: Rgb, q: Rgb): nat
  {
    (p.r - q.r) * (p.r - q.r) + (p.g - q.g) * (p.g - q.g) + (p.b - q.b) * (p.b - q.b)
  }

  /** Palette entry `k` is the answer for sample `s`: no entry is closer, and
      every earlier entry is strictly farther (ties go to the earliest entry). */
  predicate IsNearest(s: Rgb, k: int)
  {
    && 0 <= k < |Palette|
    && (forall j :: 0 <= j < |Palette| ==> SqDist(s, Palette[k].rgb) <= SqDist(s, Palette[j].rgb))
    && (forall j :: 0 <= j < k ==> SqDist(s, Palette[k].rgb) < SqDist(s, Palette[j].rgb))
  }

  /** The palette position of a label (the names in `COLORS` are distinct). */
  function PaletteIndex(f: Face): (k: nat)
    ensures k < |Palette| && Palette[k].name == f
  {
    match f
    case U => 0
    case D => 1
    case F => 2
    case B => 3
    case L => 4
    case R => 5
  }

  /** `getClosestColor`: a running minimum with a strict comparison, starting
      from an infinite distance and the label U. */
  method ClosestColor(s: Rgb) returns (name: Face)
    ensures IsNearest(s, PaletteIndex(name))
  {
    name := U;
    var minDistance := 0;
    var infinite := true;  // `minDistance` still holds `Infinity`
    for i := 0 to |Palette|
      invariant infinite <==> i == 0
      invariant infinite ==> name == U
      invariant !infinite ==> PaletteIndex(name) < i && minDistance == SqDist(s, Palette[PaletteIndex(name)].rgb)
      invariant forall j :: 0 <= j < i ==> minDistance <= SqDist(s, Palette[j].rgb)
      invariant forall j :: 0 <= j < PaletteIndex(name) ==> minDistance < SqDist(s, Palette[j].rgb)
    {
      var dist := SqDist(s, Palette[i].rgb);
      if infinite || dist < minDistance {
        minDistance := dist;
        name := Palette[i].name;
        infinite := false;
      }
    }
  }

  /** The classification loop of `detectColors`: one label per sample, in order. */
  method DetectColors(samples: seq<Rgb>) returns (labels: seq<Face>)
    ensures |labels| == |samples|
    ensures forall i :: 0 <= i < |samples| ==> IsNearest(samples[i], PaletteIndex(labels[i]))
  {
    labels := [];
    for i := 0 to |samples|
      invariant |labels| == i
      invariant forall j :: 0 <= j < i ==> IsNearest(samples[j], PaletteIndex(labels[j]))
    {
      var colorName := ClosestColor(samples[i]);
      labels := labels + [colorName];
    }
  }

  /** At most one palette entry is the answer, so the classification is
      deterministic. */
  lemma NearestUnique(s: Rgb, k1: int, k2: int)
    requires IsNearest(s, k1) && IsNearest(s, k2)
    ensures k1 == k2
  {
    assert SqDist(s, Palette[k1].rgb) <= SqDist(s, Palette[k2].rgb);
    assert SqDist(s, Palette[k2].rgb) <= SqDist(s, Palette[k1].rgb);
  }

  /** The squared distance vanishes exactly between equal colours. */
  lemma SqDistZero(p: Rgb, q: Rgb)
    ensures SqDist(p, q) == 0 <==> p == q
  {
    var dr, dg, db := p.r - q.r, p.g - q.g, p.b - q.b;
    assert dr * dr >= 0 && dg * dg >= 0 && db * db >= 0;
    if dr != 0 { assert dr * dr > 0; }
    if dg != 0 { assert dg * dg > 0; }
    if db != 0 { assert db * db > 0; }
  }

  /** The six reference colours are pairwise distinct. */
  lemma PaletteDistinct(i: int, j: int)
    requires 0 <= i < |Palette| && 0 <= j < |Palette|
    ensures Palette[i].rgb == Palette[j].rgb ==> i == j
  {
  }

  /** Classifying a palette entry's exact colour yields that entry's label. */
  lemma ExactColourClassifiedAsItself(i: int, name: Face)
    requires 0 <= i < |Palette|
    requires IsNearest(Palette[i].rgb, PaletteIndex(name))
    ensures name == Palette[i].name
  {
    var k := PaletteIndex(name);
    SqDistZero(Palette[i].rgb, Palette[i].rgb);
    assert SqDist(Palette[i].rgb, Palette[k].rgb) <= SqDist(Palette[i].rgb, Palette[i].rgb);
    SqDistZero(Palette[i].rgb, Palette[k].rgb);
    PaletteDistinct(i, k);
  }
}
