/** A model of the scale generator of a note/tempo calculator.

    The generator looks a root note up in a fixed table of the twelve
    pitch-class names, picks the whole/half-step pattern of one of seven
    modes, and walks the twelve-tone cycle, emitting one note name per step.
 */
module Scale {

  datatype Option<T> = None | Some(value: T)

  /** The number of pitch classes in an octave, the length of the note table. */
  const Octave := 12

  /** The twelve pitch-class names, in chromatic order from C. */
  function AllNotes(): (r: seq<string>)
    ensures |r| == Octave
  {
    ["C", "C#", "D", "D#", "E", "F", "F#", "G", "G#", "A", "A#", "B"]
  }

  /** The seven modes the generator knows. */
  datatype Mode = Major | Minor | Dorian | Phrygian | Lydian | Mixolydian | Locrian

  /** The key under which a mode's step pattern is stored. */
  function ModeName(m: Mode): string
  {
    match m
    case Major => "Major"
    case Minor => "Minor"
    case Dorian => "Dorian"
    case Phrygian => "Phrygian"
    case Lydian => "Lydian"
    case Mixolydian => "Mixolydian"
    case Locrian => "Locrian"
  }

  /** Looking a name up among the seven keys of the step-pattern table:
      the mode stored under that key, or None when there is no such key. */
  function ModeOf(name: string): (r: Option<Mode>)
    ensures r.Some? ==> ModeName(r.value) == name
  {
    match name
    case "Major" => Some(Major)
    case "Minor" => Some(Minor)
    case "Dorian" => Some(Dorian)
    case "Phrygian" => Some(Phrygian)
    case "Lydian" => Some(Lydian)
    case "Mixolydian" => Some(Mixolydian)
    case "Locrian" => Some(Locrian)
    case _ => None
  }

  /** Every mode's key finds that mode again: the table has an entry for
      each mode, so the "no pattern" branch is taken only for other names. */
  lemma ModeOfName(m: Mode)
    ensures ModeOf(ModeName(m)) == Some(m)
  {
  }

  /** The whole (2) / half (1) step pattern of a mode. */
  function Steps(m: Mode): seq<nat>
  {
    match m
    case Major => [2, 2, 1, 2, 2, 2, 1]
    case Minor => [2, 1, 2, 2, 1, 2, 2]
    case Dorian => [2, 1, 2, 2, 2, 1, 2]
    case Phrygian => [1, 2, 2, 2, 1, 2, 2]
    case Lydian => [2, 2, 2, 1, 2, 2, 1]
    case Mixolydian => [2, 2, 1, 2, 2, 1, 2]
    case Locrian => [1, 2, 2, 1, 2, 2, 2]
  }

  /** The scale degrees of a mode written independently, as semitones above
      the root (the usual textbook table). */
  function Degrees(m: Mode): seq<nat>
  {
    match m
    case Major => [0, 2, 4, 5, 7, 9, 11]
    case Minor => [0, 2, 3, 5, 7, 8, 10]
    case Dorian => [0, 2, 3, 5, 7, 9, 10]
    case Phrygian => [0, 1, 3, 5, 7, 8, 10]
    case Lydian => [0, 2, 4, 6, 7, 9, 11]
    case Mixolydian => [0, 2, 4, 5, 7, 9, 10]
    case Locrian => [0, 1, 3, 5, 6, 8, 10]
  }

  /** Position of the first occurrence of x in s, or -1 when x is absent. */
  function IndexOf<T(==)>(s: seq<T>, x: T): (r: int)
    ensures -1 <= r < |s|
    ensures r == -1 <==> x !in s
    ensures 0 <= r ==> s[r] == x && forall j :: 0 <= j < r ==> s[j] != x
  {
    if s == [] then -1
    else if s[0] == x then 0
    else
      var k := IndexOf(s[1..], x);
      if k == -1 then -1 else k + 1
  }

  /** Sum of a step sequence. */
  function Sum(s: seq<nat>): nat
  {
    if s == [] then 0 else Sum(s[..|s| - 1]) + s[|s| - 1]
  }

  /** A pattern that walks once around the octave: every step moves up by a
      whole or a half step, and the steps add up to twelve semitones. */
  predicate OctavePattern(steps: seq<nat>)
  {
    (forall i :: 0 <= i < |steps| ==> steps[i] == 1 || steps[i] == 2) && Sum(steps) == Octave
  }

  /** Index into AllNotes of the i-th note of the walk that starts at root. */
  function WalkIndex(root: nat, steps: seq<nat>, i: nat): nat
    requires i <= |steps|
  {
    (root + Sum(steps[..i])) % Octave
  }

  /** The notes of the walk from root along steps: one per step, the i-th
      being the name at the root's index plus the first i steps, modulo 12. */
  function Walk(root: nat, steps: seq<nat>): (r: seq<string>)
    ensures |r| == |steps|
  {
    seq(|steps|, i requires 0 <= i < |steps| => AllNotes()[WalkIndex(root, steps, i)])
  }

  /** What generating a scale yields: nothing for a root that is not one of
      the twelve names or a mode name without a pattern, otherwise the walk. */
  function ScaleOf(rootNote: string, mode: string): seq<string>
  {
    var rootIndex := IndexOf(AllNotes(), rootNote);
    if rootIndex == -1 then []
    else match ModeOf(mode)
      case None => []
      case Some(m) => Walk(rootIndex, Steps(m))
  }

  /** Generates the scale of rootNote in the given mode: nothing when the root
      is not one of the twelve names or the mode name has no step pattern,
      otherwise the walk along the mode's pattern from the root's index. */
  method GenerateScale(rootNote: string, mode: string) returns (scale: seq<string>)
    ensures scale == ScaleOf(rootNote, mode)
  {
    var rootIndex := IndexOf(AllNotes(), rootNote);
    if rootIndex == -1 {
      return [];
    }
    var found := ModeOf(mode);
    if found.None? {
      return [];
    }
    scale := WalkScale(rootIndex, Steps(found.value));
  }

  /** The stepping loop of the generator: starting at rootIndex, appends the
      name under the current index, then advances the index by the next step
      around the twelve-tone cycle. */
  method WalkScale(rootIndex: nat, intervals: seq<nat>) returns (scale: seq<string>)
    requires rootIndex < Octave
    ensures scale == Walk(rootIndex, intervals)
  {
    scale := [];
    var currentIndex := rootIndex;
    for i := 0 to |intervals|
      invariant currentIndex < Octave  // the range the indexing of the table needs
      invariant currentIndex == WalkIndex(rootIndex, intervals, i)
      invariant |scale| == i
      invariant forall j :: 0 <= j < i ==> scale[j] == AllNotes()[WalkIndex(rootIndex, intervals, j)]
    {
      scale := scale + [AllNotes()[currentIndex]];
      SumPrefixStep(intervals, i);
      currentIndex := (currentIndex + intervals[i]) % Octave;
    }
  }

  // ---------------------------------------------------------------------
  // Arithmetic on prefix sums

  lemma SumPrefixStep(s: seq<nat>, i: nat)
    requires i < |s|
    ensures Sum(s[..i + 1]) == Sum(s[..i]) + s[i]
  {
    assert s[..i + 1][..i] == s[..i];
  }

  /** With steps of at least one semitone, a longer prefix climbs at least
      one semitone per extra step. */
  lemma {:induction false} PrefixSumsIncrease(s: seq<nat>, i: nat, j: nat)
    requires forall k :: 0 <= k < |s| ==> s[k] >= 1
    requires i <= j <= |s|
    ensures Sum(s[..i]) + (j - i) <= Sum(s[..j])
  {
    if i < j {
      PrefixSumsIncrease(s, i, j - 1);
      SumPrefixStep(s, j - 1);
    }
  }

  /** Two offsets less than an octave apart land on different indices. */
  lemma DistinctOffsets(root: nat, a: nat, b: nat)
    requires a < b < Octave
    ensures (root + a) % Octave != (root + b) % Octave
  {
  }

  lemma AllNotesDistinct()
    ensures forall i, j :: 0 <= i < j < Octave ==> AllNotes()[i] != AllNotes()[j]
  {
  }

  // ---------------------------------------------------------------------
  // Properties of the walk along any octave pattern

  /** The walk starts on the root itself. */
  lemma WalkStartsAtRoot(root: nat, steps: seq<nat>)
    requires root < Octave && |steps| > 0
    ensures Walk(root, steps)[0] == AllNotes()[root]
  {
    assert steps[..0] == [];
  }

  /** After all steps of an octave pattern the walk is back on its root. */
  lemma OctaveCloses(root: nat, steps: seq<nat>)
    requires root < Octave && OctavePattern(steps)
    ensures WalkIndex(root, steps, |steps|) == root
  {
    assert steps[..|steps|] == steps;
  }

  /** Along an octave pattern no two steps of the walk land on the same
      index: the running sums strictly increase and stay below twelve. */
  lemma WalkIndicesDistinct(root: nat, steps: seq<nat>, i: nat, j: nat)
    requires OctavePattern(steps) && i < j < |steps|
    ensures WalkIndex(root, steps, i) != WalkIndex(root, steps, j)
  {
    PrefixSumsIncrease(steps, i, j);
    PrefixSumsIncrease(steps, j, |steps|);
    assert steps[..|steps|] == steps;
    DistinctOffsets(root, Sum(steps[..i]), Sum(steps[..j]));
  }

  /** Along an octave pattern every note of the walk is a different name. */
  lemma WalkDistinct(root: nat, steps: seq<nat>)
    requires OctavePattern(steps)
    ensures forall i, j :: 0 <= i < j < |steps| ==> Walk(root, steps)[i] != Walk(root, steps)[j]
  {
    var w := Walk(root, steps);
    AllNotesDistinct();
    forall i, j | 0 <= i < j < |steps|
      ensures w[i] != w[j]
    {
      WalkIndicesDistinct(root, steps, i, j);
    }
  }

  // ---------------------------------------------------------------------
  // Properties of the seven modes

  /** The running sums of a seven-step pattern, written out. */
  lemma SevenPrefixSums(s: seq<nat>)
    requires |s| == 7
    ensures Sum(s[..0]) == 0
    ensures Sum(s[..1]) == s[0]
    ensures Sum(s[..2]) == s[0] + s[1]
    ensures Sum(s[..3]) == s[0] + s[1] + s[2]
    ensures Sum(s[..4]) == s[0] + s[1] + s[2] + s[3]
    ensures Sum(s[..5]) == s[0] + s[1] + s[2] + s[3] + s[4]
    ensures Sum(s[..6]) == s[0] + s[1] + s[2] + s[3] + s[4] + s[5]
    ensures Sum(s[..7]) == s[0] + s[1] + s[2] + s[3] + s[4] + s[5] + s[6]
  {
    assert s[..0] == [];
    SumPrefixStep(s, 0);
    SumPrefixStep(s, 1);
    SumPrefixStep(s, 2);
    SumPrefixStep(s, 3);
    SumPrefixStep(s, 4);
    SumPrefixStep(s, 5);
    SumPrefixStep(s, 6);
  }

  /** The running sums of a mode's steps, from none of them to all seven,
      are its textbook degrees followed by the octave. */
  lemma PrefixSumsOfSteps(m: Mode)
    ensures |Steps(m)| == |Degrees(m)| == 7
    ensures forall i :: 0 <= i < 7 ==> Sum(Steps(m)[..i]) == Degrees(m)[i]
    ensures Sum(Steps(m)[..7]) == Octave
  {
    var s := Steps(m);
    SevenPrefixSums(s);
    match m
    case Major =>
    case Minor =>
    case Dorian =>
    case Phrygian =>
    case Lydian =>
    case Mixolydian =>
    case Locrian =>
  }

  /** Every mode's pattern has seven whole or half steps spanning one octave. */
  lemma StepsArePatterns(m: Mode)
    ensures |Steps(m)| == 7 && OctavePattern(Steps(m))
  {
    PrefixSumsOfSteps(m);
    assert Steps(m)[..7] == Steps(m);
  }

  /** The walk of a mode from any root index: seven pairwise distinct names,
      the first on the root, the i-th the mode's i-th degree above it. */
  lemma WalkOfMode(root: nat, m: Mode)
    requires root < Octave
    ensures var r := Walk(root, Steps(m));
      && |r| == 7
      && r[0] == AllNotes()[root]
      && (forall i :: 0 <= i < 7 ==> r[i] == AllNotes()[(root + Degrees(m)[i]) % Octave])
      && (forall i, j :: 0 <= i < j < 7 ==> r[i] != r[j])
  {
    StepsArePatterns(m);
    PrefixSumsOfSteps(m);
    var r := Walk(root, Steps(m));
    forall i | 0 <= i < 7
      ensures r[i] == AllNotes()[(root + Degrees(m)[i]) % Octave]
    {
      assert Sum(Steps(m)[..i]) == Degrees(m)[i];
    }
    WalkStartsAtRoot(root, Steps(m));
    WalkDistinct(root, Steps(m));
  }

  // ---------------------------------------------------------------------
  // Properties of the generated scale

  /** The result is empty exactly when the root is not one of the twelve
      names or the mode name has no pattern. */
  lemma ScaleEmptyIff(rootNote: string, mode: string)
    ensures ScaleOf(rootNote, mode) == [] <==> rootNote !in AllNotes() || ModeOf(mode).None?
  {
    if rootNote in AllNotes() && ModeOf(mode).Some? {
      StepsArePatterns(ModeOf(mode).value);
    }
  }

  /** For a known root and a mode's own name the scale is the walk along
      that mode's steps from the root's index. */
  lemma ScaleIsWalk(rootNote: string, m: Mode)
    requires rootNote in AllNotes()
    ensures ScaleOf(rootNote, ModeName(m)) == Walk(IndexOf(AllNotes(), rootNote), Steps(m))
  {
    ModeOfName(m);
  }

  /** For a known root and a mode's own name the scale has seven pairwise
      distinct names drawn from the table, starting on the root. */
  lemma ScaleOfMode(rootNote: string, m: Mode)
    requires rootNote in AllNotes()
    ensures var r := ScaleOf(rootNote, ModeName(m));
      && |r| == 7
      && r[0] == rootNote
      && (forall i :: 0 <= i < 7 ==> r[i] in AllNotes())
      && (forall i, j :: 0 <= i < j < 7 ==> r[i] != r[j])
  {
    ScaleIsWalk(rootNote, m);
    WalkOfMode(IndexOf(AllNotes(), rootNote), m);
  }

  /** The i-th name of the scale lies the mode's i-th degree above the
      root's position in the table. */
  lemma ScaleDegree(rootNote: string, root: nat, m: Mode, i: nat)
    requires root < Octave && AllNotes()[root] == rootNote && i < 7
    ensures |Degrees(m)| == 7 && |ScaleOf(rootNote, ModeName(m))| == 7
    ensures ScaleOf(rootNote, ModeName(m))[i] == AllNotes()[(root + Degrees(m)[i]) % Octave]
  {
    NoteIndex(rootNote, root);
    ScaleIsWalk(rootNote, m);
    WalkOfMode(root, m);
  }

  /** A name's position in the table is found by the lookup. */
  lemma NoteIndex(rootNote: string, root: nat)
    requires root < Octave && AllNotes()[root] == rootNote
    ensures IndexOf(AllNotes(), rootNote) == root
  {
    AllNotesDistinct();
  }

  /** A mode's walk from any known root closes the octave. */
  lemma ModeClosesOctave(rootNote: string, m: Mode)
    requires rootNote in AllNotes()
    ensures WalkIndex(IndexOf(AllNotes(), rootNote), Steps(m), 7) == IndexOf(AllNotes(), rootNote)
  {
    StepsArePatterns(m);
    OctaveCloses(IndexOf(AllNotes(), rootNote), Steps(m));
  }
}
