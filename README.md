# Scale generator

A Dafny model of the scale generator of a note/tempo calculator
(`generateScale` in `src/lib/scale.ts`). The generator takes a root note name
and a mode name. It looks the root up in the fixed table of twelve pitch-class
names `C, C#, D, D#, E, F, F#, G, G#, A, A#, B`. It picks the whole/half-step
pattern of one of seven modes (Major, Minor, Dorian, Phrygian, Lydian,
Mixolydian, Locrian). Then it walks the twelve-tone cycle from the root,
emitting the name under the current index before each step and advancing the
index by `(currentIndex + step) % 12`. An unknown root gives the empty list,
and so does a mode name that is not one of the seven keys of the step-pattern
table and not a property JavaScript objects inherit (see "## Left out").

Everything is in `scale.dfy`, module `Scale`:

- `AllNotes()` is the twelve-name table; `Mode` is the seven-way union type
  of mode names; `ModeName`/`ModeOf` are the keys of the step-pattern table
  and the lookup by key; `Steps` is the table itself.
- `IndexOf` is the array search the generator uses to find the root (first
  match, or -1).
- `ScaleOf` is the specification: empty for an unknown root or mode name,
  otherwise `Walk`, whose i-th name is
  `AllNotes()[(rootIndex + Sum(steps[..i])) % 12]`.
- `GenerateScale` is the generator itself. Its counted loop is the method
  `WalkScale`, which appends to a local sequence and updates `currentIndex`
  exactly as the source does. Both are proved equal to the specification.
- `Degrees` is an independent table of the modes as semitones above the root.
  The running sums of each step pattern are proved equal to it.

The mode is passed to `GenerateScale` as a string. This keeps the
"no interval table for this mode" branch reachable, as it is at run time.
`ModeOfName` proves that every name of the `Mode` type has a table entry, so
that branch is never taken for a value of the declared type.

No member changes anything outside its own locals: `IndexOf`, `ModeOf`,
`Walk` and `ScaleOf` are functions, `GenerateScale` and `WalkScale` have no
`modifies` clause, and the table `AllNotes` is a function without parameters. Because its result is equal to the function `ScaleOf`,
it is deterministic.

All indices and steps are non-negative, so the source's truncating `%`
agrees with Dafny's Euclidean `%`.

## Model

| member | source | states |
|---|---|---|
| `Scale.AllNotes` | src/lib/scale.ts:2-15 | the twelve-name table `allNotes`, in chromatic order from C; its contract states that it has 12 entries, the `allNotes.length` the walk reduces by; `AllNotesDistinct` states that the names are pairwise distinct |
| `Scale.ModeName` | src/lib/scale.ts:18-25 | the key of each of the seven constructors of the datatype `Mode`, which models the union type `Mode`; it has no `ensures` of its own: `ModeOf` and `ModeOfName` state that each key finds its mode and only its mode |
| `Scale.Steps` | src/lib/scale.ts:40-55 | the interval object, one step pattern per mode; it has no `ensures` of its own: `StepsArePatterns` states that each pattern is seven whole or half steps summing to 12, and `PrefixSumsOfSteps` that its running sums are the textbook degrees |
| `Scale.WalkIndex` | src/lib/scale.ts:64-70 | the value of `currentIndex` after i steps, (root + sum of the first i steps) mod 12; it has no `ensures` of its own: `WalkScale`'s loop invariant ties `currentIndex` to it, `OctaveCloses` and `WalkIndicesDistinct` state its properties |
| `Scale.ScaleOf` | src/lib/scale.ts:31-73 | the reference definition that `GenerateScale` is proved equal to; it has no `ensures` of its own: `ScaleEmptyIff`, `ScaleIsWalk`, `ScaleOfMode` and `ScaleDegree` state its properties |
| `Scale.IndexOf` | src/lib/scale.ts:33 | the result is -1 exactly when the name is not in the table; otherwise it is the position of the first occurrence |
| `Scale.NoteIndex` | src/lib/scale.ts:2-33 | because the twelve table names are distinct, the lookup of the name at position k returns k |
| `Scale.AllNotesDistinct` | src/lib/scale.ts:2-15 | the twelve names of the pitch-class table are pairwise distinct |
| `Scale.ModeOf` | src/lib/scale.ts:40-55 | a mode found under a key is the mode whose key that is |
| `Scale.ModeOfName` | src/lib/scale.ts:18-60 | every mode of the declared `Mode` type has a step pattern, so the empty result for a missing pattern arises only for other names |
| `Scale.GenerateScale` | src/lib/scale.ts:31-73 | the result equals the specification `ScaleOf`: empty for an unknown root or mode, otherwise the walk along the mode's steps from the root's index |
| `Scale.WalkScale` | src/lib/scale.ts:62-71 | the loop that pushes `allNotes[currentIndex]` and then advances `currentIndex` modulo 12 produces exactly the walk: one name per step, the i-th at the root index plus the first i steps, modulo 12 |
| `Scale.Walk` | src/lib/scale.ts:66-68 | the walk has exactly one name per step |
| `Scale.ScaleEmptyIff` | src/lib/scale.ts:33-60 | the result is empty if and only if the root is not one of the twelve names or the mode name has no step pattern |
| `Scale.StepsArePatterns` | src/lib/scale.ts:42-54 | every mode's pattern has seven steps, each a whole or a half step, adding up to twelve semitones |
| `Scale.PrefixSumsOfSteps` | src/lib/scale.ts:42-54 | the running sums of each mode's steps are that mode's textbook degrees (Major 0,2,4,5,7,9,11 and so on), and all seven steps sum to 12 |
| `Scale.PrefixSumsIncrease` | src/lib/scale.ts:66-70 | with steps of at least one semitone, each further step raises the running sum by at least one |
| `Scale.WalkStartsAtRoot` | src/lib/scale.ts:64-68 | the first name of a non-empty walk is the name at the root's index |
| `Scale.OctaveCloses` | src/lib/scale.ts:64-70 | after all steps of a pattern summing to 12 the index is back at the root |
| `Scale.WalkIndicesDistinct` | src/lib/scale.ts:66-70 | along such a pattern no two steps of the walk visit the same index |
| `Scale.WalkDistinct` | src/lib/scale.ts:2-71 | along such a pattern the names of the walk are pairwise distinct |
| `Scale.WalkOfMode` | src/lib/scale.ts:42-71 | from any root index, a mode's walk has seven pairwise distinct names, starts at the root, and its i-th name is the mode's i-th degree above the root |
| `Scale.ScaleIsWalk` | src/lib/scale.ts:31-71 | for a known root and a mode's own name, the result is the walk from the root's index along that mode's steps |
| `Scale.ScaleOfMode` | src/lib/scale.ts:31-71 | for a known root and any mode, the result has seven pairwise distinct names, each from the table, and the first is the root itself |
| `Scale.ScaleDegree` | src/lib/scale.ts:64-71 | for a known root at table position k, the i-th name of the result is the table entry at (k + the mode's i-th degree) mod 12 |
| `Scale.ModeClosesOctave` | src/lib/scale.ts:64-71 | for every known root and mode, seven steps bring the index back to the root's index |

## Left out

- The rest of the repository (the React page in `src/app/page.tsx`) is not part of this model. It is UI state wiring, form handlers and floating-point timing arithmetic (`1000 / frequency`, `60000 / tempo`, `toFixed` formatting).
- `Scale.ModeOf`: JavaScript's object lookup `{...}[mode]` also finds properties every object inherits, and `generateScale` then uses that property's `length` as the number of steps. For a known root such as `"C"`, `"constructor"` (the `Object` function, length 1) gives `["C"]`, `"__defineGetter__"` (length 2) gives `["C", undefined]`, and a name whose function has length 0, such as `"toString"`, gives `[]`. The model returns `[]` for every name other than the seven keys. The declared `Mode` type keeps such names out of typed callers.
- The counted loop of `generateScale` is a separate method, `WalkScale`, called once from `GenerateScale`. The split keeps the proof of the loop free of the table lookups. The order of operations is unchanged.
- JavaScript arrays are modelled as immutable sequences. A push is an append to the local sequence. The result array is fresh and is not shared, so no aliasing is lost.
