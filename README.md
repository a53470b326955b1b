# Synth window key-press model

A model of the keyboard synth window of the `sound_wheel` toy. The window
maps eight home-row keys to note samples. It plays a key's sample when the key
goes down, unless the key is already held. It shows a chromatic wheel of twelve
notes, and a note's dot is yellow while a key that sounds it is held.

Modules:

- `Notes` (notes.dfy) holds the two constant tables. `NoteKeys` maps key to
  note. `Chromatic` lists the twelve wheel names. `KeysOf` is the inverse of
  `NoteKeys`, written out by hand.
- `Keys` (keys.dfy) does the upper-casing of the button's character, ASCII only.
- `KeyMachine` (key_machine.dfy) is the key-press state machine as values. A
  `KeyState` holds the held keys and the log of samples played. `Down` is a
  press, `Up` a release, and `Lit` is the note-lit query. `Run` applies a
  sequence of events. The lemmas state what a press and a release do, the
  invariant every run keeps, and when a note is lit.
- `Synth` (synth.dfy) has the class `SynthWindow`. Its fields are `sounds`,
  `pressed` and the ghost log `played`. `ButtonDown` and `ButtonUp` change the
  fields in place and are proved to follow `Down` and `Up` exactly. The
  constructor loads one sample per key through `LoadSounds`. `NoteActive` is
  `note_active?`. It reads only `pressed`, so the answer depends only on the
  held keys. `WheelColors` is the colour choice of the wheel-drawing loop.
- `Geometry` (geometry.dfy) keeps the index structure of the two circle-drawing
  loops. Edge `i` joins point `i` to point `(i + 1) % segments`. Each point
  starts one edge and ends one edge, and the polygon closes.

## Model

| member | source | states |
|---|---|---|
| `Notes.NoteKeysDomain` | synth.rb:5-14 | the mapped keys are exactly A S D F G H J K |
| `Notes.ChromaticDistinct` | synth.rb:15 | the chromatic list has twelve names, all different |
| `Notes.NoteKeysOnWheel` | synth.rb:5-15 | every note a key sounds is a wheel name and is not a sharp |
| `Notes.KeysOfInvertsNoteKeys` | synth.rb:5-14 | `k` is one of the keys of `note` iff `NoteKeys[k] == note` (both directions) |
| `Notes.SharpsHaveNoKey` | synth.rb:5-15 | no key sounds a sharp |
| `Notes.KeysOf` | synth.rb:5-14 | every key it lists for a note is mapped, and mapped to that note |
| `Keys.UpcaseChar` | synth.rb:79 | a lower-case ASCII letter becomes its own capital, every other character is kept, and no lower-case letter is left |
| `Keys.Upcase` | synth.rb:79 | the result has the same length, character `i` is `UpcaseChar` of input character `i`, and no lower-case ASCII letter is left |
| `Keys.UpcaseIdempotent` | synth.rb:79 | upper-casing twice equals upper-casing once |
| `Keys.UpcaseToCapital` | synth.rb:79-80 | a one-capital key such as "A" comes from exactly two button strings, "A" and "a" |
| `KeyMachine.Down` | synth.rb:80-83 | a press holds the key iff it is mapped, and appends at most one play, of that key, and only if it was not held |
| `KeyMachine.Up` | synth.rb:88 | a release leaves its key unheld, drops no other key, and plays nothing |
| `KeyMachine.Lit` | synth.rb:73-75 | a lit note is a natural note of the wheel, and no note is lit while no mapped key is held |
| `KeyMachine.InitialInv` | synth.rb:24 | the opening state (nothing held, nothing played) keeps the invariant |
| `KeyMachine.DownKeepsInv` | synth.rb:80-83 | a press keeps "only mapped keys are held or played" |
| `KeyMachine.UpKeepsInv` | synth.rb:86-89 | a release keeps the invariant |
| `KeyMachine.RunKeepsInv` | synth.rb:78-89 | no sequence of presses and releases ever holds or plays an unmapped key |
| `KeyMachine.DownUnmapped` | synth.rb:80 | pressing a key with no sample changes nothing and plays nothing |
| `KeyMachine.DownHeld` | synth.rb:80 | pressing a held key changes nothing and plays nothing |
| `KeyMachine.DownFresh` | synth.rb:80-83 | pressing a mapped key that is not held plays its sample once and holds it; no other key changes |
| `KeyMachine.RepeatedPressActsOnce` | synth.rb:80-83 | any number of repeated presses of one key acts as a single press |
| `KeyMachine.PlaysBoundedByReleases` | synth.rb:78-89 | over any event sequence a key plays at most once more than it is released, and never more than its releases if it starts held |
| `KeyMachine.UpRemovesOnly` | synth.rb:88 | a release drops its own key, keeps every other key, and plays nothing |
| `KeyMachine.UpIdempotent` | synth.rb:86-89 | releasing the same key twice is the same as releasing it once |
| `KeyMachine.ReleaseThenPressReplays` | synth.rb:78-89 | after a release, pressing the same mapped key plays it again and holds it |
| `KeyMachine.NothingLitInitially` | synth.rb:71-76 | with nothing held no note is lit |
| `KeyMachine.LitIffKeyOfNoteHeld` | synth.rb:71-76 | a note is lit iff one of the keys that sound it is held |
| `KeyMachine.CLitByAOrK` | synth.rb:71-76 | C is lit iff 'A' or 'K' is held |
| `KeyMachine.SharpNeverLit` | synth.rb:71-76 | no sharp is ever lit |
| `KeyMachine.LitNoteOnWheel` | synth.rb:71-76 | a lit note is a natural note of the wheel |
| `Synth.SamplePath` | synth.rb:22 | the file name is `sounds/`, then the key, then `.wav`: 11 characters longer than the key, which can be read back from it |
| `Synth.SamplePathInjective` | synth.rb:21-23 | distinct keys load distinct sample files |
| `Synth.LoadSounds` | synth.rb:20-23 | exactly the mapped keys get a sample, each from its own file `sounds/<key>.wav` |
| `Synth.DotColor` | synth.rb:64 | a yellow dot is a natural note of the wheel, and every dot is grey while nothing is held |
| `Synth.DotColorByKeys` | synth.rb:64 | a sharp's dot is grey; a dot is yellow iff one of its note's keys is held |
| `Synth.SynthWindow.constructor` | synth.rb:17-27 | after opening, every mapped key has its sample, nothing is held and nothing is played |
| `Synth.SynthWindow.NoteActive` | synth.rb:71-76 | a note is active iff one of the keys that sound it is held; it reads only the held keys |
| `Synth.SynthWindow.ButtonDown` | synth.rb:78-84 | the new state is `Down` of the old state on the upper-cased key; the invariant is kept |
| `Synth.SynthWindow.ButtonUp` | synth.rb:86-89 | the new state is `Up` of the old state on the upper-cased key; the invariant is kept |
| `Synth.SynthWindow.WheelColors` | synth.rb:60-64 | twelve colours in wheel order, yellow exactly for the lit notes |
| `Geometry.Next` | synth.rb:53 | the next point index is below `segments` and wraps from the last point to 0 |
| `Geometry.Prev` | synth.rb:104-107 | every point is the end of the edge of the point before it |
| `Geometry.OutlineLines` | synth.rb:52-55 | the outline has one line per point, line `i` joining point `i` to the next |
| `Geometry.FanTriangles` | synth.rb:104-107 | the fan has one triangle per point, triangle `i` joining point `i` to the next |
| `Geometry.NextInjective` | synth.rb:52-55 | distinct points have distinct successors |
| `Geometry.DrawnPolygonsClose` | synth.rb:43-108 | for the 64-point outline and the 32-point fill, the edge walk visits every point once and returns to point 0 |
| `Geometry.EachPointStartsAndEndsOnce` | synth.rb:104-107 | exactly one edge ends at each point, the one from the point before it |
| `Geometry.WalkWithinLap` | synth.rb:52-55 | following `k < segments` edges from point 0 reaches point `k` |
| `Geometry.PolygonCloses` | synth.rb:52-55 | walking the edges visits every point once and is back at point 0 after `segments` edges |

## Left out

- Windowing, `draw`, the background rectangle, fonts and text, and `show`. They are calls into the game library (synth.rb:18-19, 25-40, 112).
- Loading and playing audio. A loaded sample is modelled by the path of its file. Playing it appends the key to the ghost log `played` (synth.rb:22, 81).
- Mapping a button id to a character. `ButtonDown` and `ButtonUp` take that character string as their input (synth.rb:79, 87).
- Keys.Upcase, Keys.UpcaseChar: upper-case ASCII letters only. Ruby's `upcase` also maps non-ASCII letters, for example U+017F (long s) to "S", which would sound the D note.
- The point coordinates, the angles, the circle radii and the `segments.times` loops that build the point lists. They are floating-point geometry. Only the index structure of the edges is kept (synth.rb:44-51, 61-63, 96-103).
- The dot positions and labels of the wheel. The wheel's colour choice is kept in `WheelColors` (synth.rb:61-66).
- `@pressed` is a hash whose values are always `true`, so it is modelled as a set of keys. The order of its keys does not affect any result.
- generate_wavs.rb. It runs an external sound tool once per note. Its `NOTES` keys are the same eight letters as `NoteKeys`, so every sample file that `LoadSounds` names exists.
