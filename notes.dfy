/** The two constant tables of the synth window: which keyboard letter sounds
    which note, and the twelve note names laid out around the chromatic wheel. */
module Notes {

  /** Keyboard letter (upper case) to the name of the note its sample sounds.
      'A' and 'K' both sound a C, an octave apart. */
  const NoteKeys: map<string, string> :=
    map["A" := "C", "S" := "D", "D" := "E", "F" := "F",
        "G" := "G", "H" := "A", "J" := "B", "K" := "C"]

  /** The note names in wheel order, starting at the top and going clockwise. */
  const Chromatic: seq<string> :=
    ["C", "C#", "D", "D#", "E", "F", "F#", "G", "G#", "A", "A#", "B"]

  /** A note name spelled with a sharp sign. */
  predicate IsSharp(note: string) {
    '#' in note
  }

  /** The keys that sound `note`, read off the table by hand: the inverse of
      NoteKeys, stated independently of it. */
  function KeysOf(note: string): (keys: set<string>)
    ensures keys <= NoteKeys.Keys
    ensures forall k :: k in keys ==> NoteKeys[k] == note
  {
    match note
    case "C" => {"A", "K"}
    case "D" => {"S"}
    case "E" => {"D"}
    case "F" => {"F"}
    case "G" => {"G"}
    case "A" => {"H"}
    case "B" => {"J"}
    case _ => {}
  }

  /** The mapped keys are the home row from 'A' to 'K'. */
  lemma NoteKeysDomain()
    ensures NoteKeys.Keys == {"A", "S", "D", "F", "G", "H", "J", "K"}
  {
  }

  /** The chromatic list has twelve names and no name twice. */
  lemma ChromaticDistinct()
    ensures |Chromatic| == 12
    ensures forall i, j :: 0 <= i < j < |Chromatic| ==> Chromatic[i] != Chromatic[j]
  {
  }

  /** Every note a key sounds is one of the twelve wheel names, and none of
      them is a sharp. */
  lemma NoteKeysOnWheel()
    ensures forall k :: k in NoteKeys ==> NoteKeys[k] in Chromatic && !IsSharp(NoteKeys[k])
  {
    forall k | k in NoteKeys
      ensures NoteKeys[k] in Chromatic && !IsSharp(NoteKeys[k])
    {
      assert k in {"A", "S", "D", "F", "G", "H", "J", "K"};
    }
  }

  /** KeysOf is the inverse of NoteKeys, in both directions. */
  lemma KeysOfInvertsNoteKeys(k: string, note: string)
    ensures k in KeysOf(note) <==> k in NoteKeys && NoteKeys[k] == note
  {
    if k in NoteKeys {
      assert k in {"A", "S", "D", "F", "G", "H", "J", "K"};
    }
  }

  /** No key sounds a sharp. */
  lemma SharpsHaveNoKey(note: string)
    requires IsSharp(note)
    ensures KeysOf(note) == {}
  {
  }
}
