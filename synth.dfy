/** The synth window: the samples it loads, the keys it holds, and how a
    button press or release and the chromatic wheel use them. Windowing,
    fonts and audio output belong to the game library and are not modelled;
    playing a sample is recorded in the ghost log `played`. */
module Synth {
  import opened Notes
  import opened Keys
  import opened KeyMachine

  /** The colour a wheel dot is drawn in. */
  datatype Color = Yellow | Gray

  /** The file the sample of `key` is loaded from. */
  function SamplePath(key: string): (path: string)
    ensures |path| == |key| + 11
    ensures path[..7] == "sounds/" && path[7 + |key|..] == ".wav"
    ensures path[7..7 + |key|] == key
  {
    "sounds/" + key + ".wav"
  }

  /** Distinct keys load distinct sample files. */
  lemma SamplePathInjective(a: string, b: string)
    requires SamplePath(a) == SamplePath(b)
    ensures a == b
  {
    var pa, pb := SamplePath(a), SamplePath(b);
    assert |a| == |pa| - 11 == |b|;
    assert a == pa[7..7 + |a|];
    assert b == pb[7..7 + |b|];
  }

  /** Loads one sample per mapped key, keyed by that key. */
  method LoadSounds() returns (sounds: map<string, string>)
    ensures sounds.Keys == NoteKeys.Keys
    ensures forall k :: k in sounds ==> sounds[k] == SamplePath(k)
  {
    sounds := map[];
    var todo := NoteKeys.Keys;
    while todo != {}
      invariant todo <= NoteKeys.Keys
      invariant sounds.Keys == NoteKeys.Keys - todo
      invariant forall k :: k in sounds ==> sounds[k] == SamplePath(k)
      decreases todo
    {
      var key :| key in todo;
      sounds := sounds[key := SamplePath(key)];
      todo := todo - {key};
    }
  }

  /** The colour of the wheel dot for `note`. */
  function DotColor(pressed: set<string>, note: string): (c: Color)
    ensures c == Yellow ==> note in Chromatic && !IsSharp(note)
    ensures pressed == {} ==> c == Gray
  {
    if Lit(pressed, note) then Yellow else Gray
  }

  /** Sharps are always drawn grey; a natural note is yellow exactly when one
      of its keys is held. */
  lemma DotColorByKeys(pressed: set<string>, note: string)
    ensures IsSharp(note) ==> DotColor(pressed, note) == Gray
    ensures DotColor(pressed, note) == Yellow <==> pressed * KeysOf(note) != {}
  {
    LitIffKeyOfNoteHeld(pressed, note);
    if IsSharp(note) {
      SharpsHaveNoKey(note);
    }
  }

  class SynthWindow {
    /** The loaded sample of each key, given by the file it came from. */
    var sounds: map<string, string>
    /** The keys held down. */
    var pressed: set<string>
    /** Every key whose sample was played, oldest first. */
    ghost var played: seq<string>

    /** The key-press state the window is in. */
    ghost function State(): KeyState
      reads this
    {
      KeyState(pressed, played)
    }

    /** Each mapped key, and only those, has its own sample loaded, and
        only mapped keys are held or played. */
    ghost predicate Valid()
      reads this
    {
      && sounds.Keys == NoteKeys.Keys
      && (forall k :: k in sounds ==> sounds[k] == SamplePath(k))
      && Inv(State())
    }

    /** Opens the window with all samples loaded and no key held. */
    constructor ()
      ensures Valid()
      ensures State() == Initial
    {
      var loaded := LoadSounds();
      sounds := loaded;
      pressed := {};
      played := [];
    }

    /** Whether the dot of `note` is lit; it reads the held keys only. */
    function NoteActive(note: string): (lit: bool)
      reads this`pressed
      ensures lit <==> pressed * KeysOf(note) != {}
    {
      LitIffKeyOfNoteHeld(pressed, note);
      Lit(pressed, note)
    }

    /** A button went down; `ch` is the character it stands for. */
    method ButtonDown(ch: string)
      requires Valid()
      modifies this`pressed, this`played
      ensures Valid()
      ensures State() == Down(old(State()), Upcase(ch))
    {
      var key := Upcase(ch);
      if key in sounds && key !in pressed {
        played := played + [key];
        pressed := pressed + {key};
      }
    }

    /** A button went up; `ch` is the character it stands for. */
    method ButtonUp(ch: string)
      requires Valid()
      modifies this`pressed
      ensures Valid()
      ensures State() == Up(old(State()), Upcase(ch))
    {
      var key := Upcase(ch);
      pressed := pressed - {key};
    }

    /** The colours of the wheel dots, one per chromatic note in wheel order. */
    method WheelColors() returns (colors: seq<Color>)
      ensures |colors| == |Chromatic|
      ensures forall i :: 0 <= i < |Chromatic| ==> colors[i] == DotColor(pressed, Chromatic[i])
    {
      colors := [];
      var i := 0;
      while i < |Chromatic|
        invariant 0 <= i <= |Chromatic|
        invariant |colors| == i
        invariant forall j :: 0 <= j < i ==> colors[j] == DotColor(pressed, Chromatic[j])
      {
        var color := if NoteActive(Chromatic[i]) then Yellow else Gray;
        colors := colors + [color];
        i := i + 1;
      }
    }
  }

  /** A client of the window: pressing 'a' on a fresh window plays the 'A'
      sample and lights C; pressing 'A' while it is held plays nothing; after
      the release C is dark, and the next press plays the sample again. */
  method PressAndReleaseC()
  {
    UpcaseToCapital("a", 'A');
    UpcaseToCapital("A", 'A');
    var w := new SynthWindow();
    w.ButtonDown("a");
    assert w.played == ["A"];
    CLitByAOrK(w.pressed);
    assert w.NoteActive("C");
    w.ButtonDown("A");
    assert w.played == ["A"];
    w.ButtonUp("a");
    assert w.pressed == {};
    assert !w.NoteActive("C");
    w.ButtonDown("A");
    assert w.played == ["A", "A"];
  }
}
