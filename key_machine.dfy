/** The key-press state machine of the synth window, as values: the set of
    held keys, the log of samples played so far, and what a press and a
    release do to them. The window class is proved to follow these
    transitions exactly. */
module KeyMachine {
  import opened Notes

  /** Held keys, and every key whose sample was played, in playing order. */
  datatype KeyState = KeyState(pressed: set<string>, played: seq<string>)

  /** The state right after the window is opened. */
  const Initial: KeyState := KeyState({}, [])

  /** Only mapped keys are ever held or played. */
  predicate Inv(s: KeyState) {
    && s.pressed <= NoteKeys.Keys
    && forall i :: 0 <= i < |s.played| ==> s.played[i] in NoteKeys
  }

  /** A press of `key` (already upper-cased): the sample sounds and the key
      becomes held only when the key has a sample and is not held yet. */
  function Down(s: KeyState, key: string): (t: KeyState)
    ensures t.pressed == if key in NoteKeys then s.pressed + {key} else s.pressed
    ensures s.played <= t.played && |t.played| <= |s.played| + 1
    ensures |t.played| > |s.played| ==> t.played[|s.played|] == key && key !in s.pressed
  {
    if key in NoteKeys && key !in s.pressed then
      KeyState(s.pressed + {key}, s.played + [key])
    else
      s
  }

  /** A release of `key`: the key is no longer held, whatever it was. */
  function Up(s: KeyState, key: string): (t: KeyState)
    ensures key !in t.pressed && t.pressed <= s.pressed
    ensures s.pressed - t.pressed <= {key}
    ensures t.played == s.played
  {
    KeyState(s.pressed - {key}, s.played)
  }

  /** A note is lit when some held key sounds it. */
  predicate Lit(pressed: set<string>, note: string): (lit: bool)
    ensures lit ==> note in Chromatic && !IsSharp(note)
    ensures pressed * NoteKeys.Keys == {} ==> !lit
  {
    NoteKeysOnWheel();
    var lit := exists k :: k in pressed && k in NoteKeys && NoteKeys[k] == note;
    assert lit ==> pressed * NoteKeys.Keys != {} by {
      if lit {
        var k :| k in pressed && k in NoteKeys && NoteKeys[k] == note;
        assert k in pressed * NoteKeys.Keys;
      }
    }
    lit
  }

  /** One button event, carrying the upper-cased key. */
  datatype Event = Press(key: string) | Release(key: string)

  function Apply(s: KeyState, e: Event): KeyState {
    match e
    case Press(k) => Down(s, k)
    case Release(k) => Up(s, k)
  }

  /** The state after a sequence of events, applied from the first. */
  function Run(s: KeyState, es: seq<Event>): KeyState
    decreases |es|
  {
    if es == [] then s else Run(Apply(s, es[0]), es[1..])
  }

  /** How many of the events release `k`. */
  function Releases(es: seq<Event>, k: string): nat {
    if es == [] then 0
    else (if es[0] == Release(k) then 1 else 0) + Releases(es[1..], k)
  }

  /** `n` presses of the same key with no release between. */
  function Repeat(e: Event, n: nat): (es: seq<Event>)
    ensures |es| == n
    ensures forall i :: 0 <= i < n ==> es[i] == e
  {
    if n == 0 then [] else [e] + Repeat(e, n - 1)
  }

  // ----- Invariant --------------------------------------------------------

  lemma InitialInv()
    ensures Inv(Initial)
  {
  }

  lemma DownKeepsInv(s: KeyState, key: string)
    requires Inv(s)
    ensures Inv(Down(s, key))
  {
  }

  lemma UpKeepsInv(s: KeyState, key: string)
    requires Inv(s)
    ensures Inv(Up(s, key))
  {
  }

  /** No sequence of button events ever holds or plays an unmapped key. */
  lemma {:induction false} RunKeepsInv(s: KeyState, es: seq<Event>)
    requires Inv(s)
    ensures Inv(Run(s, es))
    decreases |es|
  {
    if es != [] {
      match es[0] {
        case Press(k) => DownKeepsInv(s, k);
        case Release(k) => UpKeepsInv(s, k);
      }
      RunKeepsInv(Apply(s, es[0]), es[1..]);
    }
  }

  // ----- Press ------------------------------------------------------------

  /** A key without a sample changes nothing and plays nothing. */
  lemma DownUnmapped(s: KeyState, key: string)
    requires key !in NoteKeys
    ensures Down(s, key) == s
  {
  }

  /** A key that is already held changes nothing and plays nothing. */
  lemma DownHeld(s: KeyState, key: string)
    requires key in s.pressed
    ensures Down(s, key) == s
  {
  }

  /** A mapped key that is not held plays its own sample exactly once and
      becomes held; no other key is pressed or released. */
  lemma DownFresh(s: KeyState, key: string)
    requires key in NoteKeys && key !in s.pressed
    ensures Down(s, key).played == s.played + [key]
    ensures key in Down(s, key).pressed
    ensures forall k :: k != key ==> (k in Down(s, key).pressed <==> k in s.pressed)
  {
  }

  /** Holding a key never retriggers it: any run of repeated presses of one
      key acts as a single press. */
  lemma {:induction false} RepeatedPressActsOnce(s: KeyState, key: string, n: nat)
    requires n >= 1
    ensures Run(s, Repeat(Press(key), n)) == Down(s, key)
    decreases n
  {
    var es := Repeat(Press(key), n);
    assert es[0] == Press(key) && es[1..] == Repeat(Press(key), n - 1);
    if n > 1 {
      RepeatedPressActsOnce(Down(s, key), key, n - 1);
      if key in NoteKeys && key !in s.pressed {
        assert key in Down(s, key).pressed;
      }
      assert Down(Down(s, key), key) == Down(s, key);
    }
  }

  /** Over any sequence of events, a key's sample is played at most once
      more than the number of times that key is released, and not even that
      once if it starts held: every retrigger needs a release first. */
  lemma {:induction false} PlaysBoundedByReleases(s: KeyState, es: seq<Event>, k: string)
    ensures multiset(Run(s, es).played)[k]
            <= multiset(s.played)[k] + Releases(es, k) + (if k in s.pressed then 0 else 1)
    decreases |es|
  {
    if es != [] {
      var t := Apply(s, es[0]);
      PlaysBoundedByReleases(t, es[1..], k);
      assert multiset(t.played)[k] <= multiset(s.played)[k] + (if k in s.pressed then 0 else 1);
      match es[0]
      case Press(j) =>
        assert (k in t.pressed) == (k in s.pressed || (j == k && multiset(t.played)[k] > multiset(s.played)[k]));
        assert multiset(t.played)[k] > multiset(s.played)[k] ==> k !in s.pressed && k in t.pressed;
      case Release(j) =>
    }
  }

  // ----- Release ----------------------------------------------------------

  /** A release removes its own key only and plays nothing. */
  lemma UpRemovesOnly(s: KeyState, key: string)
    ensures key !in Up(s, key).pressed
    ensures forall k :: k != key ==> (k in Up(s, key).pressed <==> k in s.pressed)
    ensures Up(s, key).played == s.played
  {
  }

  /** A second release of the same key is a no-op. */
  lemma UpIdempotent(s: KeyState, key: string)
    ensures Up(Up(s, key), key) == Up(s, key)
  {
  }

  /** After a release, pressing the same mapped key plays it again. */
  lemma ReleaseThenPressReplays(s: KeyState, key: string)
    requires key in NoteKeys
    ensures Down(Up(s, key), key).played == s.played + [key]
    ensures key in Down(Up(s, key), key).pressed
  {
  }

  // ----- Lit notes --------------------------------------------------------

  /** Nothing is lit before any key is pressed. */
  lemma NothingLitInitially(note: string)
    ensures !Lit(Initial.pressed, note)
  {
  }

  /** A note is lit exactly when one of the keys that sound it is held. */
  lemma LitIffKeyOfNoteHeld(pressed: set<string>, note: string)
    ensures Lit(pressed, note) <==> pressed * KeysOf(note) != {}
  {
    if Lit(pressed, note) {
      var k :| k in pressed && k in NoteKeys && NoteKeys[k] == note;
      KeysOfInvertsNoteKeys(k, note);
      assert k in pressed * KeysOf(note);
    }
    if pressed * KeysOf(note) != {} {
      var k :| k in pressed * KeysOf(note);
      KeysOfInvertsNoteKeys(k, note);
    }
  }

  /** C is lit when either the 'A' or the 'K' key is held, and only then. */
  lemma CLitByAOrK(pressed: set<string>)
    ensures Lit(pressed, "C") <==> "A" in pressed || "K" in pressed
  {
    LitIffKeyOfNoteHeld(pressed, "C");
    assert KeysOf("C") == {"A", "K"};
    if "A" in pressed {
      assert "A" in pressed * KeysOf("C");
    }
    if "K" in pressed {
      assert "K" in pressed * KeysOf("C");
    }
  }

  /** No sharp is ever lit, whatever is held. */
  lemma SharpNeverLit(pressed: set<string>, note: string)
    requires IsSharp(note)
    ensures !Lit(pressed, note)
  {
    LitIffKeyOfNoteHeld(pressed, note);
    SharpsHaveNoKey(note);
  }

  /** Only wheel notes can be lit. */
  lemma LitNoteOnWheel(pressed: set<string>, note: string)
    requires Lit(pressed, note)
    ensures note in Chromatic && !IsSharp(note)
  {
    NoteKeysOnWheel();
  }
}
