/** Upper-casing of the character string that a pressed or released button
    stands for, before it is looked up in the key tables. */
module Keys {

  /** ASCII upper-casing of one character; every other character is kept. */
  function UpcaseChar(c: char): (u: char)
    ensures !('a' <= u <= 'z')
    ensures 'A' <= u <= 'Z' ==> u == c || u as int == c as int - 32
    ensures 'a' <= c <= 'z' ==> 'A' <= u <= 'Z' && u as int == c as int - 32
    ensures !('a' <= c <= 'z') ==> u == c
  {
    if 'a' <= c <= 'z' then (c as int - 32) as char else c
  }

  /** The string with each ASCII lower-case letter replaced by its capital. */
  function Upcase(s: string): (r: string)
    ensures |r| == |s|
    ensures forall i :: 0 <= i < |s| ==> r[i] == UpcaseChar(s[i])
    ensures forall i :: 0 <= i < |r| ==> !('a' <= r[i] <= 'z')
  {
    if s == [] then [] else [UpcaseChar(s[0])] + Upcase(s[1..])
  }

  /** Upper-casing twice is upper-casing once. */
  lemma {:induction false} UpcaseIdempotent(s: string)
    ensures Upcase(Upcase(s)) == Upcase(s)
  {
    if s != [] {
      UpcaseIdempotent(s[1..]);
      var u := Upcase(s);
      assert u[1..] == Upcase(s[1..]);
    }
  }

  /** A one-capital key string is reached from exactly two button strings:
      that capital and its lower-case letter. */
  lemma UpcaseToCapital(s: string, c: char)
    requires 'A' <= c <= 'Z'
    ensures Upcase(s) == [c] <==> s == [c] || s == [(c as int + 32) as char]
  {
    if Upcase(s) == [c] {
      assert |s| == 1;
      assert Upcase(s)[0] == UpcaseChar(s[0]);
      assert s == [s[0]];
    }
  }
}
