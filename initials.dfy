/**
 * `getInitials(name)`: `name.split(' ').map(w => w.charAt(0)).join('')
 * .toUpperCase().slice(0, 2)`, the avatar fallback of both card components.
 */
module Initials {
  import opened JsText

  /** `pieces.map(w => w.charAt(0)).join('')`: the first character of each non-empty piece. */
  function FirstChars(pieces: seq<string>): (r: string)
    ensures |r| <= |pieces|
    ensures (forall k :: 0 <= k < |pieces| ==> pieces[k] != "") ==>
      |r| == |pieces| && forall k :: 0 <= k < |r| ==> r[k] == pieces[k][0]
  {
    if pieces == [] then ""
    else (if pieces[0] == "" then "" else [pieces[0][0]]) + FirstChars(pieces[1..])
  }

  /**
   * The characters of `s` that begin a word: not a space, and either first
   * in `s` (when `atStart`) or right after a space.
   */
  function WordStarts(s: string, atStart: bool): string
  {
    if s == [] then ""
    else if s[0] == ' ' then WordStarts(s[1..], true)
    else (if atStart then [s[0]] else "") + WordStarts(s[1..], false)
  }

  /** Splitting on spaces and taking first characters yields exactly the word starts. */
  lemma {:induction false} FirstCharsOfSplit(s: string)
    ensures FirstChars(Split(s)) == WordStarts(s, true)
    ensures FirstChars(Split(s)[1..]) == WordStarts(s, false)
  {
    if s == [] {
    } else if s[0] == ' ' {
      FirstCharsOfSplit(s[1..]);
      assert Split(s)[1..] == Split(s[1..]);
    } else {
      FirstCharsOfSplit(s[1..]);
      var rest := Split(s[1..]);
      assert Split(s)[1..] == rest[1..];
      assert FirstChars(Split(s)) == [s[0]] + FirstChars(rest[1..]);
    }
  }

  /**
   * The initials: at most two characters, the upper-cased first letters of
   * the space-separated words, in order.
   */
  function GetInitials(name: string): (r: string)
    ensures |r| <= 2
    ensures var w := WordStarts(name, true);
      |r| == (if |w| < 2 then |w| else 2) && r == Upper(w[..|r|])
  {
    var joined := FirstChars(Split(name));
    var upper := Upper(joined);
    var r := if |upper| < 2 then upper else upper[..2];
    FirstCharsOfSplit(name);
    assert r == Upper(joined[..|r|]);
    r
  }
}
