/**
 * The ECMAScript string built-ins the components rely on: `trim()`,
 * `split(' ')`, `toUpperCase()` and `charAt(0)`, with strings as sequences
 * of characters.
 */
module JsText {

  /**
   * ECMAScript's StrWhiteSpaceChar: the WhiteSpace code points (TAB, VT, FF,
   * SP, NBSP, ZWNBSP and the space separators of Unicode category Zs) and the
   * LineTerminator code points (LF, CR, LS, PS). Both `trim()` and the
   * number parsers strip exactly these.
   */
  predicate IsSpace(c: char)
  {
    c in SpaceChars
  }

  const SpaceChars: set<char> := {
    '\t', '\n', '\U{000B}', '\U{000C}', '\r', ' ', '\U{00A0}', '\U{1680}',
    '\U{2000}', '\U{2001}', '\U{2002}', '\U{2003}', '\U{2004}', '\U{2005}', '\U{2006}',
    '\U{2007}', '\U{2008}', '\U{2009}', '\U{200A}', '\U{2028}', '\U{2029}', '\U{202F}',
    '\U{205F}', '\U{3000}', '\U{FEFF}'
  }

  /** True when every character of `s` is white space (also when `s` is empty). */
  predicate IsBlank(s: string)
  {
    forall i :: 0 <= i < |s| ==> IsSpace(s[i])
  }

  /** `s` with its leading white space removed. */
  function TrimStart(s: string): (r: string)
    ensures |r| <= |s| && r == s[|s| - |r|..]
    ensures r == [] || !IsSpace(r[0])
  {
    if s != [] && IsSpace(s[0]) then TrimStart(s[1..]) else s
  }

  /** Everything `TrimStart` skips is white space. */
  lemma {:induction false} TrimStartSkipsSpaces(s: string)
    ensures forall i :: 0 <= i < |s| - |TrimStart(s)| ==> IsSpace(s[i])
  {
    if s != [] && IsSpace(s[0]) {
      TrimStartSkipsSpaces(s[1..]);
      forall i | 1 <= i < |s| - |TrimStart(s)| ensures IsSpace(s[i]) {
        assert s[i] == s[1..][i - 1];
      }
    }
  }

  /** `s` with its trailing white space removed. */
  function TrimEnd(s: string): (r: string)
    ensures |r| <= |s| && r == s[..|r|]
    ensures r == [] || !IsSpace(r[|r| - 1])
  {
    if s != [] && IsSpace(s[|s| - 1]) then TrimEnd(s[..|s| - 1]) else s
  }

  /** Everything `TrimEnd` drops is white space. */
  lemma {:induction false} TrimEndSkipsSpaces(s: string)
    ensures forall i :: |TrimEnd(s)| <= i < |s| ==> IsSpace(s[i])
  {
    if s != [] && IsSpace(s[|s| - 1]) {
      TrimEndSkipsSpaces(s[..|s| - 1]);
      forall i | |TrimEnd(s)| <= i < |s| - 1 ensures IsSpace(s[i]) {
        assert s[i] == s[..|s| - 1][i];
      }
    }
  }

  /** `String.prototype.trim`: white space removed at both ends. */
  function Trim(s: string): (r: string)
    ensures r == [] || (!IsSpace(r[0]) && !IsSpace(r[|r| - 1]))
    ensures r == [] <==> IsBlank(s)
  {
    var t := TrimStart(s);
    var r := TrimEnd(t);
    assert r == [] ==> IsBlank(s) by {
      if r == [] {
        TrimStartSkipsSpaces(s);
        TrimEndSkipsSpaces(t);
        forall i | 0 <= i < |s| ensures IsSpace(s[i]) {
          if i >= |s| - |t| { assert s[i] == t[i - (|s| - |t|)]; }
        }
      }
    }
    r
  }

  /** What `trimStart` removes is a blank prefix. */
  lemma {:induction false} TrimStartRemovesBlank(s: string)
    ensures s == s[..|s| - |TrimStart(s)|] + TrimStart(s)
    ensures IsBlank(s[..|s| - |TrimStart(s)|])
  {
    var k := |s| - |TrimStart(s)|;
    SplitAt(s, k);
    TrimStartSkipsSpaces(s);
    BlankPrefix(s, k);
  }

  lemma SplitAt(s: string, k: nat)
    requires k <= |s|
    ensures s == s[..k] + s[k..]
  {
  }

  lemma BlankPrefix(s: string, k: nat)
    requires k <= |s| && forall i :: 0 <= i < k ==> IsSpace(s[i])
    ensures IsBlank(s[..k])
  {
    assert forall i :: 0 <= i < k ==> s[..k][i] == s[i];
  }

  /** What `trimEnd` removes is a blank suffix. */
  lemma {:induction false} TrimEndRemovesBlank(s: string)
    ensures s == TrimEnd(s) + s[|TrimEnd(s)|..]
    ensures IsBlank(s[|TrimEnd(s)|..])
  {
    var k := |TrimEnd(s)|;
    SplitAt(s, k);
    TrimEndSkipsSpaces(s);
    BlankSuffix(s, k);
  }

  lemma BlankSuffix(s: string, k: nat)
    requires k <= |s| && forall i :: k <= i < |s| ==> IsSpace(s[i])
    ensures IsBlank(s[k..])
  {
    forall i | 0 <= i < |s| - k ensures IsSpace(s[k..][i]) {
      assert s[k..][i] == s[k + i];
    }
  }

  /**
   * What `trim()` removes is white space, and only at the two ends: the
   * result is the slice of `s` between a blank prefix and a blank suffix.
   */
  lemma {:induction false} TrimRemovesBlankEnds(s: string)
    ensures var i := |s| - |TrimStart(s)|; var j := i + |Trim(s)|;
      0 <= i <= j <= |s| && Trim(s) == s[i..j] && IsBlank(s[..i]) && IsBlank(s[j..])
  {
    TrimStartRemovesBlank(s);
    TrimIsSlice(s);
    TrimLeavesBlankSuffix(s);
  }

  lemma TrimIsSlice(s: string)
    ensures var i := |s| - |TrimStart(s)|; i + |Trim(s)| <= |s| && Trim(s) == s[i..i + |Trim(s)|]
  {
    var t := TrimStart(s);
    SliceOfSlice(s, t, TrimEnd(t));
  }

  lemma TrimLeavesBlankSuffix(s: string)
    ensures var j := |s| - |TrimStart(s)| + |Trim(s)|; j <= |s| && IsBlank(s[j..])
  {
    var t := TrimStart(s);
    var r := TrimEnd(t);
    TrimEndRemovesBlank(t);
    SliceOfSlice(s, t, r);
  }

  /** A prefix `r` of a suffix `t` of `s` is a slice of `s`, followed by the rest of `t`. */
  lemma SliceOfSlice(s: string, t: string, r: string)
    requires |t| <= |s| && t == s[|s| - |t|..]
    requires |r| <= |t| && r == t[..|r|]
    ensures var i := |s| - |t|; r == s[i..i + |r|] && s[i + |r|..] == t[|r|..]
  {
  }

  /** Trimming twice is trimming once. */
  lemma {:induction false} TrimIdempotent(s: string)
    ensures Trim(Trim(s)) == Trim(s)
  {
    var r := Trim(s);
    if r != [] {
      assert TrimStart(r) == r;
      assert TrimEnd(r) == r;
    }
  }

  /**
   * `s.split(' ')`: the maximal pieces between single spaces, including the
   * empty pieces around leading, trailing and repeated spaces.
   */
  function Split(s: string): (r: seq<string>)
    ensures |r| >= 1
    ensures forall k :: 0 <= k < |r| ==> ' ' !in r[k]
  {
    if s == [] then [""]
    else if s[0] == ' ' then [""] + Split(s[1..])
    else
      var rest := Split(s[1..]);
      [[s[0]] + rest[0]] + rest[1..]
  }

  /** `pieces.join(' ')`. */
  function JoinSpace(pieces: seq<string>): string
    requires |pieces| >= 1
  {
    if |pieces| == 1 then pieces[0] else pieces[0] + " " + JoinSpace(pieces[1..])
  }

  /** Joining the pieces of a split with the separator gives the string back. */
  lemma {:induction false} SplitJoin(s: string)
    ensures JoinSpace(Split(s)) == s
  {
    if s == [] {
    } else if s[0] == ' ' {
      SplitJoin(s[1..]);
      assert s == " " + s[1..];
    } else {
      var rest := Split(s[1..]);
      SplitJoin(s[1..]);
      if |rest| == 1 {
        assert JoinSpace(Split(s)) == [s[0]] + rest[0];
      } else {
        assert rest == [rest[0]] + rest[1..];
        assert JoinSpace(Split(s)) == [s[0]] + rest[0] + " " + JoinSpace(rest[1..]);
      }
    }
  }

  /** `c.toUpperCase()` on the Basic Latin letters a-z; other characters are kept. */
  function UpperChar(c: char): char
  {
    if 'a' <= c <= 'z' then (c as int - 'a' as int + 'A' as int) as char else c
  }

  /** `s.toUpperCase()`, character by character. */
  function Upper(s: string): (r: string)
    ensures |r| == |s|
  {
    seq(|s|, i requires 0 <= i < |s| => UpperChar(s[i]))
  }
}
