/**
 * The leaderboard card of one player or team: the +10 / -10 buttons, the
 * in-place editor of the balance with its input sanitizer, and the commit
 * rule of an edit.
 */
module PlayerCard {
  import opened Wrappers
  import opened JsNumber

  predicate IsDigitOrDot(c: char)
  {
    IsDigit(c) || c == '.'
  }

  /** The number of decimal points in `s`. */
  function DotCount(s: string): nat
  {
    if s == [] then 0 else DotCount(s[..|s| - 1]) + (if s[|s| - 1] == '.' then 1 else 0)
  }

  /** The decimal digits of `s`, in order. */
  function Digits(s: string): string
  {
    if s == [] then [] else Digits(s[..|s| - 1]) + (if IsDigit(s[|s| - 1]) then [s[|s| - 1]] else [])
  }

  lemma {:induction false} DotCountConcat(a: string, b: string)
    ensures DotCount(a + b) == DotCount(a) + DotCount(b)
  {
    if b == [] {
      assert a + b == a;
    } else {
      var n := |b| - 1;
      assert (a + b)[..|a + b| - 1] == a + b[..n];
      DotCountConcat(a, b[..n]);
    }
  }

  lemma {:induction false} DigitsConcat(a: string, b: string)
    ensures Digits(a + b) == Digits(a) + Digits(b)
  {
    if b == [] {
      assert a + b == a;
    } else {
      var n := |b| - 1;
      assert (a + b)[..|a + b| - 1] == a + b[..n];
      DigitsConcat(a, b[..n]);
    }
  }

  /** `replace(/[^0-9.]/g, '')`: every character but digits and points is dropped. */
  function KeepDigitsAndDots(s: string): (r: string)
    ensures forall i :: 0 <= i < |r| ==> IsDigitOrDot(r[i])
    ensures DotCount(r) == DotCount(s) && Digits(r) == Digits(s)
    ensures |s| == 1 ==> r == if IsDigitOrDot(s[0]) then s else []
  {
    if s == [] then []
    else
      var c := s[|s| - 1];
      var init := KeepDigitsAndDots(s[..|s| - 1]);
      var r := init + (if IsDigitOrDot(c) then [c] else []);
      DotCountConcat(init, if IsDigitOrDot(c) then [c] else []);
      DigitsConcat(init, if IsDigitOrDot(c) then [c] else []);
      assert [c][..0] == [];
      r
  }

  /**
   * The first replace works character by character, in order: replacing in
   * a concatenation replaces in each part.
   */
  lemma {:induction false} KeepDigitsAndDotsConcat(a: string, b: string)
    ensures KeepDigitsAndDots(a + b) == KeepDigitsAndDots(a) + KeepDigitsAndDots(b)
    decreases |b|
  {
    if b == [] {
      assert a + b == a;
    } else {
      var c := b[|b| - 1];
      var b' := b[..|b| - 1];
      var t := if IsDigitOrDot(c) then [c] else [];
      var ka, kb' := KeepDigitsAndDots(a), KeepDigitsAndDots(b');
      calc {
        KeepDigitsAndDots(a + b);
        { assert a + b == (a + b') + [c]; KeepDigitsAndDotsStep(a + b', c); }
        KeepDigitsAndDots(a + b') + t;
        { KeepDigitsAndDotsConcat(a, b'); }
        (ka + kb') + t;
        ka + (kb' + t);
        { assert b == b' + [c]; KeepDigitsAndDotsStep(b', c); }
        ka + KeepDigitsAndDots(b);
      }
    }
  }

  lemma KeepDigitsAndDotsStep(x: string, c: char)
    ensures KeepDigitsAndDots(x + [c]) == KeepDigitsAndDots(x) + (if IsDigitOrDot(c) then [c] else [])
  {
    assert (x + [c])[..|x + [c]| - 1] == x;
  }

  /** A string of digits and points is left as it is by the first replace. */
  lemma {:induction false} KeepDigitsAndDotsFixes(s: string)
    requires forall i :: 0 <= i < |s| ==> IsDigitOrDot(s[i])
    ensures KeepDigitsAndDots(s) == s
  {
    if s != [] {
      KeepDigitsAndDotsFixes(s[..|s| - 1]);
      assert s == s[..|s| - 1] + [s[|s| - 1]];
    }
  }

  /** The position of the last decimal point. */
  function LastDot(f: string): (j: nat)
    requires DotCount(f) >= 1
    ensures j < |f| && f[j] == '.'
    ensures forall k :: j < k < |f| ==> f[k] != '.'
  {
    if f[|f| - 1] == '.' then |f| - 1 else LastDot(f[..|f| - 1])
  }

  /**
   * The input sanitizer `replace(/[^0-9.]/g, '').replace(/(\..*)\./g, '$1')`.
   * The second pattern matches from the first point to the last one (the
   * `.*` is greedy), and keeps all of it but that last point. So: only
   * digits and points remain, the digits in order, and when two or more
   * points remain exactly one of them, the last, is removed.
   */
  function Sanitize(s: string): (r: string)
    ensures forall i :: 0 <= i < |r| ==> IsDigitOrDot(r[i])
    ensures Digits(r) == Digits(s)
    ensures DotCount(r) == if DotCount(s) >= 2 then DotCount(s) - 1 else DotCount(s)
    ensures var f := KeepDigitsAndDots(s);
      DotCount(f) >= 2 ==> r == f[..LastDot(f)] + f[LastDot(f) + 1..]
    ensures DotCount(KeepDigitsAndDots(s)) < 2 ==> r == KeepDigitsAndDots(s)
  {
    var f := KeepDigitsAndDots(s);
    if DotCount(f) >= 2 then
      var j := LastDot(f);
      DropPoint(f, j);
      DropKeepsDigitsAndDots(f, j, f[..j] + f[j + 1..]);
      f[..j] + f[j + 1..]
    else
      f
  }

  /** Removing one point from a string removes one point and no digit. */
  lemma DropPoint(f: string, j: nat)
    requires j < |f| && f[j] == '.'
    ensures DotCount(f[..j] + f[j + 1..]) == DotCount(f) - 1
    ensures Digits(f[..j] + f[j + 1..]) == Digits(f)
  {
    var a, b := f[..j], f[j + 1..];
    assert f == (a + ['.']) + b;
    DropPointDots(a, b);
    DropPointDigits(a, b);
  }

  /** Removing a character keeps a string of digits and points one. */
  lemma DropKeepsDigitsAndDots(f: string, j: nat, g: string)
    requires j < |f| && forall i :: 0 <= i < |f| ==> IsDigitOrDot(f[i])
    requires g == f[..j] + f[j + 1..]
    ensures forall i :: 0 <= i < |g| ==> IsDigitOrDot(g[i])
  {
    forall i | 0 <= i < |g| ensures IsDigitOrDot(g[i]) {
      if i < j {
        assert g[i] == f[i];
      } else {
        assert g[i] == f[i + 1];
      }
    }
  }

  lemma DropPointDots(a: string, b: string)
    ensures DotCount((a + ['.']) + b) == DotCount(a + b) + 1
  {
    DotCountConcat(a + ['.'], b);
    DotCountConcat(a, ['.']);
    DotCountConcat(a, b);
    assert ['.'][..0] == [];
  }

  lemma DropPointDigits(a: string, b: string)
    ensures Digits((a + ['.']) + b) == Digits(a + b)
  {
    DigitsConcat(a + ['.'], b);
    DigitsConcat(a, ['.']);
    DigitsConcat(a, b);
    assert ['.'][..0] == [];
  }

  /**
   * Typing one character into a field that holds at most one point leaves
   * at most one point: the sanitizer keeps the value a decimal number.
   */
  lemma TypingKeepsOnePoint(before: string, c: char, after: string)
    requires DotCount(before + after) <= 1
    ensures DotCount(Sanitize(before + [c] + after)) <= 1
  {
    DotCountConcat(before, after);
    DotCountConcat(before + [c], after);
    DotCountConcat(before, [c]);
    assert [c][..0] == [];
  }

  /**
   * A pasted value can keep several points: only the last of three is
   * removed, so the field may hold text `parseFloat` reads only in part.
   */
  lemma PastedPointsSurvive()
    ensures Sanitize("1.2.3.4") == "1.2.34"
  {
    var s := "1.2.3.4";
    forall i | 0 <= i < |s| ensures IsDigitOrDot(s[i]) {
      assert i in {0, 1, 2, 3, 4, 5, 6};
    }
    KeepDigitsAndDotsFixes(s);
    assert DotCount(s[..1]) == 0 by { assert s[..1][..0] == []; }
    assert DotCount(s[..2]) == 1 by { assert s[..2][..1] == s[..1]; }
    assert DotCount(s[..3]) == 1 by { assert s[..3][..2] == s[..2]; }
    assert DotCount(s[..4]) == 2 by { assert s[..4][..3] == s[..3]; }
    assert DotCount(s[..5]) == 2 by { assert s[..5][..4] == s[..4]; }
    assert DotCount(s[..6]) == 3 by { assert s[..6][..5] == s[..5]; }
    assert DotCount(s) == 3 by { assert s[..7] == s; assert s[..6] == s[..|s| - 1]; }
    assert LastDot(s) == 5 by { assert s[..6] == s[..|s| - 1]; }
    assert s[..5] + s[6..] == "1.2.34";
  }

  /** A sanitized value with at most one point is left as it is by the sanitizer. */
  lemma SanitizeFixes(s: string)
    requires DotCount(Sanitize(s)) <= 1
    ensures Sanitize(Sanitize(s)) == Sanitize(s)
  {
    KeepDigitsAndDotsFixes(Sanitize(s));
  }

  /** A balance change the card asks its parent for. */
  datatype MoneyUpdate = MoneyUpdate(playerId: string, newMoneyEarned: real)

  /**
   * The value an edit commits (the inside of `if (commit && onUpdatePlayer)`),
   * given `parseFloat` of the field: the typed number rounded to one decimal, provided it is a number, not
   * negative, and differs from the current balance before rounding.
   */
  function CommitValue(newValue: Option<real>, moneyEarned: real): (r: Option<real>)
    ensures r.Some? <==> (newValue.Some? && newValue.value >= 0.0 && newValue.value != moneyEarned)
    ensures r.Some? ==> r.value >= 0.0 && (r.value * 10.0).Floor as real == r.value * 10.0
    ensures r.Some? ==> -0.05 < r.value - newValue.value <= 0.05
  {
    match newValue
    case None => None
    case Some(v) => if v >= 0.0 && v != moneyEarned then Some(RoundToTenth(v)) else None
  }

  /** Committing the balance's own decimal text asks for nothing. */
  lemma CommitUnchangedSendsNothing(n: nat)
    ensures CommitValue(ParseFloat(DecimalText(n)), n as real) == None
  {
    ParseFloatOfDecimal(n);
  }

  datatype Key = Enter | Escape | OtherKey

  /**
   * One card. `hasCallback` says whether the parent passed `onUpdatePlayer`;
   * `moneyText` is `moneyEarned.toString()`, obtained with the prop.
   */
  class PlayerCard {
    const playerId: string
    const hasCallback: bool
    var moneyEarned: real
    var moneyText: string
    var isEditing: bool
    var editValue: string

    /** Outside editing, the editor holds the balance's text (the re-sync effect). */
    ghost predicate Valid()
      reads this
    {
      !isEditing ==> editValue == moneyText
    }

    constructor(playerId: string, hasCallback: bool, moneyEarned: real, moneyText: string)
      ensures Valid()
      ensures this.playerId == playerId && this.hasCallback == hasCallback
      ensures this.moneyEarned == moneyEarned && this.moneyText == moneyText
      ensures !isEditing && editValue == moneyText
    {
      this.playerId := playerId;
      this.hasCallback := hasCallback;
      this.moneyEarned := moneyEarned;
      this.moneyText := moneyText;
      isEditing := false;
      editValue := moneyText;
    }

    /** A new balance from the parent; outside editing the editor follows it. */
    method ReceiveMoney(money: real, text: string)
      requires Valid()
      modifies this
      ensures Valid()
      ensures moneyEarned == money && moneyText == text && isEditing == old(isEditing)
      ensures editValue == if isEditing then old(editValue) else text
    {
      moneyEarned := money;
      moneyText := text;
      if !isEditing {
        editValue := text;
      }
    }

    /** The +10 button: asks for ten more, when there is a parent to ask. */
    method IncreaseMoney() returns (update: Option<MoneyUpdate>)
      ensures update.Some? <==> hasCallback
      ensures update.Some? ==> update.value == MoneyUpdate(playerId, moneyEarned + 10.0)
    {
      update := None;
      if hasCallback {
        update := Some(MoneyUpdate(playerId, moneyEarned + 10.0));
      }
    }

    /** The -10 button: asks for ten less, only when that stays non-negative. */
    method DecreaseMoney() returns (update: Option<MoneyUpdate>)
      ensures update.Some? <==> hasCallback && moneyEarned >= 10.0
      ensures update.Some? ==> update.value == MoneyUpdate(playerId, moneyEarned - 10.0)
      ensures update.Some? ==> update.value.newMoneyEarned >= 0.0
    {
      update := None;
      if hasCallback && moneyEarned >= 10.0 {
        update := Some(MoneyUpdate(playerId, moneyEarned - 10.0));
      }
    }

    /** A click (or Enter or space) on the balance opens the editor, when editing is possible. */
    method MoneyClick()
      requires Valid()
      modifies this
      ensures Valid()
      ensures isEditing == (old(isEditing) || hasCallback)
      ensures moneyEarned == old(moneyEarned) && moneyText == old(moneyText) && editValue == old(editValue)
    {
      if hasCallback {
        isEditing := true;
      }
    }

    /** Typing in the editor: the field holds the sanitized text. */
    method InputChange(typed: string)
      requires Valid() && isEditing
      modifies this
      ensures Valid() && isEditing
      ensures editValue == Sanitize(typed)
      ensures moneyEarned == old(moneyEarned) && moneyText == old(moneyText)
    {
      editValue := Sanitize(typed);
    }

    /**
     * `finishEdit(commit)`: the editor closes and shows the balance again;
     * when committing with a parent, the typed value is sent if it qualifies.
     */
    method FinishEdit(commit: bool) returns (update: Option<MoneyUpdate>)
      requires Valid()
      modifies this
      ensures Valid() && !isEditing && editValue == moneyText
      ensures moneyEarned == old(moneyEarned) && moneyText == old(moneyText)
      ensures update.Some? <==> commit && hasCallback && CommitValue(ParseFloat(old(editValue)), moneyEarned).Some?
      ensures update.Some? ==>
        update.value == MoneyUpdate(playerId, CommitValue(ParseFloat(old(editValue)), moneyEarned).value)
    {
      update := None;
      if commit && hasCallback {
        var newValue := CommitValue(ParseFloat(editValue), moneyEarned);
        if newValue.Some? {
          update := Some(MoneyUpdate(playerId, newValue.value));
        }
      }
      isEditing := false;
      editValue := moneyText;
    }

    /** Enter commits the edit, Escape abandons it, other keys do nothing. */
    method InputKeyDown(key: Key) returns (update: Option<MoneyUpdate>)
      requires Valid()
      modifies this
      ensures Valid()
      ensures moneyEarned == old(moneyEarned) && moneyText == old(moneyText)
      ensures key == Escape ==> update.None? && !isEditing && editValue == moneyText
      ensures key == OtherKey ==> update.None? && isEditing == old(isEditing) && editValue == old(editValue)
      ensures key == Enter ==> !isEditing && editValue == moneyText
      ensures key == Enter ==>
        (update.Some? <==> hasCallback && CommitValue(ParseFloat(old(editValue)), moneyEarned).Some?)
      ensures key == Enter && update.Some? ==>
        update.value == MoneyUpdate(playerId, CommitValue(ParseFloat(old(editValue)), moneyEarned).value)
    {
      update := None;
      if key == Enter {
        update := FinishEdit(true);
      } else if key == Escape {
        isEditing := false;
        editValue := moneyText;
      }
    }
  }
}
