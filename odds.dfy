/**
 * The chit bowl: every team puts in as many chits as it was given, and one
 * chit is drawn at random to pick the winning team. Teams are numbered from
 * 1; `chits[t - 1]` is the answer typed for team `t`.
 */
module Odds {
  import opened Wrappers

  /** `[team] * count`: `count` copies, none when the count is zero or negative. */
  function Repeat(team: int, count: int): (r: seq<int>)
    ensures |r| == if count > 0 then count else 0
    ensures forall i :: 0 <= i < |r| ==> r[i] == team
    decreases count
  {
    if count <= 0 then [] else Repeat(team, count - 1) + [team]
  }

  /** The bowl after the loop over teams `1 .. |chits|`. */
  function Bowl(chits: seq<int>): seq<int>
  {
    if chits == [] then []
    else Bowl(chits[..|chits| - 1]) + Repeat(|chits|, chits[|chits| - 1])
  }

  /** The number of chits actually put in: negative answers count as none. */
  function ChitTotal(chits: seq<int>): nat
  {
    if chits == [] then 0
    else ChitTotal(chits[..|chits| - 1]) + (if chits[|chits| - 1] > 0 then chits[|chits| - 1] else 0)
  }

  /** `range(1, numTeams + 1)` has this many teams. */
  function Teams(numTeams: int): nat
  {
    if numTeams > 0 then numTeams else 0
  }

  /**
   * The bowl holds one chit per chit given, every chit names a team in
   * `1 .. |chits|`, and the chits are grouped by team in increasing order.
   */
  lemma {:induction false} BowlShape(chits: seq<int>)
    ensures |Bowl(chits)| == ChitTotal(chits)
    ensures forall i :: 0 <= i < |Bowl(chits)| ==> 1 <= Bowl(chits)[i] <= |chits|
    ensures forall i, j :: 0 <= i < j < |Bowl(chits)| ==> Bowl(chits)[i] <= Bowl(chits)[j]
  {
    if chits != [] {
      var n := |chits|;
      var front := Bowl(chits[..n - 1]);
      BowlShape(chits[..n - 1]);
      var b := Bowl(chits);
      assert b == front + Repeat(n, chits[n - 1]);
      forall i | 0 <= i < |b| ensures 1 <= b[i] <= n {
        if i >= |front| {
          assert b[i] == Repeat(n, chits[n - 1])[i - |front|];
        }
      }
      forall i, j | 0 <= i < j < |b| ensures b[i] <= b[j] {
        if j >= |front| {
          assert b[j] == Repeat(n, chits[n - 1])[j - |front|];
          if i >= |front| {
            assert b[i] == Repeat(n, chits[n - 1])[i - |front|];
          }
        }
      }
    }
  }

  lemma {:induction false} RepeatCount(team: int, count: int, t: int)
    ensures multiset(Repeat(team, count))[t] == if t == team && count > 0 then count else 0
    decreases count
  {
    if count > 0 {
      RepeatCount(team, count - 1, t);
      assert multiset(Repeat(team, count)) == multiset(Repeat(team, count - 1)) + multiset{team};
    }
  }

  /** Team `t` has exactly as many chits in the bowl as it was given, and no other number appears. */
  lemma {:induction false} BowlCount(chits: seq<int>, t: int)
    ensures multiset(Bowl(chits))[t] ==
      if 1 <= t <= |chits| && chits[t - 1] > 0 then chits[t - 1] else 0
  {
    if chits != [] {
      var n := |chits|;
      var front := chits[..n - 1];
      var b := Bowl(chits);
      assert b == Bowl(front) + Repeat(n, chits[n - 1]);
      assert multiset(b) == multiset(Bowl(front)) + multiset(Repeat(n, chits[n - 1]));
      BowlCount(front, t);
      RepeatCount(n, chits[n - 1], t);
      if 1 <= t < n {
        assert front[t - 1] == chits[t - 1];
      }
    }
  }

  lemma {:induction false} ChitTotalZero(chits: seq<int>)
    ensures ChitTotal(chits) == 0 <==> forall i :: 0 <= i < |chits| ==> chits[i] <= 0
  {
    if chits != [] {
      var n := |chits|;
      var front := chits[..n - 1];
      ChitTotalZero(front);
      assert forall i :: 0 <= i < n - 1 ==> front[i] == chits[i];
    }
  }

  /** The bowl is empty exactly when no team was given a positive number of chits. */
  lemma BowlEmpty(chits: seq<int>)
    ensures Bowl(chits) == [] <==> forall i :: 0 <= i < |chits| ==> chits[i] <= 0
  {
    BowlShape(chits);
    ChitTotalZero(chits);
  }

  /**
   * `main` after reading its answers: `numTeams` and then one chit count
   * per team, `randBelow(n)` standing for the index `random.choice` takes
   * in a list of `n` chits. `None` is the early return on an empty bowl;
   * otherwise the winner is the drawn chit, hence a team that was given
   * at least one chit.
   */
  method DrawWinner(numTeams: int, chits: seq<int>, randBelow: nat -> nat) returns (winner: Option<int>)
    requires numTeams <= |chits|
    requires forall n: nat :: n > 0 ==> randBelow(n) < n
    ensures var bowl := Bowl(chits[..Teams(numTeams)]);
      (winner.None? <==> bowl == []) &&
      (winner.Some? ==> winner == Some(bowl[randBelow(|bowl|)]))
    ensures winner.Some? ==> 1 <= winner.value <= numTeams && chits[winner.value - 1] > 0
  {
    var bowl: seq<int> := [];
    var team := 1;
    while team <= numTeams
      invariant 1 <= team <= Teams(numTeams) + 1
      invariant bowl == Bowl(chits[..team - 1])
    {
      assert chits[..team][..team - 1] == chits[..team - 1];
      bowl := bowl + Repeat(team, chits[team - 1]);
      team := team + 1;
    }
    assert team - 1 == Teams(numTeams);
    if bowl == [] {
      return None;
    }
    var i := randBelow(|bowl|);
    winner := Some(bowl[i]);
    var w := bowl[i];
    assert w in multiset(bowl);
    BowlCount(chits[..team - 1], w);
  }
}
