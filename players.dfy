/**
 * The `Player` record shared by every component, and the id-keyed update of
 * a player's game input that the admin and the display views both perform.
 */
module Players {
  import opened Wrappers

  datatype Kind = Single | Team

  /**
   * A leaderboard entry: an individual or a team. `rank` is only set on the
   * copies the leaderboard numbers for display; `playerInput` is the free
   * text typed during a game.
   */
  datatype Player = Player(
    id: string,
    kind: Kind,
    names: seq<string>,
    moneyEarned: real,
    rank: Option<nat>,
    avatarUrl: Option<string>,
    teamAvatarUrl: Option<string>,
    playerInput: Option<string>)

  /** A single has at least one name and a team at least two. */
  predicate WellFormed(p: Player)
  {
    if p.kind == Single then |p.names| >= 1 else |p.names| >= 2
  }

  predicate RosterWellFormed(ps: seq<Player>)
  {
    forall i :: 0 <= i < |ps| ==> WellFormed(ps[i])
  }

  /**
   * `players.map(p => p.id === playerId ? { ...p, playerInput: newInput } : p)`:
   * every player with the id gets the new input; nothing else changes.
   */
  function SetInput(ps: seq<Player>, id: string, text: string): (r: seq<Player>)
    ensures |r| == |ps|
    ensures forall i :: 0 <= i < |ps| ==> r[i].(playerInput := ps[i].playerInput) == ps[i]
    ensures forall i :: 0 <= i < |ps| ==>
      r[i].playerInput == if ps[i].id == id then Some(text) else ps[i].playerInput
  {
    if ps == [] then []
    else
      var p := if ps[0].id == id then ps[0].(playerInput := Some(text)) else ps[0];
      [p] + SetInput(ps[1..], id, text)
  }

  /** Typing into the same card twice keeps only the second text. */
  lemma SetInputLastWins(ps: seq<Player>, id: string, a: string, b: string)
    ensures SetInput(SetInput(ps, id, a), id, b) == SetInput(ps, id, b)
  {
    var l, r := SetInput(SetInput(ps, id, a), id, b), SetInput(ps, id, b);
    assert |l| == |r|;
    forall i | 0 <= i < |l| ensures l[i] == r[i] {
      assert l[i].(playerInput := ps[i].playerInput) == ps[i];
    }
  }

  /** Updating an input keeps the roster well formed. */
  lemma SetInputWellFormed(ps: seq<Player>, id: string, text: string)
    requires RosterWellFormed(ps)
    ensures RosterWellFormed(SetInput(ps, id, text))
  {
    var r := SetInput(ps, id, text);
    forall i | 0 <= i < |r| ensures WellFormed(r[i]) {
      assert r[i].(playerInput := ps[i].playerInput) == ps[i];
    }
  }
}
