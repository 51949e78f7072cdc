/**
 * The game display: the roster as cards, masked while the admin keeps the
 * round secret, with the winner highlighted once it is revealed.
 */
module Game {
  import opened Wrappers
  import opened JsText
  import opened Players
  import opened Settings
  import GamePlayerCard

  /** `isWinner={!secret && winningPlayer === player.id}`. */
  function IsWinner(s: Settings, p: Player): (r: bool)
    ensures r ==> !s.secret
    ensures r <==> !s.secret && s.winningPlayer == Some(p.id)
  {
    !s.secret && s.winningPlayer == Some(p.id)
  }

  /** The text shown on the card of `p`: its input, masked while `secret` is on. */
  function ShownInput(s: Settings, p: Player): (r: string)
    ensures s.secret && p.playerInput.Some? && !IsBlank(p.playerInput.value) ==> r == GamePlayerCard.Mask
    ensures !(s.secret && p.playerInput.Some? && !IsBlank(p.playerInput.value)) ==> r == p.playerInput.GetOr("")
  {
    GamePlayerCard.Shown(s.secret, p.playerInput.GetOr(""))
  }

  /**
   * While the round is secret the display reveals nothing: no card is
   * highlighted, and every card shows either the mask or a blank input.
   */
  lemma SecretRevealsNothing(s: Settings, ps: seq<Player>)
    requires s.secret
    ensures forall i :: 0 <= i < |ps| ==> !IsWinner(s, ps[i])
    ensures forall i :: 0 <= i < |ps| ==>
      ShownInput(s, ps[i]) == GamePlayerCard.Mask || IsBlank(ShownInput(s, ps[i]))
  {
  }

  /** With distinct ids, at most one card is highlighted. */
  lemma AtMostOneWinner(s: Settings, ps: seq<Player>, i: int, j: int)
    requires forall a, b :: 0 <= a < b < |ps| ==> ps[a].id != ps[b].id
    requires 0 <= i < |ps| && 0 <= j < |ps|
    requires IsWinner(s, ps[i]) && IsWinner(s, ps[j])
    ensures i == j
  {
  }

  /** The display view's state: the roster and the settings it last read. */
  class GameView {
    var players: seq<Player>
    var secret: bool
    var winningPlayer: Option<string>
    var selectedImage: Option<string>

    function Current(): Settings
      reads this
    {
      Settings(secret, winningPlayer, selectedImage)
    }

    /**
     * Mounting the view with the roster loaded elsewhere and the settings
     * entry (`None` when missing or unparsable); nothing is written back.
     */
    constructor(roster: seq<Player>, stored: Option<StoredSettings>)
      ensures players == roster
      ensures Current() == Refresh(Initial, stored)
    {
      players := roster;
      winningPlayer := None;
      selectedImage := None;
      match stored {
        case Some(parsed) =>
          secret := parsed.secret.GetOr(true);
          winningPlayer := parsed.winningPlayer;
          selectedImage := parsed.selectedImage;
        case None =>
          secret := true;
      }
    }

    /** `handleStorageChange`: the settings entry changed (or was announced as changed). */
    method StorageChanged(stored: Option<StoredSettings>)
      modifies this
      ensures players == old(players)
      ensures Current() == Refresh(old(Current()), stored)
    {
      match stored {
        case Some(parsed) =>
          secret := parsed.secret.GetOr(true);
          winningPlayer := parsed.winningPlayer;
          selectedImage := parsed.selectedImage;
        case None =>
          secret := true;
      }
    }

    /** `handleUpdateInput`: that player's input is replaced; the settings stay. */
    method UpdateInput(playerId: string, newInput: string)
      modifies this
      ensures players == SetInput(old(players), playerId, newInput)
      ensures Current() == old(Current())
    {
      players := SetInput(players, playerId, newInput);
    }
  }
}
