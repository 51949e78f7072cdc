/**
 * The display card of one player during a game: how it shows the typed
 * input, and what it forwards when that input changes.
 */
module GamePlayerCard {
  import opened Wrappers
  import opened JsText

  /** What a masked card shows in place of the text. */
  const Mask: string := "*****"

  /**
   * The text the card shows for `playerInput`: the mask when masking is on
   * and the input is not blank, and the input itself otherwise.
   */
  function Shown(maskValue: bool, playerInput: string): (r: string)
    ensures maskValue && !IsBlank(playerInput) ==> r == Mask
    ensures !(maskValue && !IsBlank(playerInput)) ==> r == playerInput
  {
    if maskValue && playerInput != "" && Trim(playerInput) != "" then Mask else playerInput
  }

  /** Masking gives no information about what was typed beyond whether it is blank. */
  lemma {:induction false} MaskHidesContent(a: string, b: string)
    requires !IsBlank(a) && !IsBlank(b)
    ensures Shown(true, a) == Shown(true, b) == Mask
  {
  }

  /** The update a card sends to its parent: the player's id and the raw new text. */
  datatype InputUpdate = InputUpdate(playerId: string, newInput: string)

  /**
   * A change of the card's input field: forwarded unmodified, under this
   * card's id, when the parent gave a callback; dropped otherwise.
   */
  function InputChange(hasCallback: bool, playerId: string, value: string): (call: Option<InputUpdate>)
    ensures call.Some? <==> hasCallback
    ensures call.Some? ==> call.value.playerId == playerId && call.value.newInput == value
  {
    if hasCallback then Some(InputUpdate(playerId, value)) else None
  }
}
