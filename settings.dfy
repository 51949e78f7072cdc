/**
 * The admin settings `{secret, winningPlayer, selectedImage}` and how a view
 * reads them back from the `admin-settings` storage entry.
 */
module Settings {
  import opened Wrappers

  /** The settings a view holds in its state. */
  datatype Settings = Settings(secret: bool, winningPlayer: Option<string>, selectedImage: Option<string>)

  /**
   * A parsed `admin-settings` entry. JSON drops `undefined` fields, so each
   * field may be absent. The entry itself is an `Option<StoredSettings>`:
   * `None` when it is missing or does not parse.
   */
  datatype StoredSettings = StoredSettings(secret: Option<bool>, winningPlayer: Option<string>, selectedImage: Option<string>)

  /** The state before any settings are read: secret on, no winner, no image. */
  const Initial := Settings(true, None, None)

  /** The record a view writes: `{ secret, winningPlayer, selectedImage }`. */
  function Encode(s: Settings): (r: StoredSettings)
    ensures r.secret.Some? && Decode(r) == s
  {
    StoredSettings(Some(s.secret), s.winningPlayer, s.selectedImage)
  }

  /** `parsed.secret !== undefined ? parsed.secret : true`, and the other two fields as stored. */
  function Decode(r: StoredSettings): (s: Settings)
    ensures s.secret <==> r.secret != Some(false)
    ensures s.winningPlayer == r.winningPlayer && s.selectedImage == r.selectedImage
  {
    Settings(r.secret.GetOr(true), r.winningPlayer, r.selectedImage)
  }

  /**
   * Re-reading the storage entry: a parsed record replaces all three fields
   * (secret defaulting to true); a missing or unparsable entry turns secret
   * on and keeps the winner and the image.
   */
  function Refresh(prev: Settings, stored: Option<StoredSettings>): (s: Settings)
    ensures s.secret <==> stored.None? || stored.value.secret != Some(false)
    ensures stored.None? ==> s.winningPlayer == prev.winningPlayer && s.selectedImage == prev.selectedImage
    ensures stored.Some? ==>
      s.winningPlayer == stored.value.winningPlayer && s.selectedImage == stored.value.selectedImage
  {
    match stored
    case None => prev.(secret := true)
    case Some(r) => Decode(r)
  }

  /** What a view writes, any view reads back unchanged. */
  lemma RefreshAfterWrite(prev: Settings, s: Settings)
    ensures Refresh(prev, Some(Encode(s))) == s
  {
  }
}
