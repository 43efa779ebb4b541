/** Vocabulary shared by every part of the emoji pair-finder model. */
module Common {
  /** A value that may be absent (Python's `None`). */
  datatype Option<+T> = None | Some(value: T)

  /** An emoji as the game stores it: a short string of code points. */
  type Emoji = string

  /** Telegram user and chat identifiers. */
  type UserId = int
  type ChatId = int

  /** The unpaired tile dealt into a grid with an odd number of cells (U+2B1C, WHITE LARGE SQUARE). */
  const FILLER: Emoji := "\U{2B1C}"
}
