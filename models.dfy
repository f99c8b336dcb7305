/** The records the application passes around: resolved albums and chat messages. */
module Models {
  import opened Wrappers
  import opened JsString

  /** Who wrote a chat message: exactly the user or the language model. */
  datatype Role = User | Model

  /** An album as the language model names it inside an album block, before enrichment. */
  datatype RawAlbum = RawAlbum(albumName: string, artistName: string)

  /** A resolved album. `coverArtUrl` is always present, the empty string meaning
      "no cover art found"; the release year and the genre are optional. The year is
      a JavaScript number and so may be NaN. */
  datatype Album = Album(
    albumName: string,
    artistName: string,
    coverArtUrl: string,
    releaseYear: Option<JsNumber>,
    genre: Option<string>)

  /** One message of the conversation; `albums` is absent unless enrichment attached it. */
  datatype ChatMessage = ChatMessage(role: Role, text: string, albums: Option<seq<Album>>)

  /** A message created from plain text, without an album list. */
  function TextMessage(role: Role, text: string): ChatMessage {
    ChatMessage(role, text, None)
  }
}
