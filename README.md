# MelodyMind chat core in Dafny

MelodyMind is an Angular chat application that recommends music. On each chat turn
the user's message goes to a language model. The reply streams back chunk by chunk.
When the reply carries an album block (`[ALBUMS_START]<json>[ALBUMS_END]`), the block
is cut out of the displayed text. Each album named in it is then resolved against
MusicBrainz and the Cover Art Archive, and the results are attached to the message.

This project models three parts of that core:

- the turn state machine of the chat component (`AppComponent.sendMessage`), as a
  class `App.AppComponent` whose fields are updated in place:
  `messages`, `userInput`, `isLoading` and `error`;
- the album-block extraction and cleanup (`parseAndFetchAlbumDetails`). It is a
  method on that class. It is specified by the pure functions `App.EnrichLast` and
  `App.EnrichMessage`, which are built on `AlbumBlock.FindBlock` (the lazy
  regular-expression match);
- the metadata resolver (`MusicBrainzService.getAlbumDetails`), as the pure function
  `MusicBrainz.GetAlbumDetails`. The three HTTP responses it awaits are parameters.

The records of `src/models.ts` become the datatypes `Models.Role`, `Models.Album`
and `Models.ChatMessage`, plus `Models.RawAlbum` for a parsed album entry. `Role`
has exactly two values, so a message is always a user or a model message.
`Album.coverArtUrl` is always present, with `""` meaning "not found". The year,
the genre and a message's album list are `Option`s.

The JavaScript primitives the code relies on are modelled in `JsString`:

- `trim`, with the full ECMAScript white-space set;
- `includes`/`indexOf`;
- `substring(0, n)`;
- `parseInt(s, 10)`, including its NaN result;
- `charAt(0).toUpperCase() + slice(1)`.

Inputs that the code receives from outside are parameters of the model:

- the language-model stream, as a `StreamOutcome`: establishment fails, or chunks
  arrive and the stream then ends or throws;
- `JSON.parse` of the captured text, as an oracle `parse: string -> Option<seq<RawAlbum>>`.
  It gives `None` whenever the code reaches its `catch` block instead of the album list;
- the per-album resolver, as `resolve: RawAlbum -> Album` (the real one is
  `GetAlbumDetails` applied to that album's HTTP responses);
- the HTTP responses: the search response as a value, and the lookup and cover-art
  responses as functions of the request URL.

Behaviour of the code worth noting:

- When the stream cannot be established, no empty placeholder is appended. Only the
  user message and the apology are added.
- When the stream throws part-way, the partial reply is kept and the apology
  follows it.
- Album extraction runs in the `finally` block, so it also runs after a failure.
  It then looks at the apology, which holds no block (`App.ApologyHasNoBlock`).
- The resolved artist falls back to the input artist when the lookup's first credit
  is missing or has an empty name.
- The genre is also absent when the chosen tag's name is empty.
- A date whose first character is neither a digit, a sign nor white space yields a NaN
  year rather than no year. `parseInt` skips leading white space and a sign, so " 1997"
  gives 199.

## Model

| member | source | states |
|---|---|---|
| JsString.Trim | src/app.component.ts:38 | `trim` result: a slice `s[i..j]` of the input with only white space before `i` and after `j`, whose ends are not white space, empty exactly when the input is all white space |
| JsString.IndexOfFrom | src/app.component.ts:87 | `indexOf` from a position: the first occurrence at or after it, or none at all after it |
| JsString.ExcludedCharacterBlocksPattern | src/app.component.ts:87 | a text lacking the first character of a pattern does not include the pattern |
| JsString.Prefix | src/services/music-brainz.service.ts:74 | `substring(0, n)`: the first n characters, or the whole string if shorter |
| JsString.ParseIntOfDigits | src/services/music-brainz.service.ts:74 | `parseInt` of a string starting with a digit is the value of its leading digits |
| JsString.ParseIntBound | src/services/music-brainz.service.ts:74 | `parseInt` of n characters is NaN or has magnitude below 10^n |
| JsString.ParseInt10 | src/services/music-brainz.service.ts:74 | `parseInt(s, 10)`; no contract of its own, it is specified by the lemmas ParseIntOfDigits, ParseIntBound and ParseIntNaN |
| JsString.ParseIntNaN | src/services/music-brainz.service.ts:74 | `parseInt` is NaN exactly when no digit follows the white space and the optional sign |
| JsString.CapitalizeFirst | src/services/music-brainz.service.ts:78 | the length is kept, the first character is upper-cased and the rest is unchanged |
| AlbumBlock.FindBlock | src/app.component.ts:91-92 | the regex match: opens at the first `[ALBUMS_START]` and closes at the first `[ALBUMS_END]` after it; no match exactly when no closing delimiter follows any opening one |
| AlbumBlock.BlockDecomposition | src/app.component.ts:91-99 | the text is prefix + START + capture + END + suffix; `replace` removes exactly that first block; the prefix holds no START and the capture no END |
| AlbumBlock.ReplaceFirstBlock | src/app.component.ts:99 | `replace` never lengthens the text and leaves it unchanged exactly when the expression does not match; BlockDecomposition gives what it removes |
| AlbumBlock.CleanText | src/app.component.ts:99 | no contract of its own: trim of ReplaceFirstBlock, specified by CleanedTextIsShorter and EnrichMessageWithBlock |
| AlbumBlock.Extract | src/app.component.ts:94-99 | no contract of its own: specified by CleanedTextIsShorter (found exactly when HasBlock) and EnrichMessageWithBlock (what is found) |
| AlbumBlock.CleanedTextIsShorter | src/app.component.ts:94-99 | a block is extracted exactly when the match exists with a non-empty capture; the cleaned text is then shorter by at least both delimiters |
| App.Concat | src/app.component.ts:55-65 | no contract of its own: the chunks joined in order, specified by ConcatAppend and by the loop invariant of AppComponent.Stream |
| App.ReplyMessages | src/app.component.ts:49-70 | no contract of its own: specified by TurnMessagesShape and TurnFailed, and built by AppComponent.Stream |
| App.EnrichMessage | src/app.component.ts:87-129 | no contract of its own: specified by EnrichMessageUntouched, EnrichShortensBlockMessage and EnrichMessageWithBlock |
| App.EnrichLast | src/app.component.ts:83-85 | no contract of its own: specified by EnrichLastReplacesOnlyLast, and computed by AppComponent.ParseAndFetchAlbumDetails |
| App.ConcatAppend | src/app.component.ts:55-65 | the reply of a stream split in two is the two partial replies joined |
| App.EnrichMessageUntouched | src/app.component.ts:87-94 | enrichment leaves the message unchanged exactly when it is not a model message, lacks START, has no END after it, or captures nothing |
| App.EnrichShortensBlockMessage | src/app.component.ts:94-118 | enriching a model message that holds a block shortens its text |
| App.EnrichMessageWithBlock | src/app.component.ts:94-129 | with a block, the new text is trim(prefix + suffix); a parse gives one resolved album per entry in order; a parse failure attaches nothing |
| App.EnrichLastReplacesOnlyLast | src/app.component.ts:83-118 | enrichment keeps the length, every message but the last, and the last one's role |
| App.ApologyHasNoBlock | src/app.component.ts:70-87 | the apology holds no opening delimiter, so enrichment never alters it |
| App.TurnMessagesShape | src/app.component.ts:45-70 | a turn appends the user message and then one model message, or two when the stream throws part-way |
| App.TurnAppends | src/app.component.ts:45-73 | after enrichment, the earlier messages are kept, the trimmed user message follows them, then a model message; the length grows by 2, or 3 after a mid-stream failure |
| App.TurnStreamedReply | src/app.component.ts:52-65 | a stream that ends normally leaves the user message and one model message holding the chunks joined in arrival order, unless that text holds a block |
| App.TurnFailed | src/app.component.ts:50-70 | on a failure the apology is last and unchanged; establishment failure adds no placeholder, and a mid-stream failure keeps the partial reply |
| App.AppComponent.constructor | src/app.component.ts:21-29 | initial state: the greeting model message alone, empty input, not loading, no error |
| App.AppComponent.SendMessage | src/app.component.ts:37-41 | an empty trimmed input or a loading turn changes nothing; otherwise the state is that of the turn below |
| App.AppComponent.RunTurn | src/app.component.ts:43-73 | messages become EnrichLast(old + TurnMessages); input cleared; not loading; error set exactly when the stream failed, and cleared otherwise |
| App.AppComponent.Stream | src/app.component.ts:49-70 | the stream phase appends ReplyMessages(outcome), growing the placeholder chunk by chunk; it sets the error on a failure |
| App.AppComponent.ParseAndFetchAlbumDetails | src/app.component.ts:82-132 | the message list becomes EnrichLast of the old one |
| MusicBrainz.FetchedCoverArt | src/services/music-brainz.service.ts:58-70 | no contract of its own: specified by CoverUrlIsFirstFrontImage |
| MusicBrainz.FindFrontIndex | src/services/music-brainz.service.ts:64 | `find(img => img.front)`: the first front image, or none when no image is front |
| MusicBrainz.CoverUrlIsFirstFrontImage | src/services/music-brainz.service.ts:59-85 | the cover URL is non-empty exactly when the request succeeded and the first front image has a non-empty image, and then it is that image |
| MusicBrainz.ReleaseYear | src/services/music-brainz.service.ts:73-74 | no contract of its own: specified by ReleaseYearPresence, ReleaseYearOfDigits and ReleaseYearOfNonDigitDate |
| MusicBrainz.ReleaseYearPresence | src/services/music-brainz.service.ts:73-74 | the year is absent exactly when there is no first release event or its date is empty; a numeric year lies within (-10000, 10000) |
| MusicBrainz.ReleaseYearOfDigits | src/services/music-brainz.service.ts:73-74 | a date starting with four digits gives the value of those digits |
| MusicBrainz.YearOfDigits | src/services/music-brainz.service.ts:74 | `parseInt(date.substring(0, 4), 10)` on four leading digits is their decimal value |
| MusicBrainz.ReleaseYearOfFullDate | src/services/music-brainz.service.ts:73-74 | "1997-06-16" gives the year 1997 |
| MusicBrainz.ReleaseYearOfNonDigitDate | src/services/music-brainz.service.ts:74 | a date starting with a letter or other non-digit, non-sign, non-space gives NaN, not an absent year |
| MusicBrainz.FirstMaxIndex | src/services/music-brainz.service.ts:77 | the index of a tag of highest count, the earliest on a tie |
| MusicBrainz.SortedHeadIsFirstMax | src/services/music-brainz.service.ts:77 | a stable sort by decreasing count orders the tags, keeps every tag, and its head is the `FirstMaxIndex` tag |
| MusicBrainz.Genre | src/services/music-brainz.service.ts:77-78 | no contract of its own: specified by GenreIsHighestCountTag |
| MusicBrainz.GenreIsHighestCountTag | src/services/music-brainz.service.ts:77-78 | the genre is the first highest-count tag's name with its first letter upper-cased, and absent exactly when there are no tags or that name is empty |
| MusicBrainz.GenreOfRockAndIndie | src/services/music-brainz.service.ts:77-78 | rock counted 5 and indie counted 9 give "Indie" |
| MusicBrainz.CanonicalArtist | src/services/music-brainz.service.ts:82 | no contract of its own: specified by CanonicalReleaseWins (the first credit's non-empty name wins, else the input artist) |
| MusicBrainz.GetAlbumDetails | src/services/music-brainz.service.ts:41-97 | no contract of its own: specified by FallbackWhenNotResolved, CanonicalReleaseWins and CoverArtOnlyDecorates |
| MusicBrainz.FallbackWhenNotResolved | src/services/music-brainz.service.ts:42-95 | a failed search, an empty search or a failed lookup yields the input names, "" as cover URL, no year, no genre |
| MusicBrainz.CanonicalReleaseWins | src/services/music-brainz.service.ts:51-86 | on a successful lookup the title is the lookup's; the artist is the first credit's non-empty name or else the input artist; year, genre and cover URL come from the lookup and cover-art responses |
| MusicBrainz.CoverArtOnlyDecorates | src/services/music-brainz.service.ts:57-70 | the cover-art response affects only the cover URL, never causes the fallback, and when it fails the URL is "" |

## Left out

- The language-model client (src/services/gemini.service.ts) is not part of this model. Only the outcome of its stream is an input.
- The search request URL and `encodeURIComponent` are not modelled. The search response is a parameter. The lookup and cover-art URLs are built from the constants and the release identifier, as the source does.
- HTTP, `firstValueFrom` and the console logging are I/O. Their results are parameters, and their logging has no effect on state.
- `JSON.parse` is an oracle. A parse that throws, JSON that is not an array (its `map` throws), or an array holding a `null` entry (its `getAlbumDetails` call rejects, and so does `Promise.all`) all give `None`, which leads to the catch path.
- Array entries that are not `{albumName: string, artistName: string}` objects fall outside the model. The code does not check the shape and would resolve such an entry with `undefined` names.
- `Promise.all` becomes a sequential map that keeps order, the same result for independent resolutions.
- The interleavings are not modelled, because the model is sequential. `isLoading` is cleared before enrichment is awaited, and the last index is captured before the resolver calls are awaited. A second turn started in between could interleave with both. For the same reason the `isLoading` guard of `SendMessage` is reachable only through such an interleaving.
- The in-place mutations (`lastMessage.text += chunkText`, `lastMsg.text = ...`) replace the last element of the `messages` sequence. Aliasing with the previous array is not modelled, since the previous array is not observed again.
- `scrollToBottom`, `setTimeout`, `onImageError`, the placeholder image and the Angular signal runtime are presentation.
- `JsString.CapitalizeFirst`: upper-cases ASCII letters only, because Unicode case tables are out of scope.
- JsString: strings are sequences of Unicode scalar values. `substring(0, 4)` and `charAt(0)` count UTF-16 code units in JavaScript, which differs for characters outside the Basic Multilingual Plane.
- JsString.ParseInt10: a negative zero (`"-0"`) is represented by 0, because a JavaScript number's sign of zero is not modelled.
- A chunk whose `text` is `undefined` is not modelled; JavaScript would append the text "undefined". Chunks are strings.
- Tag counts are integers. Non-numeric counts that would make the comparator return NaN are not modelled.
- Determinism of the resolver ("identical responses give an identical album") holds by construction: `GetAlbumDetails` is a function of its inputs, and the service holds only constants.
