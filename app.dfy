/**
 * The chat component of src/app.component.ts: the conversation state, one chat
 * turn (guards, the user message, the streamed model reply, the apology on
 * failure) and the album enrichment of the last model message.
 *
 * The language-model stream, the JSON parser and the album resolver are inputs.
 * The model is sequential: in the source `isLoading` is cleared before the
 * enrichment is awaited and the index of the last message is captured before the
 * resolver calls are awaited, so a second turn started in between could interleave
 * with the enrichment; that race is not modelled.
 */
module App {
  import opened Wrappers
  import opened JsString
  import opened Models
  import opened AlbumBlock

  const GREETING: string :=
    "Hi! I'm MelodyMind. To get started, tell me about some bands you like, for example: 'I like Radiohead, The Cure, and Deftones.'"
  const ERROR_TEXT: string := "Sorry, something went wrong. Please try again."
  /** The reply shown in place of the model's when the stream fails. */
  const APOLOGY: string :=
    "I seem to be having trouble " + "connecting. Please check " + "your setup and try again."

  /** What the language-model client delivers for one turn: either the stream cannot
      be established, or chunks arrive in order and the stream then ends or throws. */
  datatype StreamOutcome =
    | EstablishFailed
    | Streamed(chunks: seq<string>, failsAfter: bool)
  {
    predicate Fails() {
      EstablishFailed? || failsAfter
    }
  }

  /** The chunks joined in arrival order. */
  function Concat(chunks: seq<string>): string {
    if chunks == [] then "" else Concat(chunks[..|chunks| - 1]) + chunks[|chunks| - 1]
  }

  /** Joining is a homomorphism: the reply of a split stream is the two replies joined. */
  lemma {:induction false} ConcatAppend(a: seq<string>, b: seq<string>)
    ensures Concat(a + b) == Concat(a) + Concat(b)
  {
    if b != [] {
      ConcatAppend(a, b[..|b| - 1]);
      assert (a + b)[..|a + b| - 1] == a + b[..|b| - 1];
    } else {
      assert a + b == a;
    }
  }

  /** The messages a turn appends before enrichment: the user message, then either the
      apology alone (no stream), or the streamed reply, followed by the apology if the
      stream threw part-way. */
  function TurnMessages(message: string, outcome: StreamOutcome): seq<ChatMessage> {
    [TextMessage(User, message)] + ReplyMessages(outcome)
  }

  /** The messages the stream phase appends after the user message. */
  function ReplyMessages(outcome: StreamOutcome): seq<ChatMessage> {
    match outcome
    case EstablishFailed => [TextMessage(Model, APOLOGY)]
    case Streamed(chunks, failsAfter) =>
      [TextMessage(Model, Concat(chunks))] + (if failsAfter then [TextMessage(Model, APOLOGY)] else [])
  }

  /** `partialAlbums.map(getAlbumDetails)` awaited with `Promise.all`: order kept. */
  function ResolveAll(raws: seq<RawAlbum>, resolve: RawAlbum -> Album): seq<Album> {
    seq(|raws|, k requires 0 <= k < |raws| => resolve(raws[k]))
  }

  /** What enrichment makes of the last message: a model message with an album block
      gets its cleaned text together with the resolved albums, or its cleaned text
      alone when the block does not parse; any other message is kept. */
  function EnrichMessage(
    last: ChatMessage,
    parse: string -> Option<seq<RawAlbum>>,
    resolve: RawAlbum -> Album): ChatMessage
  {
    if last.role != Model || !Includes(last.text, START) then last
    else
      match Extract(last.text)
      case NoBlock => last
      case Found(json, cleaned) => last.(text := cleaned, albums := AttachedAlbums(parse(json), last.albums, resolve))
  }

  /** The album list after enrichment: the resolved albums when the block parsed, the
      previous list (absent for a streamed reply) when it did not. */
  function AttachedAlbums(
    parsed: Option<seq<RawAlbum>>,
    albums: Option<seq<Album>>,
    resolve: RawAlbum -> Album): Option<seq<Album>>
  {
    match parsed
    case Some(raws) => Some(ResolveAll(raws, resolve))
    case None => albums
  }

  /** `parseAndFetchAlbumDetails` on a history: only the last message is enriched. */
  function EnrichLast(
    messages: seq<ChatMessage>,
    parse: string -> Option<seq<RawAlbum>>,
    resolve: RawAlbum -> Album): seq<ChatMessage>
  {
    if messages == [] then messages
    else messages[|messages| - 1 := EnrichMessage(messages[|messages| - 1], parse, resolve)]
  }

  /** Enrichment leaves a message untouched exactly when it is not a model message,
      holds no opening delimiter, has no closing delimiter after the first opening
      one, or has nothing between them. */
  lemma EnrichMessageUntouched(
    last: ChatMessage,
    parse: string -> Option<seq<RawAlbum>>,
    resolve: RawAlbum -> Album)
    ensures EnrichMessage(last, parse, resolve) == last <==>
              || last.role != Model
              || !Includes(last.text, START)
              || FindBlock(last.text).None?
              || Inner(last.text, FindBlock(last.text).value) == []
  {
    if last.role == Model && Includes(last.text, START) {
      CleanedTextIsShorter(last.text);
      if HasBlock(last.text) {
        EnrichShortensBlockMessage(last, parse, resolve);
      }
    }
  }

  /** Enriching a model message that holds a block shortens its text. */
  lemma EnrichShortensBlockMessage(
    last: ChatMessage,
    parse: string -> Option<seq<RawAlbum>>,
    resolve: RawAlbum -> Album)
    requires last.role == Model && Includes(last.text, START) && HasBlock(last.text)
    ensures |EnrichMessage(last, parse, resolve).text| < |last.text|
  {
    CleanedTextIsShorter(last.text);
    var e := Extract(last.text);
    assert EnrichMessage(last, parse, resolve).text == e.cleaned;
  }

  /** Enrichment replaces at most the last message, keeping its role, and keeps the
      length of the history; it changes nothing exactly when the last message is left
      untouched. */
  lemma EnrichLastReplacesOnlyLast(
    messages: seq<ChatMessage>,
    parse: string -> Option<seq<RawAlbum>>,
    resolve: RawAlbum -> Album)
    requires messages != []
    ensures var r := EnrichLast(messages, parse, resolve);
            && |r| == |messages|
            && r[..|messages| - 1] == messages[..|messages| - 1]
            && r[|messages| - 1].role == messages[|messages| - 1].role
            && (r == messages <==> EnrichMessage(messages[|messages| - 1], parse, resolve) == messages[|messages| - 1])
  {
    var r := EnrichLast(messages, parse, resolve);
    if EnrichMessage(messages[|messages| - 1], parse, resolve) != messages[|messages| - 1] {
      assert r[|messages| - 1] != messages[|messages| - 1];
    }
  }

  /** When the last model message holds a block, its new text is the trimmed text
      around the first block; a parsed block attaches one resolved album per parsed
      entry, in order; an unparsable block attaches nothing. */
  lemma EnrichMessageWithBlock(
    last: ChatMessage,
    parse: string -> Option<seq<RawAlbum>>,
    resolve: RawAlbum -> Album)
    requires last.role == Model && HasBlock(last.text)
    ensures var b := FindBlock(last.text).value;
            var updated := EnrichMessage(last, parse, resolve);
            && updated.role == Model
            && updated.text == Trim(last.text[..b.open] + last.text[b.close + |END|..])
            && match parse(Trim(Inner(last.text, b)))
               case None => updated.albums == last.albums
               case Some(raws) =>
                 && updated.albums.Some?
                 && |updated.albums.value| == |raws|
                 && forall k :: 0 <= k < |raws| ==> updated.albums.value[k] == resolve(raws[k])
  {
    BlockDecomposition(last.text);
    assert Includes(last.text, START);
  }

  /** The apology holds no album block, so enrichment never touches it. */
  lemma ApologyHasNoBlock()
    ensures !Includes(APOLOGY, START)
  {
    assert '[' !in APOLOGY;
    ExcludedCharacterBlocksPattern(APOLOGY, START, '[');
  }

  /** The user message opens the turn, followed by one model message (two when the
      stream fails part-way). */
  lemma TurnMessagesShape(message: string, outcome: StreamOutcome)
    ensures var t := TurnMessages(message, outcome);
            && |t| == (if outcome.Streamed? && outcome.failsAfter then 3 else 2)
            && t[0] == TextMessage(User, message)
            && t[1].role == Model
  {
  }

  /** Replacing the last message of `history + t` by one of the same role keeps
      `history` and the role of every message of `t`, and then the first message of `t`. */
  lemma {:induction false} ReplaceLastShape(history: seq<ChatMessage>, t: seq<ChatMessage>, x: ChatMessage)
    requires |t| >= 2 && x.role == t[|t| - 1].role
    ensures var r := (history + t)[|history| + |t| - 1 := x];
            && |r| == |history| + |t|
            && r[..|history|] == history
            && r[|history|] == t[0]
            && r[|history| + 1].role == t[1].role
  {
    var r := (history + t)[|history| + |t| - 1 := x];
    assert r[..|history|] == history;
  }

  /** A turn keeps every earlier message and appends the trimmed user message first,
      then one more message (two when the stream fails part-way). */
  lemma TurnAppends(
    history: seq<ChatMessage>,
    message: string,
    outcome: StreamOutcome,
    parse: string -> Option<seq<RawAlbum>>,
    resolve: RawAlbum -> Album)
    ensures var r := EnrichLast(history + TurnMessages(message, outcome), parse, resolve);
            && |r| == |history| + (if outcome.Streamed? && outcome.failsAfter then 3 else 2)
            && r[..|history|] == history
            && r[|history|] == TextMessage(User, message)
            && r[|history| + 1].role == Model
  {
    var t := TurnMessages(message, outcome);
    TurnMessagesShape(message, outcome);
    var turn := history + t;
    EnrichLastReplacesOnlyLast(turn, parse, resolve);
    ReplaceLastShape(history, t, EnrichMessage(turn[|turn| - 1], parse, resolve));
  }

  /** A stream that ends normally leaves one model reply holding the chunks joined in
      arrival order, unless that text carries an album block to enrich. */
  lemma TurnStreamedReply(
    history: seq<ChatMessage>,
    message: string,
    chunks: seq<string>,
    parse: string -> Option<seq<RawAlbum>>,
    resolve: RawAlbum -> Album)
    requires !HasBlock(Concat(chunks))
    ensures EnrichLast(history + TurnMessages(message, Streamed(chunks, false)), parse, resolve)
            == history + [TextMessage(User, message), TextMessage(Model, Concat(chunks))]
  {
    var turn := history + TurnMessages(message, Streamed(chunks, false));
    assert turn == history + [TextMessage(User, message), TextMessage(Model, Concat(chunks))];
    EnrichMessageUntouched(turn[|turn| - 1], parse, resolve);
    EnrichLastReplacesOnlyLast(turn, parse, resolve);
  }

  /** On any failure the apology is the last message and is left as it is: a stream
      that cannot be established gives the user message and the apology, with no empty
      placeholder; one that throws part-way keeps the partial reply before the apology. */
  lemma TurnFailed(
    history: seq<ChatMessage>,
    message: string,
    outcome: StreamOutcome,
    parse: string -> Option<seq<RawAlbum>>,
    resolve: RawAlbum -> Album)
    requires outcome.Fails()
    ensures EnrichLast(history + TurnMessages(message, outcome), parse, resolve)
            == history + [TextMessage(User, message)]
               + (if outcome.Streamed? then [TextMessage(Model, Concat(outcome.chunks))] else [])
               + [TextMessage(Model, APOLOGY)]
  {
    ApologyHasNoBlock();
    var turn := history + TurnMessages(message, outcome);
    assert turn[|turn| - 1] == TextMessage(Model, APOLOGY);
    EnrichLastReplacesOnlyLast(turn, parse, resolve);
  }

  class AppComponent {
    var messages: seq<ChatMessage>
    var userInput: string
    var isLoading: bool
    var error: Option<string>

    /** The initial state: the greeting alone, an empty input, not busy, no error. */
    constructor ()
      ensures messages == [TextMessage(Model, GREETING)]
      ensures userInput == "" && !isLoading && error == None
    {
      messages := [TextMessage(Model, GREETING)];
      userInput := "";
      isLoading := false;
      error := None;
    }

    /** One chat turn. With an empty trimmed input, or while a turn is loading,
        nothing changes; otherwise the trimmed input is sent. */
    method SendMessage(
      outcome: StreamOutcome,
      parse: string -> Option<seq<RawAlbum>>,
      resolve: RawAlbum -> Album)
      modifies this
      ensures var message := Trim(old(userInput));
              message == "" || old(isLoading) ==> unchanged(this)
      ensures var message := Trim(old(userInput));
              message != "" && !old(isLoading) ==>
                && messages == EnrichLast(old(messages) + TurnMessages(message, outcome), parse, resolve)
                && userInput == "" && !isLoading
                && error == (if outcome.Fails() then Some(ERROR_TEXT) else None)
    {
      var message := Trim(userInput);
      if message == "" || isLoading {
        return;
      }
      RunTurn(message, outcome, parse, resolve);
    }

    /** A turn for a non-empty message: it appends its messages, enriches the last
        one, and ends not loading, with the input cleared and the error set exactly
        when the stream failed. */
    method RunTurn(
      message: string,
      outcome: StreamOutcome,
      parse: string -> Option<seq<RawAlbum>>,
      resolve: RawAlbum -> Album)
      modifies this
      ensures messages == EnrichLast(old(messages) + TurnMessages(message, outcome), parse, resolve)
      ensures userInput == "" && !isLoading
      ensures error == (if outcome.Fails() then Some(ERROR_TEXT) else None)
    {
      isLoading := true;
      error := None;
      messages := messages + [TextMessage(User, message)];
      userInput := "";
      Stream(outcome);
      assert messages == old(messages) + TurnMessages(message, outcome);
      isLoading := false;
      ParseAndFetchAlbumDetails(parse, resolve);
    }

    /** The stream phase of a turn (the `try`/`catch` of `sendMessage`): either the
        apology alone, or a placeholder reply that grows chunk by chunk, followed by
        the apology when the stream throws part-way. The error is set on a failure
        and left as it was otherwise. */
    method Stream(outcome: StreamOutcome)
      modifies this`messages, this`error
      ensures messages == old(messages) + ReplyMessages(outcome)
      ensures error == (if outcome.Fails() then Some(ERROR_TEXT) else old(error))
    {
      ghost var before := messages;
      match outcome {
      case EstablishFailed =>
        error := Some(ERROR_TEXT);
        messages := messages + [TextMessage(Model, APOLOGY)];
      case Streamed(chunks, failsAfter) =>
        messages := messages + [TextMessage(Model, "")];
        var i := 0;
        while i < |chunks|
          invariant 0 <= i <= |chunks|
          invariant messages == before + [TextMessage(Model, Concat(chunks[..i]))]
          invariant error == old(error)
        {
          var last := messages[|messages| - 1];
          assert last == TextMessage(Model, Concat(chunks[..i]));
          if last.role == Model {
            messages := messages[|messages| - 1 := last.(text := last.text + chunks[i])];
          }
          ghost var grown := chunks[..i + 1];
          assert grown[..i] == chunks[..i] && grown[i] == chunks[i];
          assert Concat(grown) == Concat(chunks[..i]) + chunks[i];
          assert messages == before + [TextMessage(Model, Concat(grown))];
          i := i + 1;
        }
        assert chunks[..i] == chunks;
        if failsAfter {
          error := Some(ERROR_TEXT);
          messages := messages + [TextMessage(Model, APOLOGY)];
        }
      }
    }

    /** Enrichment of the last message (`parseAndFetchAlbumDetails`). */
    method ParseAndFetchAlbumDetails(parse: string -> Option<seq<RawAlbum>>, resolve: RawAlbum -> Album)
      modifies this`messages
      ensures messages == EnrichLast(old(messages), parse, resolve)
    {
      if |messages| == 0 {
        return;
      }
      var lastIndex := |messages| - 1;
      var last := messages[lastIndex];
      if last.role != Model || !Includes(last.text, START) {
        return;
      }
      var found := FindBlock(last.text);
      if found.None? || Inner(last.text, found.value) == [] {
        return;
      }
      var json := Trim(Inner(last.text, found.value));
      match parse(json) {
      case Some(raws) =>
        var cleaned := CleanText(last.text);
        var fullAlbums := ResolveAll(raws, resolve);
        messages := messages[lastIndex := last.(text := cleaned, albums := Some(fullAlbums))];
      case None =>
        // the failure path cleans whatever message is last at that moment
        var lastMsg := messages[|messages| - 1];
        messages := messages[|messages| - 1 := lastMsg.(text := CleanText(lastMsg.text))];
      }
    }
  }
}
