/**
 * The album block a model reply may carry, and its removal from the displayed text
 * (the regular expression /\[ALBUMS_START\]([\s\S]*?)\[ALBUMS_END\]/ of the chat
 * component, used once with `match` and once with `replace`).
 */
module AlbumBlock {
  import opened Wrappers
  import opened JsString

  const START: string := "[ALBUMS_START]"
  const END: string := "[ALBUMS_END]"

  /** A match of the album regular expression: where its opening and its closing
      delimiter begin. */
  datatype Block = Block(open: nat, close: nat)

  /** `text` has an opening delimiter at `open` and a closing delimiter at `close`,
      with nothing of the two overlapping: a match of the regular expression. */
  predicate IsBlockAt(text: string, open: int, close: int) {
    OccursAt(text, START, open) && open + |START| <= close && OccursAt(text, END, close)
  }

  /** `text.match(albumRegex)`: the match a regular expression engine reports. It
      starts at the first opening delimiter and, the `*?` being lazy, ends at the
      first closing delimiter after it; there is no match exactly when no closing
      delimiter follows any opening one. */
  function FindBlock(text: string): (r: Option<Block>)
    ensures r.Some? ==> IsBlockAt(text, r.value.open, r.value.close)
    ensures r.Some? ==> forall o :: 0 <= o < r.value.open ==> !OccursAt(text, START, o)
    ensures r.Some? ==> forall c :: r.value.open + |START| <= c < r.value.close ==> !OccursAt(text, END, c)
    ensures r.None? ==> forall o, c :: !IsBlockAt(text, o, c)
  {
    match IndexOfFrom(text, START, 0)
    case None => None
    case Some(open) =>
      match IndexOfFrom(text, END, open + |START|)
      case None => None
      case Some(close) => Some(Block(open, close))
  }

  /** The text captured between the delimiters (`match[1]`). */
  function Inner(text: string, b: Block): string
    requires IsBlockAt(text, b.open, b.close)
  {
    text[b.open + |START|..b.close]
  }

  /** The text with the block, delimiters included, cut out. */
  function Strip(text: string, b: Block): string
    requires IsBlockAt(text, b.open, b.close)
  {
    text[..b.open] + text[b.close + |END|..]
  }

  /** `text.replace(albumRegex, '')`: only the first match is removed, so the text
      is left as it is exactly when the expression does not match. */
  function ReplaceFirstBlock(text: string): (r: string)
    ensures |r| <= |text|
    ensures r == text <==> FindBlock(text).None?
  {
    match FindBlock(text)
    case None => text
    case Some(b) => Strip(text, b)
  }

  /** A found block splits the text into a prefix, the delimited block and a suffix;
      the prefix holds no opening delimiter and the captured text no closing one, so
      stripping removes exactly the first block and nothing else. */
  lemma BlockDecomposition(text: string)
    requires FindBlock(text).Some?
    ensures var b := FindBlock(text).value;
            && text == text[..b.open] + START + Inner(text, b) + END + text[b.close + |END|..]
            && ReplaceFirstBlock(text) == text[..b.open] + text[b.close + |END|..]
            && |ReplaceFirstBlock(text)| == |text| - |START| - |Inner(text, b)| - |END|
            && !Includes(text[..b.open], START)
            && !Includes(Inner(text, b), END)
  {
    var b := FindBlock(text).value;
    SplitAtBlock(text, b);
    PrefixHasNoStart(text, b.open);
    InnerHasNoEnd(text, b.open + |START|, b.close);
  }

  lemma SplitAtBlock(text: string, b: Block)
    requires IsBlockAt(text, b.open, b.close)
    ensures text == text[..b.open] + START + Inner(text, b) + END + text[b.close + |END|..]
  {
    assert text == text[..b.open] + text[b.open..b.open + |START|] + Inner(text, b)
                   + text[b.close..b.close + |END|] + text[b.close + |END|..];
  }

  lemma {:induction false} PrefixHasNoStart(text: string, open: nat)
    requires open <= |text|
    requires forall o :: 0 <= o < open ==> !OccursAt(text, START, o)
    ensures !Includes(text[..open], START)
  {
    var prefix := text[..open];
    forall k | 0 <= k
      ensures !OccursAt(prefix, START, k)
    {
      if k + |START| <= |prefix| {
        SliceOfSlice(text, 0, open, k, k + |START|);
        assert !OccursAt(text, START, k);
      }
    }
  }

  lemma {:induction false} InnerHasNoEnd(text: string, lo: nat, hi: nat)
    requires lo <= hi <= |text|
    requires forall c :: lo <= c < hi ==> !OccursAt(text, END, c)
    ensures !Includes(text[lo..hi], END)
  {
    var inner := text[lo..hi];
    forall k | 0 <= k
      ensures !OccursAt(inner, END, k)
    {
      if k + |END| <= |inner| {
        SliceOfSlice(text, lo, hi, k, k + |END|);
        assert !OccursAt(text, END, lo + k);
      }
    }
  }

  /** A slice of a slice is a slice of the whole. */
  lemma SliceOfSlice(s: string, lo: nat, hi: nat, i: nat, j: nat)
    requires lo <= hi <= |s| && i <= j <= hi - lo
    ensures s[lo..hi][i..j] == s[lo + i..lo + j]
  {
    forall t | 0 <= t < j - i
      ensures s[lo..hi][i..j][t] == s[lo + i..lo + j][t]
    {
      assert s[lo..hi][i..j][t] == s[lo..hi][i + t] == s[lo + i + t];
    }
  }

  /** What the chat component derives from the last model message: nothing when the
      regular expression does not match or captures the empty string (`match &&
      match[1]`), otherwise the trimmed capture handed to the JSON parser and the
      trimmed text without its first block. */
  datatype Extraction = NoBlock | Found(json: string, cleaned: string)

  /** The cleaned display text: `text.replace(albumRegex, '').trim()`. */
  function CleanText(text: string): string {
    Trim(ReplaceFirstBlock(text))
  }

  function Extract(text: string): Extraction {
    match FindBlock(text)
    case None => NoBlock
    case Some(b) =>
      if Inner(text, b) == [] then NoBlock
      else Found(Trim(Inner(text, b)), CleanText(text))
  }

  /** `text` holds an album block with a non-empty capture (`match && match[1]`). */
  predicate HasBlock(text: string) {
    FindBlock(text).Some? && Inner(text, FindBlock(text).value) != []
  }

  /** A block is extracted exactly when the text holds one with a non-empty capture;
      the cleaned text is then shorter than the message text by at least the two
      delimiters. */
  lemma CleanedTextIsShorter(text: string)
    ensures Extract(text).Found? <==> HasBlock(text)
    ensures HasBlock(text) ==> |Extract(text).cleaned| <= |text| - |START| - |END|
  {
    if HasBlock(text) {
      BlockDecomposition(text);
    }
  }
}
