/**
 * The metadata resolver of src/services/music-brainz.service.ts. The three HTTP
 * responses it awaits (the release search, the release lookup and the cover-art
 * listing) are parameters, so resolving an album is a total function: it never
 * fails, and identical responses give an identical album.
 */
module MusicBrainz {
  import opened Wrappers
  import opened JsString
  import opened Models

  const MUSIC_BRAINZ_API: string := "https://musicbrainz.org/ws/2/release/"
  const COVER_ART_API: string := "https://coverartarchive.org/release/"

  /** The outcome of one HTTP GET: a decoded body, or any failure (network error,
      non-2xx status, unreadable body). */
  datatype Http<T> = Ok(body: T) | Failed

  datatype Tag = Tag(count: int, name: string)
  datatype ReleaseEvent = ReleaseEvent(date: string)
  datatype Artist = Artist(name: string)
  datatype ArtistCredit = ArtistCredit(artist: Artist)

  /** A MusicBrainz release; the hyphenated JSON keys `release-events` and
      `artist-credit` become `releaseEvents` and `artistCredit`. */
  datatype Release = Release(
    id: string,
    title: string,
    releaseEvents: Option<seq<ReleaseEvent>>,
    artistCredit: Option<seq<ArtistCredit>>,
    tags: Option<seq<Tag>>)

  datatype SearchResponse = SearchResponse(releases: Option<seq<Release>>)

  datatype CoverImage = CoverImage(front: bool, image: string)
  datatype CoverArtResponse = CoverArtResponse(images: Option<seq<CoverImage>>)

  /** The lookup request for a release identifier. */
  function LookupUrl(mbid: string): string {
    MUSIC_BRAINZ_API + mbid + "?inc=artist-credits+tags&fmt=json"
  }

  /** The cover-art request for a release identifier. */
  function CoverArtUrl(mbid: string): string {
    COVER_ART_API + mbid
  }

  /** The album returned whenever the search or the lookup does not succeed. */
  function Fallback(album: RawAlbum): Album {
    Album(album.albumName, album.artistName, "", None, None)
  }

  /** The identifier of the first search hit; none when the search failed or found
      no release (the source throws, and so falls back, in both cases). */
  function FirstReleaseId(search: Http<SearchResponse>): Option<string> {
    match search
    case Failed => None
    case Ok(response) =>
      match response.releases
      case None => None
      case Some(releases) => if releases == [] then None else Some(releases[0].id)
  }

  // ---------------------------------------------------------------- cover art

  /** `images.find(img => img.front)`, as the index of the image found. */
  function FindFrontIndex(images: seq<CoverImage>): (r: Option<nat>)
    ensures r.Some? ==> r.value < |images| && images[r.value].front
    ensures r.Some? ==> forall j :: 0 <= j < r.value ==> !images[j].front
    ensures r.None? ==> forall j :: 0 <= j < |images| ==> !images[j].front
  {
    if images == [] then None
    else if images[0].front then Some(0)
    else match FindFrontIndex(images[1..])
      case None => None
      case Some(i) => Some(i + 1)
  }

  /** `fetchedCoverArtUrl`: the image of the first front image, if the cover-art
      request succeeded and listed any images. A failure here is swallowed. */
  function FetchedCoverArt(response: Http<CoverArtResponse>): Option<string> {
    match response
    case Failed => None
    case Ok(art) =>
      match art.images
      case None => None
      case Some(images) =>
        if images == [] then None
        else match FindFrontIndex(images)
          case None => None
          case Some(i) => Some(images[i].image)
  }

  /** `url || ''`: an absent or empty URL becomes the empty-string sentinel. */
  function OrEmpty(url: Option<string>): string {
    match url
    case None => ""
    case Some(u) => u
  }

  /** The cover URL is non-empty exactly when the cover-art request succeeded with an
      image list in which the first image marked front has a non-empty image; it is
      then that image. */
  lemma CoverUrlIsFirstFrontImage(response: Http<CoverArtResponse>)
    ensures var url := OrEmpty(FetchedCoverArt(response));
            url != "" <==>
              && response.Ok? && response.body.images.Some?
              && var images := response.body.images.value;
                 exists k :: 0 <= k < |images| && images[k].front && images[k].image != ""
                             && forall j :: 0 <= j < k ==> !images[j].front
    ensures var url := OrEmpty(FetchedCoverArt(response));
            url != "" ==>
              var images := response.body.images.value;
              exists k :: 0 <= k < |images| && images[k].front && images[k].image == url
                          && forall j :: 0 <= j < k ==> !images[j].front
  {
    var url := OrEmpty(FetchedCoverArt(response));
    if response.Ok? && response.body.images.Some? {
      var images := response.body.images.value;
      var found := FindFrontIndex(images);
      if found.Some? {
        var i := found.value;
        forall k | 0 <= k < |images| && images[k].front && forall j :: 0 <= j < k ==> !images[j].front
          ensures k == i
        {
          assert !(k < i) && !(i < k);
        }
      }
    }
  }

  // ---------------------------------------------------------------- year

  /** `release['release-events']?.[0]?.date`, then `parseInt(date.substring(0, 4), 10)`
      unless the date is absent or empty. */
  function ReleaseYear(release: Release): Option<JsNumber> {
    match release.releaseEvents
    case None => None
    case Some(events) =>
      if events == [] || events[0].date == "" then None
      else Some(ParseInt10(Prefix(events[0].date, 4)))
  }

  /** The year is absent exactly when there is no first release event or its date is
      empty; any year read from the four characters lies strictly between -10000 and
      10000. */
  lemma ReleaseYearPresence(release: Release)
    ensures ReleaseYear(release).None? <==>
              (|| release.releaseEvents.None?
               || release.releaseEvents.value == []
               || release.releaseEvents.value[0].date == "")
    ensures ReleaseYear(release).Some? && ReleaseYear(release).value.Finite? ==>
              -10000 < ReleaseYear(release).value.value < 10000
  {
    if ReleaseYear(release).Some? {
      var head := Prefix(release.releaseEvents.value[0].date, 4);
      ParseIntBound(head);
      PowMonotonic(|head|, 4);
      assert Pow10(4) == 10000;
    }
  }

  /** A date that starts with four digits gives the year those digits denote. */
  lemma ReleaseYearOfDigits(release: Release)
    requires release.releaseEvents.Some? && release.releaseEvents.value != []
    requires var date := release.releaseEvents.value[0].date;
             |date| >= 4 && AllDigits(date[..4])
    ensures var date := release.releaseEvents.value[0].date;
            ReleaseYear(release) == Some(Finite(DecimalValue(date[..4])))
  {
    YearOfDigits(release.releaseEvents.value[0].date);
  }

  /** For instance, the full date "1997-06-16" gives the year 1997. */
  lemma ReleaseYearOfFullDate(release: Release)
    requires release.releaseEvents == Some([ReleaseEvent("1997-06-16")])
    ensures ReleaseYear(release) == Some(Finite(1997))
  {
    var date := release.releaseEvents.value[0].date;
    assert date[0] == '1' && date[1] == '9' && date[2] == '9' && date[3] == '7';
    ReleaseYearOfDigits(release);
    FourDigitValue(date[..4]);
  }

  /** A date that starts with a character that is neither a digit, a sign nor white
      space (such as "unknown") gives NaN, not an absent year. */
  lemma ReleaseYearOfNonDigitDate(release: Release)
    requires release.releaseEvents.Some? && release.releaseEvents.value != []
    requires var date := release.releaseEvents.value[0].date;
             date != "" && !IsDigit(date[0]) && !IsWhiteSpace(date[0]) && date[0] != '-' && date[0] != '+'
    ensures ReleaseYear(release) == Some(NaN)
  {
    var date := release.releaseEvents.value[0].date;
    var head := Prefix(date, 4);
    assert head[0] == date[0];
    assert TrimStart(head) == head;
    assert Unsigned(head) == head;
    ParseIntNaN(head);
  }

  /** `parseInt` of the first four characters of a date that starts with four digits
      is the value of those digits. */
  lemma YearOfDigits(date: string)
    requires |date| >= 4 && AllDigits(date[..4])
    ensures ParseInt10(Prefix(date, 4)) == Finite(DecimalValue(date[..4]))
  {
    var head := date[..4];
    assert Prefix(date, 4) == head;
    ParseIntOfDigits(head);
    LeadingDigitsOfDigits(head);
  }

  lemma {:induction false} LeadingDigitsOfDigits(d: string)
    requires AllDigits(d)
    ensures LeadingDigits(d) == d
  {
    if d != [] {
      LeadingDigitsOfDigits(d[1..]);
    }
  }

  lemma FourDigitValue(d: string)
    requires |d| == 4 && AllDigits(d)
    ensures DecimalValue(d) == 1000 * DigitValue(d[0]) + 100 * DigitValue(d[1])
                               + 10 * DigitValue(d[2]) + DigitValue(d[3])
  {
    var d1, d2, d3 := d[..1], d[..2], d[..3];
    assert d3 == d[..3] && d3[..2] == d2 && d2[..1] == d1 && d1[..0] == [];
    assert DecimalValue(d1) == DigitValue(d[0]);
    assert DecimalValue(d2) == 10 * DigitValue(d[0]) + DigitValue(d[1]);
    assert DecimalValue(d3) == 100 * DigitValue(d[0]) + 10 * DigitValue(d[1]) + DigitValue(d[2]);
  }

  // ---------------------------------------------------------------- genre

  /** The index of the tag with the highest count, the earliest one on a tie. */
  function FirstMaxIndex(tags: seq<Tag>): (k: nat)
    requires |tags| > 0
    ensures k < |tags|
    ensures forall j :: 0 <= j < |tags| ==> tags[j].count <= tags[k].count
    ensures forall j :: 0 <= j < k ==> tags[j].count < tags[k].count
  {
    if |tags| == 1 then 0
    else
      var k := FirstMaxIndex(tags[..|tags| - 1]);
      if tags[|tags| - 1].count > tags[k].count then |tags| - 1 else k
  }

  /** Inserts `t` into a list ordered by decreasing count, after every tag whose count
      is at least t's: the step of a stable insertion sort. */
  function InsertByCount(t: Tag, sorted: seq<Tag>): seq<Tag> {
    if sorted == [] then [t]
    else if sorted[0].count >= t.count then [sorted[0]] + InsertByCount(t, sorted[1..])
    else [t] + sorted
  }

  /** `tags.sort((a, b) => b.count - a.count)`, a stable sort by decreasing count. */
  function SortByCountDesc(tags: seq<Tag>): seq<Tag> {
    if tags == [] then []
    else InsertByCount(tags[|tags| - 1], SortByCountDesc(tags[..|tags| - 1]))
  }

  predicate ByDecreasingCount(s: seq<Tag>) {
    forall i, j :: 0 <= i < j < |s| ==> s[i].count >= s[j].count
  }

  lemma InsertByCountHead(t: Tag, sorted: seq<Tag>)
    ensures InsertByCount(t, sorted)[0] == if sorted != [] && sorted[0].count >= t.count then sorted[0] else t
  {
  }

  lemma {:induction false} InsertByCountKeepsOrder(t: Tag, sorted: seq<Tag>)
    requires ByDecreasingCount(sorted)
    ensures ByDecreasingCount(InsertByCount(t, sorted))
  {
    if sorted != [] && sorted[0].count >= t.count {
      var rest := InsertByCount(t, sorted[1..]);
      InsertByCountKeepsOrder(t, sorted[1..]);
      InsertByCountHead(t, sorted[1..]);
      assert rest[0].count <= sorted[0].count;
      var whole := [sorted[0]] + rest;
      forall i, j | 0 <= i < j < |whole|
        ensures whole[i].count >= whole[j].count
      {
        if i == 0 {
          assert whole[j] == rest[j - 1];
          assert rest[0].count >= rest[j - 1].count;
        }
      }
    }
  }

  lemma {:induction false} InsertByCountKeepsTags(t: Tag, sorted: seq<Tag>)
    ensures multiset(InsertByCount(t, sorted)) == multiset(sorted) + multiset{t}
  {
    if sorted != [] && sorted[0].count >= t.count {
      InsertByCountKeepsTags(t, sorted[1..]);
      assert sorted == [sorted[0]] + sorted[1..];
    }
  }

  /** The sort used as an independent reference: it orders by decreasing count, keeps
      every tag, and its head is the tag `FirstMaxIndex` selects. */
  lemma SortedHeadIsFirstMax(tags: seq<Tag>)
    ensures ByDecreasingCount(SortByCountDesc(tags))
    ensures multiset(SortByCountDesc(tags)) == multiset(tags)
    ensures tags != [] ==> SortByCountDesc(tags)[0] == tags[FirstMaxIndex(tags)]
  {
    SortKeepsOrder(tags);
    SortKeepsTags(tags);
    if tags != [] {
      SortedHead(tags);
    }
  }

  lemma {:induction false} SortKeepsOrder(tags: seq<Tag>)
    ensures ByDecreasingCount(SortByCountDesc(tags))
  {
    if tags != [] {
      SortKeepsOrder(tags[..|tags| - 1]);
      InsertByCountKeepsOrder(tags[|tags| - 1], SortByCountDesc(tags[..|tags| - 1]));
    }
  }

  lemma {:induction false} SortKeepsTags(tags: seq<Tag>)
    ensures multiset(SortByCountDesc(tags)) == multiset(tags)
  {
    if tags != [] {
      var init := tags[..|tags| - 1];
      SortKeepsTags(init);
      InsertByCountKeepsTags(tags[|tags| - 1], SortByCountDesc(init));
      assert tags == init + [tags[|tags| - 1]];
    }
  }

  lemma {:induction false} SortedHead(tags: seq<Tag>)
    requires tags != []
    ensures SortByCountDesc(tags)[0] == tags[FirstMaxIndex(tags)]
  {
    var init := tags[..|tags| - 1];
    var last := tags[|tags| - 1];
    if init == [] {
      assert SortByCountDesc(tags) == [last];
    } else {
      SortedHead(init);
      var sorted := SortByCountDesc(init);
      InsertByCountHead(last, sorted);
      assert sorted[0] == init[FirstMaxIndex(init)] == tags[FirstMaxIndex(init)];
    }
  }

  /** `release.tags?.sort(...)[0]?.name`, capitalised, unless absent or empty. */
  function Genre(release: Release): Option<string> {
    match release.tags
    case None => None
    case Some(tags) =>
      if tags == [] then None
      else
        var name := tags[FirstMaxIndex(tags)].name;
        if name == "" then None else Some(CapitalizeFirst(name))
  }

  /** The genre is the name of the first tag of highest count, with its first letter
      upper-cased and the rest unchanged; it is absent exactly when there are no tags
      or that name is empty. */
  lemma GenreIsHighestCountTag(release: Release)
    ensures Genre(release).None? <==>
              (|| release.tags.None? || release.tags.value == []
               || SortByCountDesc(release.tags.value)[0].name == "")
    ensures Genre(release).Some? ==>
              var tags := release.tags.value;
              var g := Genre(release).value;
              exists k :: && 0 <= k < |tags|
                          && (forall j :: 0 <= j < |tags| ==> tags[j].count <= tags[k].count)
                          && (forall j :: 0 <= j < k ==> tags[j].count < tags[k].count)
                          && tags[k].name != ""
                          && |g| == |tags[k].name|
                          && g[0] == AsciiUpper(tags[k].name[0])
                          && g[1..] == tags[k].name[1..]
  {
    if release.tags.Some? && release.tags.value != [] {
      var tags := release.tags.value;
      SortedHeadIsFirstMax(tags);
      var k := FirstMaxIndex(tags);
      if tags[k].name != "" {
        assert Genre(release).value == [AsciiUpper(tags[k].name[0])] + tags[k].name[1..];
      }
    }
  }

  // ---------------------------------------------------------------- details

  /** `release['artist-credit']?.[0]?.artist.name || album.artistName`. */
  function CanonicalArtist(album: RawAlbum, release: Release): string {
    match release.artistCredit
    case None => album.artistName
    case Some(credits) =>
      if credits == [] || credits[0].artist.name == "" then album.artistName
      else credits[0].artist.name
  }

  /** `getAlbumDetails`: search, look up the first hit, try its cover art, and
      describe the release; fall back to the input names on any search or lookup
      failure. `lookup` and `coverArt` give the response to each request URL. */
  function GetAlbumDetails(
    album: RawAlbum,
    search: Http<SearchResponse>,
    lookup: string -> Http<Release>,
    coverArt: string -> Http<CoverArtResponse>): Album
  {
    match FirstReleaseId(search)
    case None => Fallback(album)
    case Some(mbid) =>
      match lookup(LookupUrl(mbid))
      case Failed => Fallback(album)
      case Ok(release) =>
        Album(
          albumName := release.title,
          artistName := CanonicalArtist(album, release),
          coverArtUrl := OrEmpty(FetchedCoverArt(coverArt(CoverArtUrl(mbid)))),
          releaseYear := ReleaseYear(release),
          genre := Genre(release))
  }

  /** A failed search, a search without releases or a failed lookup of the first hit
      yields the input names, no cover art, no year and no genre. */
  lemma FallbackWhenNotResolved(
    album: RawAlbum,
    search: Http<SearchResponse>,
    lookup: string -> Http<Release>,
    coverArt: string -> Http<CoverArtResponse>)
    requires || search.Failed? || search.body.releases.None? || search.body.releases.value == []
             || lookup(LookupUrl(search.body.releases.value[0].id)).Failed?
    ensures GetAlbumDetails(album, search, lookup, coverArt)
            == Album(album.albumName, album.artistName, "", None, None)
  {
  }

  /** When the first hit is looked up, the lookup's title wins, its first credited
      artist wins unless missing or empty, and the year and genre come from it. */
  lemma CanonicalReleaseWins(
    album: RawAlbum,
    search: Http<SearchResponse>,
    lookup: string -> Http<Release>,
    coverArt: string -> Http<CoverArtResponse>)
    requires search.Ok? && search.body.releases.Some? && search.body.releases.value != []
    requires lookup(LookupUrl(search.body.releases.value[0].id)).Ok?
    ensures var release := lookup(LookupUrl(search.body.releases.value[0].id)).body;
            var r := GetAlbumDetails(album, search, lookup, coverArt);
            && r.albumName == release.title
            && r.artistName == (if && release.artistCredit.Some? && release.artistCredit.value != []
                                   && release.artistCredit.value[0].artist.name != ""
                                then release.artistCredit.value[0].artist.name
                                else album.artistName)
            && r.releaseYear == ReleaseYear(release)
            && r.genre == Genre(release)
            && r.coverArtUrl == OrEmpty(FetchedCoverArt(coverArt(CoverArtUrl(search.body.releases.value[0].id))))
  {
  }

  /** The cover-art response affects nothing but the cover URL: with any two cover-art
      responses the albums agree elsewhere, so a cover-art failure never causes the
      fallback, and a failed cover-art request leaves the URL empty. */
  lemma CoverArtOnlyDecorates(
    album: RawAlbum,
    search: Http<SearchResponse>,
    lookup: string -> Http<Release>,
    coverArt: string -> Http<CoverArtResponse>,
    otherCoverArt: string -> Http<CoverArtResponse>)
    ensures GetAlbumDetails(album, search, lookup, coverArt).(coverArtUrl := "")
            == GetAlbumDetails(album, search, lookup, otherCoverArt).(coverArtUrl := "")
    ensures (forall url :: coverArt(url).Failed?) ==>
              GetAlbumDetails(album, search, lookup, coverArt).coverArtUrl == ""
  {
  }

  /** For instance, the tags `rock` counted 5 and `indie` counted 9 give "Indie". */
  lemma GenreOfRockAndIndie(release: Release)
    requires release.tags == Some([Tag(5, "rock"), Tag(9, "indie")])
    ensures Genre(release) == Some("Indie")
  {
    var tags := release.tags.value;
    assert tags[..1] == [Tag(5, "rock")];
    assert FirstMaxIndex(tags) == 1;
    assert AsciiUpper('i') == 'I';
    assert CapitalizeFirst("indie") == "Indie";
  }
}
