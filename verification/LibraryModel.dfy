/** The library's rows, and how ids are derived. */
module LibraryModel {
  import opened Basics
  import opened Sorting

  /** What one source said about a track; MusicBrainz ids key identities. */
  datatype Observation = Observation(
    source: string,
    title: Option<string>,
    artistName: Option<string>,
    albumArtistName: Option<string>,
    albumTitle: Option<string>,
    year: Option<nat>,
    trackNumber: Option<nat>,
    discNumber: Option<nat>,
    artistMbid: Option<string>,
    releaseArtistMbid: Option<string>)

  datatype Track = Track(
    id: string,
    providerId: string,
    relativePath: string,
    observed: seq<Observation>,
    title: string,
    artistId: string,
    artistName: string,
    albumId: string,
    albumTitle: string,
    year: Option<nat>,
    trackNumber: Option<nat>,
    discNumber: Option<nat>,
    streamUrl: string)

  datatype Artwork = Artwork(path: string, revision: Option<string>, provider: Option<string>)

  datatype Album = Album(
    id: string,
    title: string,
    artistId: string,
    artistName: string,
    year: Option<nat>,
    trackCount: nat,
    artwork: Option<Artwork>)

  datatype Artist = Artist(id: string, name: string, albumCount: nat, trackCount: nat)

  datatype Library = Library(
    providerId: string,
    sourceRoot: string,
    artists: seq<Artist>,
    albums: seq<Album>,
    tracks: seq<Track>,
    scanErrors: seq<string>)

  /** The functions ids are made with: `stable` hashes a prefixed value, `nameKey` normalises an artist
      name, `mbidKey` trims and lowercases a MusicBrainz id unless it is blank, `titleKey` lowercases. */
  datatype Naming = Naming(
    stable: (string, string) -> string,
    nameKey: string -> string,
    mbidKey: string -> Option<string>,
    titleKey: string -> string)

  /** The hash is treated as injective. */
  ghost predicate Injective(stable: (string, string) -> string) {
    forall p, v, q, w :: stable(p, v) == stable(q, w) ==> p == q && v == w
  }

  function IdentityKey(n: Naming, name: string, mbid: Option<string>): string {
    match if mbid.Some? then n.mbidKey(mbid.value) else None
    case Some(key) => "mbid:" + key
    case None => n.nameKey(name)
  }

  function ArtistIdentity(n: Naming, name: string, mbid: Option<string>): string {
    n.stable("artist", IdentityKey(n, name, mbid))
  }

  function AlbumIdentity(n: Naming, albumArtist: string, title: string, mbid: Option<string>): string {
    n.stable("album", IdentityKey(n, albumArtist, mbid) + "::" + n.titleKey(title))
  }

  function StreamUrl(id: string): string { "/api/tracks/" + id + "/stream" }

  /** The key of an album artist cannot be mistaken for the beginning of another with a title. */
  ghost predicate Plain(key: string) {
    (key == "" || key[|key| - 1] != ':') && forall i :: 0 <= i < |key| - 1 ==> !(key[i] == ':' && key[i + 1] == ':')
  }

  lemma KeyNotLonger(a: string, x: string, b: string, y: string)
    requires Plain(b) && a + "::" + x == b + "::" + y
    ensures |b| <= |a|
  {
    var u := a + "::" + x;
    assert u[|a|] == ':' && u[|a| + 1] == ':';
    assert forall i :: 0 <= i < |b| ==> u[i] == b[i];
  }

  lemma KeysSplit(a: string, x: string, b: string, y: string)
    requires Plain(a) && Plain(b) && a + "::" + x == b + "::" + y
    ensures a == b && x == y
  {
    KeyNotLonger(a, x, b, y);
    KeyNotLonger(b, y, a, x);
    var u := a + "::" + x;
    assert u[..|a|] == a && u[..|b|] == b && u[|a| + 2..] == x && u[|b| + 2..] == y;
  }

  lemma PrefixCancels(k: string, x: string, y: string)
    ensures k + x == k + y ==> x == y
  {
    assert (k + x)[|k|..] == x && (k + y)[|k|..] == y;
  }

  /** Tracks have one album exactly when the key of the album artist and the key of the title are the
      same, for keys that hold no double colon. */
  lemma SameAlbumMeaning(n: Naming, artist: string, title: string, mbid: Option<string>, artist': string,
        title': string, mbid': Option<string>)
    requires Injective(n.stable)
    requires Plain(IdentityKey(n, artist, mbid)) && Plain(IdentityKey(n, artist', mbid'))
    ensures AlbumIdentity(n, artist, title, mbid) == AlbumIdentity(n, artist', title', mbid') <==>
              IdentityKey(n, artist, mbid) == IdentityKey(n, artist', mbid') && n.titleKey(title) == n.titleKey(title')
  {
    var a, b := IdentityKey(n, artist, mbid), IdentityKey(n, artist', mbid');
    if AlbumIdentity(n, artist, title, mbid) == AlbumIdentity(n, artist', title', mbid') {
      KeysSplit(a, n.titleKey(title), b, n.titleKey(title'));
    }
  }

  /** Two titles of one album artist with different keys are two albums, whatever the artist is called. */
  lemma TitlesTellApart(n: Naming, artist: string, mbid: Option<string>, title: string, title': string)
    requires Injective(n.stable) && n.titleKey(title) != n.titleKey(title')
    ensures AlbumIdentity(n, artist, title, mbid) != AlbumIdentity(n, artist, title', mbid)
  {
    PrefixCancels(IdentityKey(n, artist, mbid) + "::", n.titleKey(title), n.titleKey(title'));
  }

  /** The case that fails: an artist with a double colon in the key shares an album with another artist. */
  lemma ColonsMixAlbums(n: Naming)
    requires n.nameKey("::") == "::" && n.nameKey("") == "" && n.titleKey("::") == "::" && n.titleKey("") == ""
    ensures AlbumIdentity(n, "::", "", None) == AlbumIdentity(n, "", "::", None)
  {
    assert "::" + "::" + "" == "" + "::" + "::";
  }

  /** A name is an artist's exactly by its key, or by its MusicBrainz id when it has one. */
  lemma SameArtistMeaning(n: Naming, name: string, mbid: Option<string>, name': string, mbid': Option<string>)
    requires Injective(n.stable)
    ensures ArtistIdentity(n, name, mbid) == ArtistIdentity(n, name', mbid') <==>
              ArtistKey(n, name, mbid) == ArtistKey(n, name', mbid')
  {
  }

  /** What tells artists apart. */
  ghost function ArtistKey(n: Naming, name: string, mbid: Option<string>): string {
    if mbid.Some? && n.mbidKey(mbid.value).Some? then "mbid:" + n.mbidKey(mbid.value).value else n.nameKey(name)
  }

  // ---- Row orders -------------------------------------------------------------------

  /** No value sorts first. */
  predicate OptionLeq(a: Option<nat>, b: Option<nat>) { a.None? || (b.Some? && a.value <= b.value) }

  predicate TrackLeq(a: Track, b: Track) {
    if a.artistName != b.artistName then StrLeq(a.artistName, b.artistName)
    else if a.year != b.year then OptionLeq(a.year, b.year)
    else if a.albumTitle != b.albumTitle then StrLeq(a.albumTitle, b.albumTitle)
    else if a.discNumber != b.discNumber then OptionLeq(a.discNumber, b.discNumber)
    else if a.trackNumber != b.trackNumber then OptionLeq(a.trackNumber, b.trackNumber)
    else StrLeq(a.title, b.title)
  }

  predicate AlbumLeq(a: Album, b: Album) {
    if a.artistName != b.artistName then StrLeq(a.artistName, b.artistName)
    else if a.year != b.year then OptionLeq(a.year, b.year)
    else StrLeq(a.title, b.title)
  }

  predicate ArtistLeq(a: Artist, b: Artist) { StrLeq(a.name, b.name) }

  lemma OptionOrder(a: Option<nat>, b: Option<nat>, c: Option<nat>)
    ensures OptionLeq(a, b) || OptionLeq(b, a)
    ensures OptionLeq(a, b) && OptionLeq(b, a) ==> a == b
    ensures OptionLeq(a, b) && OptionLeq(b, c) ==> OptionLeq(a, c)
  {
  }

  lemma StringOrder(a: string, b: string, c: string)
    ensures StrLeq(a, b) || StrLeq(b, a)
    ensures StrLeq(a, b) && StrLeq(b, a) ==> a == b
    ensures StrLeq(a, b) && StrLeq(b, c) ==> StrLeq(a, c)
  {
    StrLeqTotal(a, b);
    if StrLeq(a, b) && StrLeq(b, a) { StrLeqAntisymmetric(a, b); }
    if StrLeq(a, b) && StrLeq(b, c) { StrLeqTransitive(a, b, c); }
  }

  lemma TrackOrder(a: Track, b: Track, c: Track)
    ensures TrackLeq(a, b) || TrackLeq(b, a)
    ensures TrackLeq(a, b) && TrackLeq(b, c) ==> TrackLeq(a, c)
  {
    StringOrder(a.artistName, b.artistName, c.artistName);
    OptionOrder(a.year, b.year, c.year);
    StringOrder(a.albumTitle, b.albumTitle, c.albumTitle);
    OptionOrder(a.discNumber, b.discNumber, c.discNumber);
    OptionOrder(a.trackNumber, b.trackNumber, c.trackNumber);
    StringOrder(a.title, b.title, c.title);
    StringOrder(b.artistName, c.artistName, a.artistName);
    StringOrder(b.albumTitle, c.albumTitle, a.albumTitle);
    StringOrder(b.title, c.title, a.title);
  }

  lemma AlbumOrder(a: Album, b: Album, c: Album)
    ensures AlbumLeq(a, b) || AlbumLeq(b, a)
    ensures AlbumLeq(a, b) && AlbumLeq(b, c) ==> AlbumLeq(a, c)
  {
    StringOrder(a.artistName, b.artistName, c.artistName);
    OptionOrder(a.year, b.year, c.year);
    StringOrder(a.title, b.title, c.title);
    StringOrder(b.artistName, c.artistName, a.artistName);
    StringOrder(b.title, c.title, a.title);
  }

  /** The three row orders are orders, so sorting by them sorts. */
  lemma RowOrders()
    ensures Total(TrackLeq) && Transitive(TrackLeq)
    ensures Total(AlbumLeq) && Transitive(AlbumLeq)
    ensures Total(ArtistLeq) && Transitive(ArtistLeq)
  {
    forall a: Track, b: Track ensures TrackLeq(a, b) || TrackLeq(b, a) { TrackOrder(a, b, b); }
    forall a: Track, b: Track, c: Track | TrackLeq(a, b) && TrackLeq(b, c)
      ensures TrackLeq(a, c)
    {
      TrackOrder(a, b, c);
    }
    forall a: Album, b: Album ensures AlbumLeq(a, b) || AlbumLeq(b, a) { AlbumOrder(a, b, b); }
    forall a: Album, b: Album, c: Album | AlbumLeq(a, b) && AlbumLeq(b, c)
      ensures AlbumLeq(a, c)
    {
      AlbumOrder(a, b, c);
    }
    forall a: Artist, b: Artist ensures ArtistLeq(a, b) || ArtistLeq(b, a) { StringOrder(a.name, b.name, b.name); }
    forall a: Artist, b: Artist, c: Artist | ArtistLeq(a, b) && ArtistLeq(b, c)
      ensures ArtistLeq(a, c)
    {
      StringOrder(a.name, b.name, c.name);
    }
  }

  // ---- What the orders compare ------------------------------------------------------

  datatype Order = Less | Equal | Greater

  function OrderOf(leq: bool, geq: bool): Order { if leq && geq then Equal else if leq then Less else Greater }

  function Strings(a: string, b: string): Order { OrderOf(StrLeq(a, b), StrLeq(b, a)) }

  /** No number comes before any number. */
  function Numbers(a: Option<nat>, b: Option<nat>): Order {
    if a == b then Equal
    else if a.None? then Less
    else if b.None? then Greater
    else if a.value < b.value then Less else Greater
  }

  /** The first column that differs decides. */
  ghost predicate ByColumns(columns: seq<Order>) {
    forall k :: 0 <= k < |columns| && columns[k] == Greater ==> exists j :: 0 <= j < k && columns[j] == Less
  }

  lemma StringsEqual(a: string, b: string)
    ensures Strings(a, b) == Equal <==> a == b
    ensures Strings(a, b) != Greater <==> StrLeq(a, b)
  {
    StringOrder(a, b, a);
  }

  /** Tracks are ordered by artist, year, album, disc, track number and title, in that order. */
  lemma TrackOrderMeaning(a: Track, b: Track)
    ensures TrackLeq(a, b) <==>
              ByColumns([Strings(a.artistName, b.artistName), Numbers(a.year, b.year),
                  Strings(a.albumTitle, b.albumTitle),
                         Numbers(a.discNumber, b.discNumber), Numbers(a.trackNumber, b.trackNumber),
                             Strings(a.title, b.title)])
  {
    StringsEqual(a.artistName, b.artistName);
    StringsEqual(a.albumTitle, b.albumTitle);
    StringsEqual(a.title, b.title);
    var columns := [Strings(a.artistName, b.artistName), Numbers(a.year, b.year), Strings(a.albumTitle, b.albumTitle),
                    Numbers(a.discNumber, b.discNumber), Numbers(a.trackNumber, b.trackNumber),
                        Strings(a.title, b.title)];
    assert columns[0..] == columns;
    DecidedFrom(columns, 0);
    DecidedFrom(columns, 1);
    DecidedFrom(columns, 2);
    DecidedFrom(columns, 3);
    DecidedFrom(columns, 4);
    DecidedFrom(columns, 5);
    DecidedFrom(columns, 6);
  }

  /** Albums by artist, year and title. */
  lemma AlbumOrderMeaning(a: Album, b: Album)
    ensures AlbumLeq(a, b) <==>
              ByColumns([Strings(a.artistName, b.artistName), Numbers(a.year, b.year), Strings(a.title, b.title)])
  {
    StringsEqual(a.artistName, b.artistName);
    StringsEqual(a.title, b.title);
    var columns := [Strings(a.artistName, b.artistName), Numbers(a.year, b.year), Strings(a.title, b.title)];
    assert columns[0..] == columns;
    DecidedFrom(columns, 0);
    DecidedFrom(columns, 1);
    DecidedFrom(columns, 2);
    DecidedFrom(columns, 3);
  }

  /** Artists by name alone. */
  lemma ArtistOrderMeaning(a: Artist, b: Artist)
    ensures ArtistLeq(a, b) <==> ByColumns([Strings(a.name, b.name)])
  {
    StringsEqual(a.name, b.name);
    Decided([Strings(a.name, b.name)]);
  }

  lemma DecidedFrom(columns: seq<Order>, i: nat)
    requires i <= |columns|
    ensures ByColumns(columns[i..]) <==>
              i == |columns| || columns[i] == Less || (columns[i] == Equal && ByColumns(columns[i + 1..]))
  {
    Decided(columns[i..]);
    if i < |columns| { assert columns[i..][1..] == columns[i + 1..]; }
  }

  lemma {:induction false} Decided(columns: seq<Order>)
    ensures columns == [] ==> ByColumns(columns)
    ensures columns != [] ==>
              (ByColumns(columns) <==> columns[0] == Less || (columns[0] == Equal && ByColumns(columns[1..])))
    decreases |columns|
  {
    if columns != [] {
      var rest := columns[1..];
      Decided(rest);
      assert forall k :: 0 < k < |columns| ==> columns[k] == rest[k - 1];
      assert forall k :: 0 <= k < |rest| ==> rest[k] == columns[k + 1];
      if columns[0] == Equal {
        if ByColumns(rest) {
          forall k | 0 <= k < |columns| && columns[k] == Greater ensures exists j :: 0 <= j < k && columns[j] == Less {
            var j :| 0 <= j < k - 1 && rest[j] == Less;
            assert columns[j + 1] == Less;
          }
        }
        if ByColumns(columns) {
          forall k | 0 <= k < |rest| && rest[k] == Greater ensures exists j :: 0 <= j < k && rest[j] == Less {
            assert columns[k + 1] == Greater;
            var j :| 0 <= j < k + 1 && columns[j] == Less;
            assert rest[j - 1] == Less;
          }
        }
      }
    }
  }
}
