/** The album and artist aggregates a library's tracks are folded into. */
module LibraryAggregation {
  import opened Basics
  import opened Sorting
  import opened Counting
  import opened Mapping
  import opened LibraryModel

  datatype AlbumBuilder = AlbumBuilder(
    id: string,
    title: string,
    artistId: string,
    artistName: string,
    year: Option<nat>,
    trackCount: nat,
    artwork: Option<Artwork>)

  datatype ArtistBuilder = ArtistBuilder(id: string, name: string, albumIds: seq<string>, trackCount: nat)

  /** A track with what aggregation needs beside it. */
  datatype Entry = Entry(track: Track, albumArtistId: string, albumArtistName: string, artworkPath: Option<string>,
      artworkRevision: Option<string>)

  datatype Aggregates = Aggregates(albums: map<string, AlbumBuilder>, artists: map<string, ArtistBuilder>)

  function NewAlbum(e: Entry): AlbumBuilder {
    AlbumBuilder(e.track.albumId, e.track.albumTitle, e.albumArtistId, e.albumArtistName, e.track.year, 0, None)
  }

  function CoverOf(e: Entry): Artwork
    requires e.artworkPath.Some?
  {
    Artwork(e.artworkPath.value, e.artworkRevision, Some(e.track.providerId))
  }

  /** The album takes the first cover any of its tracks supplies. */
  function Covered(a: AlbumBuilder, e: Entry): AlbumBuilder {
    if a.artwork.None? && e.artworkPath.Some? then
      a.(artwork := Some(CoverOf(e)))
    else a
  }

  function WithTrack(artists: map<string, ArtistBuilder>, t: Track): map<string, ArtistBuilder> {
    var a := if t.artistId in artists then artists[t.artistId] else ArtistBuilder(t.artistId, t.artistName, [], 0);
    artists[t.artistId := a.(trackCount := a.trackCount + 1)]
  }

  function WithAlbum(artists: map<string, ArtistBuilder>, e: Entry): map<string, ArtistBuilder> {
    var a := if e.albumArtistId in artists then artists[e.albumArtistId]
               else ArtistBuilder(e.albumArtistId, e.albumArtistName, [], 0);
    artists[e.albumArtistId := if e.track.albumId in a.albumIds then a
                                 else a.(albumIds := a.albumIds + [e.track.albumId])]
  }

  function Aggregate(b: Aggregates, e: Entry): Aggregates {
    var album := if e.track.albumId in b.albums then b.albums[e.track.albumId] else NewAlbum(e);
    Aggregates(
      b.albums[e.track.albumId := Covered(album.(trackCount := album.trackCount + 1), e)],
      WithAlbum(WithTrack(b.artists, e.track), e))
  }

  function AggregateAll(es: seq<Entry>): Aggregates {
    if es == [] then Aggregates(map[], map[]) else Aggregate(AggregateAll(es[..|es| - 1]), es[|es| - 1])
  }

  class Builders {
    var albums: map<string, AlbumBuilder>
    var artists: map<string, ArtistBuilder>

    function View(): Aggregates reads this { Aggregates(albums, artists) }

    constructor ()
      ensures View() == Aggregates(map[], map[])
    {
      albums, artists := map[], map[];
    }

    method AggregateTrack(e: Entry)
      modifies this
      ensures View() == Aggregate(old(View()), e)
    {
      var track := e.track;
      var album := if track.albumId in albums then albums[track.albumId]
                   else AlbumBuilder(track.albumId, track.albumTitle, e.albumArtistId, e.albumArtistName, track.year,
                       0, None);
      album := album.(trackCount := album.trackCount + 1);
      if album.artwork.None? && e.artworkPath.Some? {
        album := album.(artwork := Some(Artwork(e.artworkPath.value, e.artworkRevision, Some(track.providerId))));
      }
      albums := albums[track.albumId := album];
      var artist := if track.artistId in artists then artists[track.artistId]
                      else ArtistBuilder(track.artistId, track.artistName, [], 0);
      artists := artists[track.artistId := artist.(trackCount := artist.trackCount + 1)];
      var owner := if e.albumArtistId in artists then artists[e.albumArtistId]
                     else ArtistBuilder(e.albumArtistId, e.albumArtistName, [], 0);
      if track.albumId !in owner.albumIds { owner := owner.(albumIds := owner.albumIds + [track.albumId]); }
      artists := artists[e.albumArtistId := owner];
    }
  }

  // ---- The finished rows ------------------------------------------------------------

  function AlbumRow(a: AlbumBuilder): Album {
    Album(a.id, a.title, a.artistId, a.artistName, a.year, a.trackCount, a.artwork)
  }

  function ArtistRow(a: ArtistBuilder): Artist { Artist(a.id, a.name, |a.albumIds|, a.trackCount) }

  function Finalize(providerId: string, root: string, tracks: seq<Track>, b: Aggregates, errors: seq<string>): Library {
    Library(providerId, root,
            SortBy(ArtistRows(b.artists), ArtistLeq),
            SortBy(AlbumRows(b.albums), AlbumLeq),
            SortBy(tracks, TrackLeq), errors)
  }

  // ---- Counts -----------------------------------------------------------------------

  function OnAlbum(id: string): Track -> bool { (t: Track) => t.albumId == id }

  function ByArtist(id: string): Track -> bool { (t: Track) => t.artistId == id }

  function TracksOf(es: seq<Entry>): seq<Track> { Map((e: Entry) => e.track, es) }

  /** The albums that an artist owns as album artist. */
  ghost function OwnedAlbums(es: seq<Entry>, artistId: string): set<string> {
    set e | e in es && e.albumArtistId == artistId :: e.track.albumId
  }

  ghost predicate NoDuplicates<T>(s: seq<T>) { forall i, j :: 0 <= i < j < |s| ==> s[i] != s[j] }

  ghost predicate AlbumCounted(id: string, a: AlbumBuilder, es: seq<Entry>) {
    a.id == id && a.trackCount == Count(TracksOf(es), OnAlbum(id)) > 0
  }

  ghost predicate ArtistCounted(id: string, a: ArtistBuilder, es: seq<Entry>) {
    && a.id == id && a.trackCount == Count(TracksOf(es), ByArtist(id))
    && NoDuplicates(a.albumIds) && (forall album :: album in a.albumIds <==> album in OwnedAlbums(es, id))
  }

  ghost predicate Counted(b: Aggregates, es: seq<Entry>) {
    && (forall e :: e in es ==>
          e.track.albumId in b.albums && e.track.artistId in b.artists && e.albumArtistId in b.artists)
    && (forall id :: id in b.albums ==> AlbumCounted(id, b.albums[id], es))
    && (forall id :: id in b.artists ==> ArtistCounted(id, b.artists[id], es))
  }

  lemma TracksSnoc(es: seq<Entry>, e: Entry)
    ensures TracksOf(es + [e]) == TracksOf(es) + [e.track]
  {
  }

  lemma {:induction false} AbsentCountsZero(es: seq<Entry>, p: Track -> bool)
    requires forall e :: e in es ==> !p(e.track)
    ensures Count(TracksOf(es), p) == 0
  {
    CountPositive(TracksOf(es), p);
    forall i | 0 <= i < |es| ensures !p(TracksOf(es)[i]) { assert es[i] in es; }
  }

  lemma AlbumsStayCounted(b: Aggregates, es: seq<Entry>, e: Entry)
    requires Counted(b, es)
    ensures forall id :: id in Aggregate(b, e).albums ==> AlbumCounted(id, Aggregate(b, e).albums[id], es + [e])
  {
    TracksSnoc(es, e);
    forall id | id in Aggregate(b, e).albums ensures AlbumCounted(id, Aggregate(b, e).albums[id], es + [e]) {
      CountSnoc(TracksOf(es), e.track, OnAlbum(id));
      if id in b.albums {
        assert AlbumCounted(id, b.albums[id], es);
      } else {
        AbsentCountsZero(es, OnAlbum(id));
      }
    }
  }

  /** An artist before an entry, as its builder would be made. */
  ghost function Before(b: Aggregates, id: string): (nat, seq<string>) {
    if id in b.artists then (b.artists[id].trackCount, b.artists[id].albumIds) else (0, [])
  }

  lemma ArtistAfter(b: Aggregates, e: Entry, id: string)
    requires id in b.artists ==> b.artists[id].id == id
    ensures id in Aggregate(b, e).artists <==> id in b.artists || id == e.track.artistId || id == e.albumArtistId
    ensures id in Aggregate(b, e).artists ==>
              var a, was := Aggregate(b, e).artists[id], Before(b, id);
              && a.id == id
              && a.trackCount == was.0 + (if e.track.artistId == id then 1 else 0)
              && a.albumIds == if e.albumArtistId == id && e.track.albumId !in was.1 then was.1 + [e.track.albumId]
                                 else was.1
  {
  }

  lemma OwnedSnoc(es: seq<Entry>, e: Entry, id: string)
    ensures OwnedAlbums(es + [e], id) == OwnedAlbums(es, id) + if e.albumArtistId == id then {e.track.albumId} else {}
  {
    assert forall x :: x in es + [e] <==> x in es || x == e;
  }

  lemma ArtistStaysCounted(b: Aggregates, es: seq<Entry>, e: Entry, id: string)
    requires Counted(b, es) && id in Aggregate(b, e).artists
    ensures ArtistCounted(id, Aggregate(b, e).artists[id], es + [e])
  {
    TracksSnoc(es, e);
    CountSnoc(TracksOf(es), e.track, ByArtist(id));
    OwnedSnoc(es, e, id);
    if id in b.artists {
      assert ArtistCounted(id, b.artists[id], es);
    } else {
      AbsentCountsZero(es, ByArtist(id));
    }
    ArtistAfter(b, e, id);
  }

  lemma {:induction false} AggregatesCounted(es: seq<Entry>)
    ensures Counted(AggregateAll(es), es)
  {
    if es != [] {
      var front, e := es[..|es| - 1], es[|es| - 1];
      AggregatesCounted(front);
      assert es == front + [e];
      AlbumsStayCounted(AggregateAll(front), front, e);
      forall id | id in AggregateAll(es).artists ensures ArtistCounted(id, AggregateAll(es).artists[id], es) {
        ArtistStaysCounted(AggregateAll(front), front, e, id);
      }
    }
  }

  // ---- What an album's row is made of -----------------------------------------------

  /** The first entry of an album, and the first of its entries that has a cover. */
  function FirstOf(es: seq<Entry>, id: string, covered: bool): Option<Entry> {
    if es == [] then None
    else if es[0].track.albumId == id && (covered ==> es[0].artworkPath.Some?) then Some(es[0])
    else FirstOf(es[1..], id, covered)
  }

  lemma {:induction false} FirstOfSnoc(es: seq<Entry>, e: Entry, id: string, covered: bool)
    ensures FirstOf(es + [e], id, covered) ==
            if FirstOf(es, id, covered).Some? then FirstOf(es, id, covered)
            else if e.track.albumId == id && (covered ==> e.artworkPath.Some?) then Some(e) else None
  {
    if es == [] {
      assert es + [e] == [e];
    } else {
      FirstOfSnoc(es[1..], e, id, covered);
      assert (es + [e])[1..] == es[1..] + [e];
    }
  }

  /** An album has the title, artist and year of its first track, and the first cover any of its tracks supplies. */
  lemma {:induction false} AlbumTakesFirst(es: seq<Entry>, id: string)
    ensures var b, first, cover := AggregateAll(es), FirstOf(es, id, false), FirstOf(es, id, true);
            && (id in b.albums <==> first.Some?)
            && (id in b.albums ==>
                  && b.albums[id].(trackCount := 0, artwork := None) == NewAlbum(first.value)
                  && b.albums[id].artwork == if cover.Some? && cover.value.artworkPath.Some?
                                               then Some(CoverOf(cover.value)) else None)
  {
    if es != [] {
      var front, e := es[..|es| - 1], es[|es| - 1];
      AlbumTakesFirst(front, id);
      assert es == front + [e];
      FirstOfSnoc(front, e, id, false);
      FirstOfSnoc(front, e, id, true);
      CoverImpliesFirst(front, id);
    }
  }

  lemma {:induction false} CoverImpliesFirst(es: seq<Entry>, id: string)
    ensures FirstOf(es, id, true).Some? ==>
              FirstOf(es, id, false).Some? && FirstOf(es, id, true).value.artworkPath.Some?
  {
    if es != [] { CoverImpliesFirst(es[1..], id); }
  }

  // ---- What holds of finished rows --------------------------------------------------

  function AlbumIs(id: string): Album -> bool { (a: Album) => a.id == id }

  function ArtistIs(id: string): Artist -> bool { (a: Artist) => a.id == id }

  /** Every track has its album's row, no id has two rows, and a row's count is the number of tracks
      that carry its id. */
  ghost predicate AlbumsAgree(albums: seq<Album>, tracks: seq<Track>) {
    && (forall a :: a in albums ==> a.trackCount == Count(tracks, OnAlbum(a.id)))
    && (forall id :: Count(albums, AlbumIs(id)) <= 1)
    && (forall t :: t in tracks ==> Count(albums, AlbumIs(t.albumId)) == 1)
  }

  /** The same of artists. */
  ghost predicate ArtistsAgree(artists: seq<Artist>, tracks: seq<Track>) {
    && (forall a :: a in artists ==> a.trackCount == Count(tracks, ByArtist(a.id)))
    && (forall id :: Count(artists, ArtistIs(id)) <= 1)
    && (forall t :: t in tracks ==> Count(artists, ArtistIs(t.artistId)) == 1)
  }

  ghost predicate Consistent(lib: Library) {
    AlbumsAgree(lib.albums, lib.tracks) && ArtistsAgree(lib.artists, lib.tracks)
  }

  function AlbumRows(m: map<string, AlbumBuilder>): seq<Album> { Map(AlbumRow, Rows(m)) }

  function ArtistRows(m: map<string, ArtistBuilder>): seq<Artist> { Map(ArtistRow, Rows(m)) }

  lemma AlbumRowsOnce(m: map<string, AlbumBuilder>, id: string)
    requires forall k :: k in m ==> m[k].id == k
    ensures Count(SortBy(AlbumRows(m), AlbumLeq), AlbumIs(id)) == if id in m then 1 else 0
  {
    CountPermuted(SortBy(AlbumRows(m), AlbumLeq), AlbumRows(m), AlbumIs(id));
    OneRowEach(AlbumRows(m), m.Keys, (a: Album) => a.id, id, AlbumIs(id));
  }

  lemma ArtistRowsOnce(m: map<string, ArtistBuilder>, id: string)
    requires forall k :: k in m ==> m[k].id == k
    ensures Count(SortBy(ArtistRows(m), ArtistLeq), ArtistIs(id)) == if id in m then 1 else 0
  {
    CountPermuted(SortBy(ArtistRows(m), ArtistLeq), ArtistRows(m), ArtistIs(id));
    OneRowEach(ArtistRows(m), m.Keys, (a: Artist) => a.id, id, ArtistIs(id));
  }

  lemma SortedMember<T>(xs: seq<T>, leq: (T, T) -> bool, x: T)
    ensures x in SortBy(xs, leq) <==> x in xs
  {
    assert x in multiset(SortBy(xs, leq)) <==> x in multiset(xs);
  }

  lemma AlbumRowFrom(m: map<string, AlbumBuilder>, a: Album)
    requires a in SortBy(AlbumRows(m), AlbumLeq)
    ensures exists k :: k in m && a == AlbumRow(m[k])
  {
    var rows := AlbumRows(m);
    SortedMember(rows, AlbumLeq, a);
    var i :| 0 <= i < |rows| && rows[i] == a;
    assert KeysInOrder(m.Keys)[i] in m;
  }

  lemma ArtistRowFrom(m: map<string, ArtistBuilder>, a: Artist)
    requires a in SortBy(ArtistRows(m), ArtistLeq)
    ensures exists k :: k in m && a == ArtistRow(m[k])
  {
    var rows := ArtistRows(m);
    SortedMember(rows, ArtistLeq, a);
    var i :| 0 <= i < |rows| && rows[i] == a;
    assert KeysInOrder(m.Keys)[i] in m;
  }

  lemma TracksHaveRows(b: Aggregates, es: seq<Entry>, tracks: seq<Track>, t: Track)
    requires Counted(b, es) && multiset(tracks) == multiset(TracksOf(es)) && t in tracks
    ensures t.albumId in b.albums && t.artistId in b.artists
  {
    assert t in multiset(TracksOf(es));
    var i :| 0 <= i < |es| && TracksOf(es)[i] == t;
    assert es[i] in es;
  }

  lemma AlbumRowIsTrue(b: Aggregates, es: seq<Entry>, tracks: seq<Track>, a: Album)
    requires Counted(b, es) && multiset(tracks) == multiset(TracksOf(es)) && a in SortBy(AlbumRows(b.albums), AlbumLeq)
    ensures a.trackCount == Count(tracks, OnAlbum(a.id))
  {
    AlbumRowFrom(b.albums, a);
    var k :| k in b.albums && a == AlbumRow(b.albums[k]);
    assert AlbumCounted(k, b.albums[k], es);
    CountPermuted(tracks, TracksOf(es), OnAlbum(k));
  }

  lemma AlbumHasOneRow(b: Aggregates, es: seq<Entry>, id: string)
    requires Counted(b, es)
    ensures Count(SortBy(AlbumRows(b.albums), AlbumLeq), AlbumIs(id)) == if id in b.albums then 1 else 0
  {
    forall k | k in b.albums ensures b.albums[k].id == k { assert AlbumCounted(k, b.albums[k], es); }
    AlbumRowsOnce(b.albums, id);
  }

  lemma AlbumsAgreeFrom(rows: seq<Album>, tracks: seq<Track>)
    requires forall a :: a in rows ==> a.trackCount == Count(tracks, OnAlbum(a.id))
    requires forall id :: Count(rows, AlbumIs(id)) <= 1
    requires forall t :: t in tracks ==> Count(rows, AlbumIs(t.albumId)) == 1
    ensures AlbumsAgree(rows, tracks)
  {
  }

  lemma AlbumsConsistent(b: Aggregates, es: seq<Entry>, tracks: seq<Track>)
    requires Counted(b, es) && multiset(tracks) == multiset(TracksOf(es))
    ensures AlbumsAgree(SortBy(AlbumRows(b.albums), AlbumLeq), tracks)
  {
    var rows := SortBy(AlbumRows(b.albums), AlbumLeq);
    forall a | a in rows ensures a.trackCount == Count(tracks, OnAlbum(a.id)) { AlbumRowIsTrue(b, es, tracks, a); }
    forall id ensures Count(rows, AlbumIs(id)) <= 1 { AlbumHasOneRow(b, es, id); }
    forall t | t in tracks ensures Count(rows, AlbumIs(t.albumId)) == 1 {
      TracksHaveRows(b, es, tracks, t);
      AlbumHasOneRow(b, es, t.albumId);
    }
    AlbumsAgreeFrom(rows, tracks);
  }

  lemma ArtistRowIsTrue(b: Aggregates, es: seq<Entry>, tracks: seq<Track>, a: Artist)
    requires Counted(b, es) && multiset(tracks) == multiset(TracksOf(es))
    requires a in SortBy(ArtistRows(b.artists), ArtistLeq)
    ensures a.trackCount == Count(tracks, ByArtist(a.id))
  {
    ArtistRowFrom(b.artists, a);
    var k :| k in b.artists && a == ArtistRow(b.artists[k]);
    assert ArtistCounted(k, b.artists[k], es);
    CountPermuted(tracks, TracksOf(es), ByArtist(k));
  }

  lemma ArtistHasOneRow(b: Aggregates, es: seq<Entry>, id: string)
    requires Counted(b, es)
    ensures Count(SortBy(ArtistRows(b.artists), ArtistLeq), ArtistIs(id)) == if id in b.artists then 1 else 0
  {
    forall k | k in b.artists ensures b.artists[k].id == k { assert ArtistCounted(k, b.artists[k], es); }
    ArtistRowsOnce(b.artists, id);
  }

  lemma ArtistsAgreeFrom(rows: seq<Artist>, tracks: seq<Track>)
    requires forall a :: a in rows ==> a.trackCount == Count(tracks, ByArtist(a.id))
    requires forall id :: Count(rows, ArtistIs(id)) <= 1
    requires forall t :: t in tracks ==> Count(rows, ArtistIs(t.artistId)) == 1
    ensures ArtistsAgree(rows, tracks)
  {
  }

  lemma ArtistsConsistent(b: Aggregates, es: seq<Entry>, tracks: seq<Track>)
    requires Counted(b, es) && multiset(tracks) == multiset(TracksOf(es))
    ensures ArtistsAgree(SortBy(ArtistRows(b.artists), ArtistLeq), tracks)
  {
    var rows := SortBy(ArtistRows(b.artists), ArtistLeq);
    forall a | a in rows ensures a.trackCount == Count(tracks, ByArtist(a.id)) { ArtistRowIsTrue(b, es, tracks, a); }
    forall id ensures Count(rows, ArtistIs(id)) <= 1 { ArtistHasOneRow(b, es, id); }
    forall t | t in tracks ensures Count(rows, ArtistIs(t.artistId)) == 1 {
      TracksHaveRows(b, es, tracks, t);
      ArtistHasOneRow(b, es, t.artistId);
    }
    ArtistsAgreeFrom(rows, tracks);
  }

  /** Finished rows of counted aggregates are consistent, whatever covers the albums were given. */
  lemma FinalizeConsistent(providerId: string, root: string, es: seq<Entry>, b: Aggregates, errors: seq<string>)
    requires Counted(b, es)
    ensures Consistent(Finalize(providerId, root, TracksOf(es), b, errors))
  {
    var tracks := SortBy(TracksOf(es), TrackLeq);
    AlbumsConsistent(b, es, tracks);
    ArtistsConsistent(b, es, tracks);
  }

  /** An artist's album count is the number of different albums it owns as album artist. */
  lemma AlbumCountIsOwned(providerId: string, root: string, es: seq<Entry>, b: Aggregates, errors: seq<string>,
        a: Artist)
    requires Counted(b, es) && a in Finalize(providerId, root, TracksOf(es), b, errors).artists
    ensures a.albumCount == |OwnedAlbums(es, a.id)|
  {
    ArtistRowFrom(b.artists, a);
    var k :| k in b.artists && a == ArtistRow(b.artists[k]);
    assert ArtistCounted(k, b.artists[k], es);
    OwnedSize(b.artists[k].albumIds, OwnedAlbums(es, k));
  }

  lemma OwnedSize(ids: seq<string>, owned: set<string>)
    requires NoDuplicates(ids) && forall id :: id in ids <==> id in owned
    ensures |ids| == |owned|
  {
    DistinctSize(ids);
    assert (set x | x in ids) == owned;
  }

  /** Finished rows are sorted, and are the rows of the aggregates and the tracks given. */
  lemma FinalizeSorts(providerId: string, root: string, tracks: seq<Track>, b: Aggregates, errors: seq<string>)
    ensures var lib := Finalize(providerId, root, tracks, b, errors);
            && Sorted(lib.tracks, TrackLeq) && Sorted(lib.albums, AlbumLeq) && Sorted(lib.artists, ArtistLeq)
            && multiset(lib.tracks) == multiset(tracks)
            && multiset(lib.albums) == multiset(AlbumRows(b.albums))
            && multiset(lib.artists) == multiset(ArtistRows(b.artists))
  {
    RowOrders();
    SortBySorted(tracks, TrackLeq);
    SortBySorted(AlbumRows(b.albums), AlbumLeq);
    SortBySorted(ArtistRows(b.artists), ArtistLeq);
  }

  lemma {:induction false} DistinctSize<T>(s: seq<T>)
    requires NoDuplicates(s)
    ensures |set x | x in s| == |s|
  {
    if s != [] {
      var front, last := s[..|s| - 1], s[|s| - 1];
      DistinctSize(front);
      assert (set x | x in s) == (set x | x in front) + {last};
      assert last !in front;
    }
  }

  // ---- Rebuilding a library track by track ------------------------------------------

  function Rebuilt(f: Track -> Entry, lib: Library): Library {
    var es := Map(f, lib.tracks);
    Finalize(lib.providerId, lib.sourceRoot, TracksOf(es), AggregateAll(es), lib.scanErrors)
  }

  lemma OneMore(f: Track -> Entry, tracks: seq<Track>, i: nat, es: seq<Entry>, e: Entry)
    requires i < |tracks| && es == Map(f, tracks[..i]) && e == f(tracks[i])
    ensures es + [e] == Map(f, tracks[..i + 1])
    ensures TracksOf(es + [e]) == TracksOf(es) + [e.track]
    ensures AggregateAll(es + [e]) == Aggregate(AggregateAll(es), e)
  {
    assert (es + [e])[..|es|] == es;
  }

  lemma RebuiltConsistent(f: Track -> Entry, lib: Library)
    ensures Consistent(Rebuilt(f, lib))
  {
    var es := Map(f, lib.tracks);
    AggregatesCounted(es);
    FinalizeConsistent(lib.providerId, lib.sourceRoot, es, AggregateAll(es), lib.scanErrors);
  }

  // ---- Rebuilding twice -------------------------------------------------------------

  ghost function AlbumIds(es: seq<Entry>): set<string> { set e | e in es :: e.track.albumId }

  ghost function ArtistIds(es: seq<Entry>): set<string> {
    (set e | e in es :: e.track.artistId) + (set e | e in es :: e.albumArtistId)
  }

  /** Albums and artists have a builder exactly when some entry names them. */
  lemma {:induction false} AggregatedIds(es: seq<Entry>)
    ensures AggregateAll(es).albums.Keys == AlbumIds(es) && AggregateAll(es).artists.Keys == ArtistIds(es)
  {
    if es != [] {
      var front, e := es[..|es| - 1], es[|es| - 1];
      AggregatedIds(front);
      assert es == front + [e];
      IdsSnoc(front, e);
      KeysAfter(AggregateAll(front), e);
    }
  }

  lemma IdsSnoc(es: seq<Entry>, e: Entry)
    ensures AlbumIds(es + [e]) == AlbumIds(es) + {e.track.albumId}
    ensures ArtistIds(es + [e]) == ArtistIds(es) + {e.track.artistId, e.albumArtistId}
  {
    assert forall x :: x in es + [e] <==> x in es || x == e;
  }

  lemma KeysAfter(b: Aggregates, e: Entry)
    ensures Aggregate(b, e).albums.Keys == b.albums.Keys + {e.track.albumId}
    ensures Aggregate(b, e).artists.Keys == b.artists.Keys + {e.track.artistId, e.albumArtistId}
  {
  }

  /** What the album rows of a library say besides their names, one pair a row. */
  ghost function AlbumCounts(lib: Library): set<(string, nat)> { set a | a in lib.albums :: (a.id, a.trackCount) }

  ghost function ArtistCounts(lib: Library): set<(string, nat, nat)> {
    set a | a in lib.artists :: (a.id, a.trackCount, a.albumCount)
  }

  ghost function AlbumFigures(es: seq<Entry>, id: string): (string, nat) { (id, Count(TracksOf(es), OnAlbum(id))) }

  ghost function ArtistFigures(es: seq<Entry>, id: string): (string, nat, nat) {
    (id, Count(TracksOf(es), ByArtist(id)), |OwnedAlbums(es, id)|)
  }

  lemma AlbumRowFigures(f: Track -> Entry, lib: Library, a: Album)
    requires a in Rebuilt(f, lib).albums
    ensures a.id in AlbumIds(Map(f, lib.tracks)) && (a.id, a.trackCount) == AlbumFigures(Map(f, lib.tracks), a.id)
  {
    var es := Map(f, lib.tracks);
    var b := AggregateAll(es);
    AggregatesCounted(es);
    AggregatedIds(es);
    AlbumRowFrom(b.albums, a);
    var k :| k in b.albums && a == AlbumRow(b.albums[k]);
    assert AlbumCounted(k, b.albums[k], es);
  }

  lemma AlbumHasRow(f: Track -> Entry, lib: Library, id: string) returns (a: Album)
    requires id in AlbumIds(Map(f, lib.tracks))
    ensures a in Rebuilt(f, lib).albums && a.id == id
  {
    var es := Map(f, lib.tracks);
    AggregatesCounted(es);
    AggregatedIds(es);
    AlbumHasOneRow(AggregateAll(es), es, id);
    var rows := Rebuilt(f, lib).albums;
    CountPositive(rows, AlbumIs(id));
    var i :| 0 <= i < |rows| && AlbumIs(id)(rows[i]);
    a := rows[i];
  }

  lemma AlbumCountsOf(f: Track -> Entry, lib: Library)
    ensures AlbumCounts(Rebuilt(f, lib)) == set id | id in AlbumIds(Map(f, lib.tracks)) ::
                                              AlbumFigures(Map(f, lib.tracks), id)
  {
    var es, rebuilt := Map(f, lib.tracks), Rebuilt(f, lib);
    forall a | a in rebuilt.albums ensures a.id in AlbumIds(es) && (a.id, a.trackCount) == AlbumFigures(es, a.id) {
      AlbumRowFigures(f, lib, a);
    }
    forall id | id in AlbumIds(es) ensures AlbumFigures(es, id) in AlbumCounts(rebuilt) {
      var a := AlbumHasRow(f, lib, id);
      AlbumRowFigures(f, lib, a);
    }
  }

  lemma ArtistRowFigures(f: Track -> Entry, lib: Library, a: Artist)
    requires a in Rebuilt(f, lib).artists
    ensures a.id in ArtistIds(Map(f, lib.tracks))
    ensures (a.id, a.trackCount, a.albumCount) == ArtistFigures(Map(f, lib.tracks), a.id)
  {
    var es := Map(f, lib.tracks);
    var b := AggregateAll(es);
    AggregatesCounted(es);
    AggregatedIds(es);
    ArtistRowFrom(b.artists, a);
    var k :| k in b.artists && a == ArtistRow(b.artists[k]);
    assert ArtistCounted(k, b.artists[k], es);
    AlbumCountIsOwned(lib.providerId, lib.sourceRoot, es, b, lib.scanErrors, a);
  }

  lemma ArtistHasRow(f: Track -> Entry, lib: Library, id: string) returns (a: Artist)
    requires id in ArtistIds(Map(f, lib.tracks))
    ensures a in Rebuilt(f, lib).artists && a.id == id
  {
    var es := Map(f, lib.tracks);
    AggregatesCounted(es);
    AggregatedIds(es);
    ArtistHasOneRow(AggregateAll(es), es, id);
    var rows := Rebuilt(f, lib).artists;
    CountPositive(rows, ArtistIs(id));
    var i :| 0 <= i < |rows| && ArtistIs(id)(rows[i]);
    a := rows[i];
  }

  lemma ArtistCountsOf(f: Track -> Entry, lib: Library)
    ensures ArtistCounts(Rebuilt(f, lib)) ==
            set id | id in ArtistIds(Map(f, lib.tracks)) :: ArtistFigures(Map(f, lib.tracks), id)
  {
    var es, rebuilt := Map(f, lib.tracks), Rebuilt(f, lib);
    forall a | a in rebuilt.artists
      ensures a.id in ArtistIds(es) && (a.id, a.trackCount, a.albumCount) == ArtistFigures(es, a.id)
    {
      ArtistRowFigures(f, lib, a);
    }
    forall id | id in ArtistIds(es) ensures ArtistFigures(es, id) in ArtistCounts(rebuilt) {
      var a := ArtistHasRow(f, lib, id);
      ArtistRowFigures(f, lib, a);
    }
  }

  lemma SameFigures(xs: seq<Entry>, ys: seq<Entry>)
    requires multiset(xs) == multiset(ys)
    ensures AlbumIds(xs) == AlbumIds(ys) && ArtistIds(xs) == ArtistIds(ys)
    ensures forall id :: AlbumFigures(xs, id) == AlbumFigures(ys, id) && ArtistFigures(xs, id) == ArtistFigures(ys, id)
  {
    forall e ensures e in xs <==> e in ys { assert e in multiset(xs) <==> e in multiset(ys); }
    MapPermuted((e: Entry) => e.track, xs, ys);
    forall id ensures AlbumFigures(xs, id) == AlbumFigures(ys, id) && ArtistFigures(xs, id) == ArtistFigures(ys, id) {
      CountPermuted(TracksOf(xs), TracksOf(ys), OnAlbum(id));
      CountPermuted(TracksOf(xs), TracksOf(ys), ByArtist(id));
      assert OwnedAlbums(xs, id) == OwnedAlbums(ys, id);
    }
  }

  /** The same tracks, the same albums and artists, and the same counts of each. */
  ghost predicate SameContents(a: Library, b: Library) {
    multiset(a.tracks) == multiset(b.tracks) && AlbumCounts(a) == AlbumCounts(b) && ArtistCounts(a) == ArtistCounts(b)
  }

  lemma SameAlbums(f: Track -> Entry, a: Library, g: Track -> Entry, b: Library)
    requires multiset(Map(f, a.tracks)) == multiset(Map(g, b.tracks))
    ensures AlbumCounts(Rebuilt(f, a)) == AlbumCounts(Rebuilt(g, b))
  {
    SameFigures(Map(f, a.tracks), Map(g, b.tracks));
    AlbumCountsOf(f, a);
    AlbumCountsOf(g, b);
  }

  lemma SameArtists(f: Track -> Entry, a: Library, g: Track -> Entry, b: Library)
    requires multiset(Map(f, a.tracks)) == multiset(Map(g, b.tracks))
    ensures ArtistCounts(Rebuilt(f, a)) == ArtistCounts(Rebuilt(g, b))
  {
    SameFigures(Map(f, a.tracks), Map(g, b.tracks));
    ArtistCountsOf(f, a);
    ArtistCountsOf(g, b);
  }

  lemma SameEntries(f: Track -> Entry, a: Library, g: Track -> Entry, b: Library)
    requires multiset(Map(f, a.tracks)) == multiset(Map(g, b.tracks))
    ensures SameContents(Rebuilt(f, a), Rebuilt(g, b))
  {
    MapPermuted((e: Entry) => e.track, Map(f, a.tracks), Map(g, b.tracks));
    SameAlbums(f, a, g, b);
    SameArtists(f, a, g, b);
  }

  /** An id that is in both libraries has the same counts in both. */
  ghost predicate AlbumsCountAlike(xs: seq<Album>, ys: seq<Album>) {
    forall x, y :: x in xs && y in ys && x.id == y.id ==> x.trackCount == y.trackCount
  }

  ghost predicate ArtistsCountAlike(xs: seq<Artist>, ys: seq<Artist>) {
    forall x, y :: x in xs && y in ys && x.id == y.id ==> x.trackCount == y.trackCount && x.albumCount == y.albumCount
  }

  ghost predicate AlbumSays(es: seq<Entry>, a: Album) { (a.id, a.trackCount) == AlbumFigures(es, a.id) }

  ghost predicate ArtistSays(es: seq<Entry>, a: Artist) {
    (a.id, a.trackCount, a.albumCount) == ArtistFigures(es, a.id)
  }

  lemma RowsSay(f: Track -> Entry, lib: Library)
    ensures forall a :: a in Rebuilt(f, lib).albums ==> AlbumSays(Map(f, lib.tracks), a)
    ensures forall a :: a in Rebuilt(f, lib).artists ==> ArtistSays(Map(f, lib.tracks), a)
  {
    var lib', es := Rebuilt(f, lib), Map(f, lib.tracks);
    forall a | a in lib'.albums ensures AlbumSays(es, a) { AlbumRowFigures(f, lib, a); }
    forall a | a in lib'.artists ensures ArtistSays(es, a) { ArtistRowFigures(f, lib, a); }
  }

  lemma SayAlike(xs: seq<Entry>, ys: seq<Entry>, a: Library, b: Library)
    requires forall id :: AlbumFigures(xs, id) == AlbumFigures(ys, id) && ArtistFigures(xs, id) == ArtistFigures(ys, id)
    requires (forall x :: x in a.albums ==> AlbumSays(xs, x)) && forall y :: y in b.albums ==> AlbumSays(ys, y)
    requires (forall x :: x in a.artists ==> ArtistSays(xs, x)) && forall y :: y in b.artists ==> ArtistSays(ys, y)
    ensures AlbumsCountAlike(a.albums, b.albums) && ArtistsCountAlike(a.artists, b.artists)
  {
    forall x, y | x in a.albums && y in b.albums && x.id == y.id ensures x.trackCount == y.trackCount {
      assert AlbumSays(xs, x) && AlbumSays(ys, y);
    }
    forall x, y | x in a.artists && y in b.artists && x.id == y.id
      ensures x.trackCount == y.trackCount && x.albumCount == y.albumCount
    {
      assert ArtistSays(xs, x) && ArtistSays(ys, y);
    }
  }

  lemma SameIdSameCounts(f: Track -> Entry, a: Library, g: Track -> Entry, b: Library)
    requires multiset(Map(f, a.tracks)) == multiset(Map(g, b.tracks))
    ensures AlbumsCountAlike(Rebuilt(f, a).albums, Rebuilt(g, b).albums)
    ensures ArtistsCountAlike(Rebuilt(f, a).artists, Rebuilt(g, b).artists)
  {
    SameFigures(Map(f, a.tracks), Map(g, b.tracks));
    RowsSay(f, a);
    RowsSay(g, b);
    SayAlike(Map(f, a.tracks), Map(g, b.tracks), Rebuilt(f, a), Rebuilt(g, b));
  }

  /** Rebuilding twice is rebuilding once when it is so for each track. */
  lemma RebuiltTwice(f: Track -> Entry, g: Track -> Entry, h: Track -> Entry, lib: Library)
    requires forall t :: t in lib.tracks ==> g(f(t).track) == h(t)
    ensures multiset(Map(g, Rebuilt(f, lib).tracks)) == multiset(Map(h, lib.tracks))
  {
    var between := TracksOf(Map(f, lib.tracks));
    MapPermuted(g, SortBy(between, TrackLeq), between);
    assert Map(g, between) == Map(h, lib.tracks) by {
      forall i | 0 <= i < |lib.tracks| ensures Map(g, between)[i] == Map(h, lib.tracks)[i] {
        assert lib.tracks[i] in lib.tracks;
        assert between[i] == f(lib.tracks[i]).track;
      }
    }
  }

  // ---- What the rows say ------------------------------------------------------------

  ghost predicate FirstOn(es: seq<Entry>, id: string, i: nat) {
    i < |es| && es[i].track.albumId == id && forall j :: 0 <= j < i ==> es[j].track.albumId != id
  }

  ghost predicate NamesArtist(e: Entry, id: string) { e.track.artistId == id || e.albumArtistId == id }

  ghost predicate FirstNaming(es: seq<Entry>, id: string, i: nat) {
    i < |es| && NamesArtist(es[i], id) && forall j :: 0 <= j < i ==> !NamesArtist(es[j], id)
  }

  /** Title, album artist and year of an album are those of its first track. */
  lemma {:induction false} AlbumColumns(es: seq<Entry>, id: string)
    requires id in AggregateAll(es).albums
    ensures exists i: nat :: FirstOn(es, id, i) && FromEntry(AggregateAll(es).albums[id], es[i])
  {
    var n := |es| - 1;
    var front := es[..n];
    if id in AggregateAll(front).albums {
      AlbumColumns(front, id);
      var i: nat :| FirstOn(front, id, i) && FromEntry(AggregateAll(front).albums[id], front[i]);
      assert forall j :: 0 <= j < n ==> es[j] == front[j];
      assert FirstOn(es, id, i);
    } else {
      AlbumTakesFirst(front, id);
      NoneOn(front, id);
      assert FirstOn(es, id, n);
    }
  }

  lemma {:induction false} NoneOn(es: seq<Entry>, id: string)
    requires FirstOf(es, id, false).None?
    ensures forall j :: 0 <= j < |es| ==> es[j].track.albumId != id
  {
    if es != [] {
      NoneOn(es[1..], id);
      assert forall j :: 0 < j < |es| ==> es[j] == es[1..][j - 1];
    }
  }

  ghost predicate FromEntry(a: AlbumBuilder, e: Entry) {
    && a.id == e.track.albumId && a.title == e.track.albumTitle
    && a.artistId == e.albumArtistId && a.artistName == e.albumArtistName && a.year == e.track.year
  }

  /** An artist is called what the first entry that names it calls it, as track artist if it is both. */
  lemma {:induction false} ArtistNames(es: seq<Entry>, id: string)
    ensures id in AggregateAll(es).artists <==> exists i :: 0 <= i < |es| && NamesArtist(es[i], id)
    ensures id in AggregateAll(es).artists ==>
              exists i: nat :: FirstNaming(es, id, i) && AggregateAll(es).artists[id].name ==
                if es[i].track.artistId == id then es[i].track.artistName else es[i].albumArtistName
  {
    if es != [] {
      var n := |es| - 1;
      var front := es[..n];
      ArtistNames(front, id);
      assert forall j :: 0 <= j < n ==> es[j] == front[j];
      if id in AggregateAll(front).artists {
        var i: nat :| FirstNaming(front, id, i) && AggregateAll(front).artists[id].name ==
                if front[i].track.artistId == id then front[i].track.artistName else front[i].albumArtistName;
        assert FirstNaming(es, id, i) && NamesArtist(es[i], id);
      } else if NamesArtist(es[n], id) {
        assert FirstNaming(es, id, n);
      }
    }
  }

  /** A finished library has the given provider, root and errors, and one row, column by column, a builder. */
  lemma FinalizeColumns(providerId: string, root: string, tracks: seq<Track>, b: Aggregates, errors: seq<string>)
    ensures var lib := Finalize(providerId, root, tracks, b, errors);
            && lib.providerId == providerId && lib.sourceRoot == root && lib.scanErrors == errors
            && (forall a :: a in lib.albums ==> exists k :: k in b.albums && SameAlbum(a, b.albums[k]))
            && (forall a :: a in lib.artists ==> exists k :: k in b.artists && SameArtist(a, b.artists[k]))
  {
    forall a | a in SortBy(AlbumRows(b.albums), AlbumLeq)
      ensures exists k :: k in b.albums && SameAlbum(a, b.albums[k])
    {
      AlbumRowFrom(b.albums, a);
      var k :| k in b.albums && a == AlbumRow(b.albums[k]);
      assert SameAlbum(a, b.albums[k]);
    }
    forall a | a in SortBy(ArtistRows(b.artists), ArtistLeq)
      ensures exists k :: k in b.artists && SameArtist(a, b.artists[k])
    {
      ArtistRowFrom(b.artists, a);
      var k :| k in b.artists && a == ArtistRow(b.artists[k]);
      assert SameArtist(a, b.artists[k]);
    }
  }

  ghost predicate SameAlbum(a: Album, b: AlbumBuilder) {
    && a.id == b.id && a.title == b.title && a.artistId == b.artistId && a.artistName == b.artistName
    && a.year == b.year && a.trackCount == b.trackCount && a.artwork == b.artwork
  }

  ghost predicate SameArtist(a: Artist, b: ArtistBuilder) {
    a.id == b.id && a.name == b.name && a.trackCount == b.trackCount && a.albumCount == |b.albumIds|
  }
}
