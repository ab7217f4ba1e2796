/** Merging the libraries of several sources. */
module LibraryMerge {
  import opened Sorting
  import opened Counting
  import opened Mapping
  import opened LibraryModel
  import opened LibraryAggregation
  import opened LibraryAssemblyLaws
  import opened FreshIds
  import Decimal

  predicate LibraryLeq(a: Library, b: Library) {
    if a.providerId != b.providerId then StrLeq(a.providerId, b.providerId) else StrLeq(a.sourceRoot, b.sourceRoot)
  }

  // ---- Ids --------------------------------------------------------------------------

  function Suffixed(base: string, n: nat): string { base + "-" + Decimal.ToString(n) }

  lemma SuffixesDiffer(base: string, i: nat, j: nat)
    requires Suffixed(base, i) == Suffixed(base, j)
    ensures i == j
  {
    assert Suffixed(base, i)[|base| + 1..] == Decimal.ToString(i) &&
              Suffixed(base, j)[|base| + 1..] == Decimal.ToString(j);
    Decimal.Injective(i, j);
  }

  function Suffixes(base: string): nat -> string { (n: nat) => Suffixed(base, n) }

  lemma SuffixesDistinct(base: string)
    ensures Distinct(Suffixes(base))
  {
    forall i, j | Suffixes(base)(i) == Suffixes(base)(j) ensures i == j { SuffixesDiffer(base, i, j); }
  }

  /** A track keeps its id unless an earlier one has it; then it gets the first free suffix from two on. */
  ghost function Distinguished(t: Track, seen: set<string>): (r: Track)
    ensures r.id !in seen
  {
    if t.id !in seen then t
    else
      SuffixesDistinct(t.id);
      var id := Suffixed(t.id, FirstFree(Suffixes(t.id), 2, seen));
      t.(id := id, streamUrl := StreamUrl(id))
  }

  method Distinguish(t: Track, seen: set<string>) returns (r: Track)
    ensures r == Distinguished(t, seen)
  {
    if t.id !in seen { return t; }
    var suffix := 2;
    SuffixesDistinct(t.id);
    var candidate := t.id + "-" + Decimal.ToString(suffix);
    while candidate in seen
      invariant suffix >= 2 && candidate == Suffixed(t.id, suffix)
      invariant forall k: nat :: 2 <= k < suffix ==> Suffixes(t.id)(k) in seen
      decreases Ahead(Suffixes(t.id), suffix, seen)
    {
      AheadShrinks(Suffixes(t.id), suffix, seen);
      suffix := suffix + 1;
      candidate := t.id + "-" + Decimal.ToString(suffix);
    }
    assert candidate == Suffixes(t.id)(suffix);
    assert FirstFree(Suffixes(t.id), 2, seen) == suffix;
    r := t.(streamUrl := "/api/tracks/" + candidate + "/stream", id := candidate);
  }

  /** Tracks with the ids they get, in order, after those already seen. */
  ghost function AllDistinguished(tracks: seq<Track>): seq<Track> {
    if tracks == [] then []
    else
      var front := AllDistinguished(tracks[..|tracks| - 1]);
      front + [Distinguished(tracks[|tracks| - 1], Ids(front))]
  }

  function Ids(tracks: seq<Track>): set<string> { set t | t in tracks :: t.id }

  // ---- Rows -------------------------------------------------------------------------

  /** How rows of a kind are keyed and counted. */
  datatype Kind<!R> = Kind(id: R -> string, count: R -> nat, withCount: (R, nat) -> R)

  ghost predicate Lawful<R(!new)>(k: Kind<R>) {
    forall r, n :: k.id(k.withCount(r, n)) == k.id(r) && k.count(k.withCount(r, n)) == n
  }

  function Added<R>(k: Kind<R>, m: map<string, R>, row: R): map<string, R> {
    if k.id(row) in m then m[k.id(row) := k.withCount(m[k.id(row)], k.count(m[k.id(row)]) + k.count(row))]
        else m[k.id(row) := row]
  }

  /** The first row of an id stays, with the counts of the others added. */
  function Union<R>(k: Kind<R>, rows: seq<R>): map<string, R> {
    if rows == [] then map[] else Added(k, Union(k, rows[..|rows| - 1]), rows[|rows| - 1])
  }

  method AddRows<R>(k: Kind<R>, m: map<string, R>, rows: seq<R>, ghost before: seq<R>) returns (r: map<string, R>)
    requires m == Union(k, before)
    ensures r == Union(k, before + rows)
  {
    r := m;
    assert before + rows[..0] == before;
    for i := 0 to |rows|
      invariant r == Union(k, before + rows[..i])
    {
      var row := rows[i];
      r := if k.id(row) in r then r[k.id(row) := k.withCount(r[k.id(row)], k.count(r[k.id(row)]) + k.count(row))]
             else r[k.id(row) := row];
      assert (before + rows[..i + 1])[..|before| + i] == before + rows[..i];
    }
    assert rows[..|rows|] == rows;
  }

  function SumAt<R>(k: Kind<R>, rows: seq<R>, id: string): nat {
    if rows == [] then 0
        else SumAt(k, rows[..|rows| - 1], id) + if k.id(rows[|rows| - 1]) == id then k.count(rows[|rows| - 1]) else 0
  }

  function HasKey<R>(k: Kind<R>, id: string): R -> bool { (r: R) => k.id(r) == id }

  /** A merged row counts what all its sources count. */
  lemma {:induction false} UnionCounts<R(!new)>(k: Kind<R>, rows: seq<R>, id: string)
    requires Lawful(k)
    ensures var m := Union(k, rows);
            && (id in m <==> Count(rows, HasKey(k, id)) > 0)
            && (id in m ==> k.id(m[id]) == id && k.count(m[id]) == SumAt(k, rows, id))
            && (id !in m ==> SumAt(k, rows, id) == 0)
  {
    if rows != [] {
      UnionCounts(k, rows[..|rows| - 1], id);
    }
  }

  lemma {:induction false} SumConcat<R>(k: Kind<R>, a: seq<R>, b: seq<R>, id: string)
    ensures SumAt(k, a + b, id) == SumAt(k, a, id) + SumAt(k, b, id)
  {
    if b == [] {
      assert a + b == a;
    } else {
      SumConcat(k, a, b[..|b| - 1], id);
      assert (a + b)[..|a + b| - 1] == a + b[..|b| - 1];
    }
  }

  /** When an id has at most one row, the sum is that row's count. */
  lemma {:induction false} SumOfOne<R>(k: Kind<R>, rows: seq<R>, id: string, n: nat)
    requires Count(rows, HasKey(k, id)) <= 1
    requires forall r :: r in rows && k.id(r) == id ==> k.count(r) == n
    ensures SumAt(k, rows, id) == if Count(rows, HasKey(k, id)) == 1 then n else 0
  {
    if rows != [] {
      var front, last := rows[..|rows| - 1], rows[|rows| - 1];
      assert last in rows && forall r :: r in front ==> r in rows;
      SumOfOne(k, front, id, n);
    }
  }

  // ---- Merging ----------------------------------------------------------------------

  function AlbumKind(): Kind<Album> {
    Kind((a: Album) => a.id, (a: Album) => a.trackCount, (a: Album, n: nat) => a.(trackCount := n))
  }

  function ArtistKind(): Kind<Artist> {
    Kind((a: Artist) => a.id, (a: Artist) => a.trackCount, (a: Artist, n: nat) => a.(trackCount := n))
  }

  function AllTracks(libs: seq<Library>): seq<Track> {
    if libs == [] then [] else AllTracks(libs[..|libs| - 1]) + libs[|libs| - 1].tracks
  }

  function AllAlbums(libs: seq<Library>): seq<Album> {
    if libs == [] then [] else AllAlbums(libs[..|libs| - 1]) + libs[|libs| - 1].albums
  }

  function AllArtists(libs: seq<Library>): seq<Artist> {
    if libs == [] then [] else AllArtists(libs[..|libs| - 1]) + libs[|libs| - 1].artists
  }

  function AllErrors(libs: seq<Library>): seq<string> {
    if libs == [] then [] else AllErrors(libs[..|libs| - 1]) + libs[|libs| - 1].scanErrors
  }

  function Roots(libs: seq<Library>): seq<string> {
    if libs == [] then [] else Roots(libs[..|libs| - 1]) + [libs[|libs| - 1].sourceRoot]
  }

  function Join(parts: seq<string>): string {
    if parts == [] then "" else if |parts| == 1 then parts[0]
                                  else Join(parts[..|parts| - 1]) + ", " + parts[|parts| - 1]
  }

  function OwnedBy(artistId: string): Album -> bool { (a: Album) => a.artistId == artistId }

  function WithAlbumCount(albums: seq<Album>): Artist -> Artist {
    (a: Artist) => a.(albumCount := Count(albums, OwnedBy(a.id)))
  }

  function FinishedMerge(roots: seq<string>, artists: map<string, Artist>, albums: map<string, Album>,
        tracks: seq<Track>, errors: seq<string>): Library {
    Library("musicata-merged", Join(roots),
            SortBy(Map(WithAlbumCount(Rows(albums)), Rows(artists)), ArtistLeq),
            SortBy(Rows(albums), AlbumLeq),
            SortBy(tracks, TrackLeq), errors)
  }

  ghost function Merged(libraries: seq<Library>): Library {
    var libs := SortBy(libraries, LibraryLeq);
    if |libs| == 1 then libs[0]
    else FinishedMerge(Roots(libs), Union(ArtistKind(), AllArtists(libs)), Union(AlbumKind(), AllAlbums(libs)),
        AllDistinguished(AllTracks(libs)), AllErrors(libs))
  }

  lemma DistinguishedSnoc(tracks: seq<Track>, t: Track)
    ensures AllDistinguished(tracks + [t]) ==
              AllDistinguished(tracks) + [Distinguished(t, Ids(AllDistinguished(tracks)))]
  {
    assert (tracks + [t])[..|tracks|] == tracks;
  }

  lemma IdsSnoc(tracks: seq<Track>, t: Track)
    ensures Ids(tracks + [t]) == Ids(tracks) + {t.id}
  {
    assert forall x :: x in tracks + [t] <==> x in tracks || x == t;
  }

  lemma OneMoreTrack(before: seq<Track>, tracks: seq<Track>, i: nat)
    requires i < |tracks|
    ensures AllDistinguished(before + tracks[..i + 1]) ==
            AllDistinguished(before + tracks[..i]) +
                [Distinguished(tracks[i], Ids(AllDistinguished(before + tracks[..i])))]
  {
    DistinguishedSnoc(before + tracks[..i], tracks[i]);
    assert before + tracks[..i + 1] == (before + tracks[..i]) + [tracks[i]];
  }

  method AddTracks(tracks: seq<Track>, seen: set<string>, added: seq<Track>,
        ghost before: seq<Track>) returns (r: seq<Track>, after: set<string>)
    requires added == AllDistinguished(before) && seen == Ids(added)
    ensures r == AllDistinguished(before + tracks) && after == Ids(r)
  {
    r, after := added, seen;
    assert before + tracks[..0] == before;
    for i := 0 to |tracks|
      invariant r == AllDistinguished(before + tracks[..i]) && after == Ids(r)
    {
      var t := Distinguish(tracks[i], after);
      OneMoreTrack(before, tracks, i);
      IdsSnoc(r, t);
      r, after := r + [t], after + {t.id};
    }
    assert tracks[..|tracks|] == tracks;
  }

  /** How many albums each artist owns. */
  method CountAlbums(albums: seq<Album>) returns (counts: map<string, nat>)
    ensures forall id :: (if id in counts then counts[id] else 0) == Count(albums, OwnedBy(id))
  {
    counts := map[];
    for i := 0 to |albums|
      invariant forall id :: (if id in counts then counts[id] else 0) == Count(albums[..i], OwnedBy(id))
    {
      var owner := albums[i].artistId;
      counts := counts[owner := (if owner in counts then counts[owner] else 0) + 1];
      assert albums[..i + 1][..i] == albums[..i];
    }
    assert albums[..|albums|] == albums;
  }

  /** Every artist row gets the number of albums it owns. */
  method SetAlbumCounts(artists: seq<Artist>, albums: seq<Album>) returns (rows: seq<Artist>)
    ensures rows == Map(WithAlbumCount(albums), artists)
  {
    var counts := CountAlbums(albums);
    rows := artists;
    ghost var f := WithAlbumCount(albums);
    for i := 0 to |artists|
      invariant |rows| == |artists| && rows[i..] == artists[i..]
      invariant forall j :: 0 <= j < i ==> rows[j] == f(artists[j])
    {
      assert rows[i] == rows[i..][0] == artists[i];
      var row := rows[i].(albumCount := if rows[i].id in counts then counts[rows[i].id] else 0);
      assert row == f(artists[i]);
      rows := rows[i := row];
    }
  }

  method FinishMerge(roots: seq<string>, artists: map<string, Artist>, albums: map<string, Album>,
        tracks: seq<Track>, errors: seq<string>) returns (r: Library)
    ensures r == FinishedMerge(roots, artists, albums, tracks, errors)
  {
    var rows := SetAlbumCounts(Rows(artists), Rows(albums));
    r := Library("musicata-merged", Join(roots), SortBy(rows, ArtistLeq), SortBy(Rows(albums), AlbumLeq),
        SortBy(tracks, TrackLeq), errors);
  }

  ghost predicate MergedUpTo(libs: seq<Library>, roots: seq<string>, errors: seq<string>,
        artists: map<string, Artist>, albums: map<string, Album>, tracks: seq<Track>) {
    && roots == Roots(libs) && errors == AllErrors(libs)
    && artists == Union(ArtistKind(), AllArtists(libs)) && albums == Union(AlbumKind(), AllAlbums(libs))
    && tracks == AllDistinguished(AllTracks(libs))
  }

  lemma MergedNext(libs: seq<Library>, i: nat)
    requires i < |libs|
    ensures Roots(libs[..i + 1]) == Roots(libs[..i]) + [libs[i].sourceRoot]
    ensures AllErrors(libs[..i + 1]) == AllErrors(libs[..i]) + libs[i].scanErrors
    ensures AllArtists(libs[..i + 1]) == AllArtists(libs[..i]) + libs[i].artists
    ensures AllAlbums(libs[..i + 1]) == AllAlbums(libs[..i]) + libs[i].albums
    ensures AllTracks(libs[..i + 1]) == AllTracks(libs[..i]) + libs[i].tracks
  {
    assert libs[..i + 1][..i] == libs[..i];
  }

  method MergeLibraries(libraries: seq<Library>) returns (r: Library)
    ensures r == Merged(libraries)
  {
    var libs := SortBy(libraries, LibraryLeq);
    if |libs| == 1 { return libs[0]; }
    var tracks: seq<Track>, seen: set<string> := [], {};
    var artists: map<string, Artist>, albums: map<string, Album> := map[], map[];
    var errors: seq<string>, roots: seq<string> := [], [];
    for i := 0 to |libs|
      invariant MergedUpTo(libs[..i], roots, errors, artists, albums, tracks) && seen == Ids(tracks)
    {
      MergedNext(libs, i);
      roots := roots + [libs[i].sourceRoot];
      errors := errors + libs[i].scanErrors;
      artists := AddRows(ArtistKind(), artists, libs[i].artists, AllArtists(libs[..i]));
      albums := AddRows(AlbumKind(), albums, libs[i].albums, AllAlbums(libs[..i]));
      tracks, seen := AddTracks(libs[i].tracks, seen, tracks, AllTracks(libs[..i]));
    }
    assert libs[..|libs|] == libs;
    r := FinishMerge(roots, artists, albums, tracks, errors);
  }

  // ---- What merging keeps -----------------------------------------------------------

  ghost predicate DistinctSources(libs: seq<Library>) {
    forall i, j :: 0 <= i < j < |libs| ==>
        (libs[i].providerId, libs[i].sourceRoot) != (libs[j].providerId, libs[j].sourceRoot)
  }

  lemma LibraryOrder()
    ensures Total(LibraryLeq) && Transitive(LibraryLeq)
  {
    forall a: Library, b: Library ensures LibraryLeq(a, b) || LibraryLeq(b, a) {
      StrLeqTotal(a.providerId, b.providerId);
      StrLeqTotal(a.sourceRoot, b.sourceRoot);
    }
    forall a: Library, b: Library, c: Library | LibraryLeq(a, b) && LibraryLeq(b, c)
      ensures LibraryLeq(a, c)
    {
      LibraryLeqTransitive(a, b, c);
    }
  }

  lemma LibraryLeqTransitive(a: Library, b: Library, c: Library)
    requires LibraryLeq(a, b) && LibraryLeq(b, c)
    ensures LibraryLeq(a, c)
  {
    if a.providerId == b.providerId && b.providerId == c.providerId {
      StrLeqTransitive(a.sourceRoot, b.sourceRoot, c.sourceRoot);
    } else {
      StrLeqTotal(a.providerId, a.providerId);
      if a.providerId != b.providerId && b.providerId != c.providerId {
        StrLeqTransitive(a.providerId, b.providerId, c.providerId);
        if a.providerId == c.providerId { StrLeqAntisymmetric(a.providerId, b.providerId); }
      }
    }
  }

  /** The order in which the sources are listed does not matter. */
  lemma SourceOrderDoesNotMatter(a: seq<Library>, b: seq<Library>)
    requires multiset(a) == multiset(b) && DistinctSources(a)
    ensures Merged(a) == Merged(b)
  {
    LibraryOrder();
    forall i, j | 0 <= i < |a| && 0 <= j < |a| && LibraryLeq(a[i], a[j]) && LibraryLeq(a[j], a[i])
      ensures a[i] == a[j]
    {
      if a[i].providerId != a[j].providerId { StrLeqAntisymmetric(a[i].providerId, a[j].providerId); }
      StrLeqAntisymmetric(a[i].sourceRoot, a[j].sourceRoot);
    }
    SortForgetsOrder(a, b, LibraryLeq);
  }

  function Unnamed(t: Track): Track { t.(id := "", streamUrl := "") }

  /** Everything but the id is kept. */
  lemma {:induction false} DistinguishedRest(tracks: seq<Track>)
    ensures |AllDistinguished(tracks)| == |tracks|
    ensures forall i :: 0 <= i < |tracks| ==> Unnamed(AllDistinguished(tracks)[i]) == Unnamed(tracks[i])
  {
    if tracks != [] { DistinguishedRest(tracks[..|tracks| - 1]); }
  }

  lemma {:induction false} DistinguishedDistinct(tracks: seq<Track>)
    ensures DistinctIds(AllDistinguished(tracks))
  {
    if tracks != [] {
      var front := AllDistinguished(tracks[..|tracks| - 1]);
      DistinguishedDistinct(tracks[..|tracks| - 1]);
      assert forall i :: 0 <= i < |front| ==> front[i] in front;
    }
  }

  /** A track keeps its id, and so everything, when no track before it ended up with that id. */
  lemma {:induction false} FreeIdIsKept(tracks: seq<Track>, k: nat)
    requires k < |tracks| && |AllDistinguished(tracks)| == |tracks|
    requires forall j :: 0 <= j < k ==> AllDistinguished(tracks)[j].id != tracks[k].id
    ensures AllDistinguished(tracks)[k] == tracks[k]
    decreases |tracks|
  {
    var front := tracks[..|tracks| - 1];
    DistinguishedRest(front);
    var r, f := AllDistinguished(tracks), AllDistinguished(front);
    assert forall j :: 0 <= j < |f| ==> r[j] == f[j];
    if k < |front| {
      FreeIdIsKept(front, k);
    } else {
      forall t | t in f ensures t.id != tracks[k].id {
        var j :| 0 <= j < |f| && f[j] == t;
      }
    }
  }

  /** Merging two or more libraries, or none, loses no track and gives every track an id of its own. */
  lemma NoTrackIsLost(libraries: seq<Library>)
    requires |libraries| != 1
    ensures DistinctIds(Merged(libraries).tracks)
    ensures multiset(Map(Unnamed, Merged(libraries).tracks)) ==
              multiset(Map(Unnamed, AllTracks(SortBy(libraries, LibraryLeq))))
  {
    var all := AllTracks(SortBy(libraries, LibraryLeq));
    var r := AllDistinguished(all);
    DistinguishedDistinct(all);
    DistinctIdsPermuted(r, SortBy(r, TrackLeq));
    MapPermuted(Unnamed, SortBy(r, TrackLeq), r);
    NamesOnlyChange(all);
  }

  lemma NamesOnlyChange(all: seq<Track>)
    ensures Map(Unnamed, AllDistinguished(all)) == Map(Unnamed, all)
  {
    DistinguishedRest(all);
    forall i | 0 <= i < |all| ensures Map(Unnamed, AllDistinguished(all))[i] == Map(Unnamed, all)[i] {}
  }

  // ---- Counts -----------------------------------------------------------------------

  lemma Kinds()
    ensures Lawful(AlbumKind()) && Lawful(ArtistKind())
  {
  }

  ghost predicate AllConsistent(libs: seq<Library>) { forall lib :: lib in libs ==> Consistent(lib) }

  lemma OneLibraryAlbums(lib: Library, id: string)
    requires AlbumsAgree(lib.albums, lib.tracks)
    ensures SumAt(AlbumKind(), lib.albums, id) == Count(lib.tracks, OnAlbum(id))
  {
    CountSame(lib.albums, AlbumIs(id), lib.albums, HasKey(AlbumKind(), id));
    SumOfOne(AlbumKind(), lib.albums, id, Count(lib.tracks, OnAlbum(id)));
    if Count(lib.albums, AlbumIs(id)) != 1 { NoTrackWithout(lib.albums, AlbumIs(id), lib.tracks, OnAlbum(id)); }
  }

  lemma OneLibraryArtists(lib: Library, id: string)
    requires ArtistsAgree(lib.artists, lib.tracks)
    ensures SumAt(ArtistKind(), lib.artists, id) == Count(lib.tracks, ByArtist(id))
  {
    CountSame(lib.artists, ArtistIs(id), lib.artists, HasKey(ArtistKind(), id));
    SumOfOne(ArtistKind(), lib.artists, id, Count(lib.tracks, ByArtist(id)));
    if Count(lib.artists, ArtistIs(id)) != 1 { NoTrackWithout(lib.artists, ArtistIs(id), lib.tracks, ByArtist(id)); }
  }

  lemma NoTrackWithout<R>(rows: seq<R>, isId: R -> bool, tracks: seq<Track>, carries: Track -> bool)
    requires forall t :: t in tracks && carries(t) ==> Count(rows, isId) == 1
    requires Count(rows, isId) != 1
    ensures Count(tracks, carries) == 0
  {
    CountPositive(tracks, carries);
    forall i | 0 <= i < |tracks| ensures !carries(tracks[i]) { assert tracks[i] in tracks; }
  }

  lemma {:induction false} SumsAreCounts(libs: seq<Library>, id: string)
    requires AllConsistent(libs)
    ensures SumAt(AlbumKind(), AllAlbums(libs), id) == Count(AllTracks(libs), OnAlbum(id))
    ensures SumAt(ArtistKind(), AllArtists(libs), id) == Count(AllTracks(libs), ByArtist(id))
  {
    if libs != [] {
      var front, last := libs[..|libs| - 1], libs[|libs| - 1];
      assert last in libs && forall lib :: lib in front ==> lib in libs;
      SumsAreCounts(front, id);
      OneLibraryAlbums(last, id);
      OneLibraryArtists(last, id);
      SumConcat(AlbumKind(), AllAlbums(front), last.albums, id);
      SumConcat(ArtistKind(), AllArtists(front), last.artists, id);
      CountConcat(AllTracks(front), last.tracks, OnAlbum(id));
      CountConcat(AllTracks(front), last.tracks, ByArtist(id));
    }
  }

  /** Rows of a kind agree with the tracks that carry their ids. */
  ghost predicate RowsAgree<R>(k: Kind<R>, rows: seq<R>, tracks: seq<Track>, carries: string -> (Track -> bool)) {
    && (forall r :: r in rows ==> k.count(r) == Count(tracks, carries(k.id(r))))
    && (forall id :: OnceIfCarried(k, rows, tracks, carries, id))
  }

  ghost predicate OnceIfCarried<R>(k: Kind<R>, rows: seq<R>, tracks: seq<Track>, carries: string -> (Track -> bool),
        id: string) {
    Count(rows, HasKey(k, id)) <= 1 && (Count(tracks, carries(id)) > 0 ==> Count(rows, HasKey(k, id)) == 1)
  }

  lemma UnionRowOnce<R(!new)>(k: Kind<R>, all: seq<R>, id: string)
    requires Lawful(k)
    ensures Count(Rows(Union(k, all)), HasKey(k, id)) == if id in Union(k, all) then 1 else 0
  {
    var m := Union(k, all);
    forall i | 0 <= i < |Rows(m)| ensures k.id(Rows(m)[i]) == KeysInOrder(m.Keys)[i] {
      UnionCounts(k, all, KeysInOrder(m.Keys)[i]);
    }
    OneRowEach(Rows(m), m.Keys, k.id, id, HasKey(k, id));
  }

  lemma UnionAgrees<R(!new)>(k: Kind<R>, all: seq<R>, tracks: seq<Track>, carries: string -> (Track -> bool))
    requires Lawful(k) && forall id :: SumAt(k, all, id) == Count(tracks, carries(id))
    ensures RowsAgree(k, Rows(Union(k, all)), tracks, carries)
  {
    var m := Union(k, all);
    forall r | r in Rows(m) ensures k.count(r) == Count(tracks, carries(k.id(r))) {
      var i :| 0 <= i < |Rows(m)| && Rows(m)[i] == r;
      UnionCounts(k, all, KeysInOrder(m.Keys)[i]);
      assert SumAt(k, all, k.id(r)) == Count(tracks, carries(k.id(r)));
    }
    forall id ensures OnceIfCarried(k, Rows(m), tracks, carries, id) {
      UnionRowOnce(k, all, id);
      UnionCounts(k, all, id);
      assert SumAt(k, all, id) == Count(tracks, carries(id));
    }
  }

  /** Rows that differ only in other columns, in any order, agree as well. */
  lemma RowsStillAgree<R>(k: Kind<R>, rows: seq<R>, f: R -> R, sorted: seq<R>, tracks: seq<Track>,
        carries: string -> (Track -> bool))
    requires RowsAgree(k, rows, tracks, carries) && multiset(sorted) == multiset(Map(f, rows))
    requires forall r :: r in rows ==> k.id(f(r)) == k.id(r) && k.count(f(r)) == k.count(r)
    ensures RowsAgree(k, sorted, tracks, carries)
  {
    var changed := Map(f, rows);
    forall r | r in sorted ensures k.count(r) == Count(tracks, carries(k.id(r))) {
      assert r in multiset(changed);
      var i :| 0 <= i < |changed| && changed[i] == r;
      assert rows[i] in rows;
    }
    forall id ensures OnceIfCarried(k, sorted, tracks, carries, id) {
      assert OnceIfCarried(k, rows, tracks, carries, id);
      assert forall i :: 0 <= i < |rows| ==> rows[i] in rows;
      CountSame(rows, HasKey(k, id), changed, HasKey(k, id));
      CountPermuted(sorted, changed, HasKey(k, id));
    }
  }

  function OnAlbums(): string -> (Track -> bool) { (id: string) => OnAlbum(id) }

  function ByArtists(): string -> (Track -> bool) { (id: string) => ByArtist(id) }

  lemma AlbumRowsAgree(albums: seq<Album>, tracks: seq<Track>)
    requires RowsAgree(AlbumKind(), albums, tracks, OnAlbums())
    ensures AlbumsAgree(albums, tracks)
  {
    forall id
      ensures Count(albums, AlbumIs(id)) <= 1 && (Count(tracks, OnAlbum(id)) > 0 ==> Count(albums, AlbumIs(id)) == 1)
    {
      assert OnceIfCarried(AlbumKind(), albums, tracks, OnAlbums(), id);
      CountSame(albums, AlbumIs(id), albums, HasKey(AlbumKind(), id));
    }
    forall t | t in tracks ensures Count(tracks, OnAlbum(t.albumId)) > 0 { Carried(tracks, t, OnAlbum(t.albumId)); }
    forall a | a in albums ensures a.trackCount == Count(tracks, OnAlbum(a.id)) {
      assert AlbumKind().count(a) == Count(tracks, OnAlbums()(AlbumKind().id(a)));
    }
  }

  lemma ArtistRowsAgree(artists: seq<Artist>, tracks: seq<Track>)
    requires RowsAgree(ArtistKind(), artists, tracks, ByArtists())
    ensures ArtistsAgree(artists, tracks)
  {
    forall id
      ensures Count(artists, ArtistIs(id)) <= 1 &&
                (Count(tracks, ByArtist(id)) > 0 ==> Count(artists, ArtistIs(id)) == 1)
    {
      assert OnceIfCarried(ArtistKind(), artists, tracks, ByArtists(), id);
      CountSame(artists, ArtistIs(id), artists, HasKey(ArtistKind(), id));
    }
    forall t | t in tracks ensures Count(tracks, ByArtist(t.artistId)) > 0 { Carried(tracks, t, ByArtist(t.artistId)); }
    forall a | a in artists ensures a.trackCount == Count(tracks, ByArtist(a.id)) {
      assert ArtistKind().count(a) == Count(tracks, ByArtists()(ArtistKind().id(a)));
    }
  }

  lemma Carried(tracks: seq<Track>, t: Track, p: Track -> bool)
    requires t in tracks && p(t)
    ensures Count(tracks, p) > 0
  {
    var i :| 0 <= i < |tracks| && tracks[i] == t;
    CountPositive(tracks, p);
  }

  lemma TracksKeepTheirRows(tracks: seq<Track>, merged: seq<Track>, id: string)
    requires multiset(merged) == multiset(AllDistinguished(tracks))
    ensures Count(merged, OnAlbum(id)) == Count(tracks, OnAlbum(id))
    ensures Count(merged, ByArtist(id)) == Count(tracks, ByArtist(id))
  {
    DistinguishedRest(tracks);
    var r := AllDistinguished(tracks);
    CountPermuted(merged, r, OnAlbum(id));
    CountPermuted(merged, r, ByArtist(id));
    forall i | 0 <= i < |r| ensures r[i].albumId == tracks[i].albumId && r[i].artistId == tracks[i].artistId {
      assert Unnamed(r[i]) == Unnamed(tracks[i]);
    }
    CountSame(r, OnAlbum(id), tracks, OnAlbum(id));
    CountSame(r, ByArtist(id), tracks, ByArtist(id));
  }

  lemma MergedAlbumsAgree(libs: seq<Library>, tracks: seq<Track>)
    requires AllConsistent(libs) && multiset(tracks) == multiset(AllDistinguished(AllTracks(libs)))
    ensures AlbumsAgree(SortBy(Rows(Union(AlbumKind(), AllAlbums(libs))), AlbumLeq), tracks)
  {
    Kinds();
    var k, all := AlbumKind(), AllAlbums(libs);
    var rows := Rows(Union(k, all));
    forall id ensures SumAt(k, all, id) == Count(tracks, OnAlbums()(id)) {
      SumsAreCounts(libs, id);
      TracksKeepTheirRows(AllTracks(libs), tracks, id);
    }
    UnionAgrees(k, all, tracks, OnAlbums());
    assert Map((a: Album) => a, rows) == rows;
    RowsStillAgree(k, rows, (a: Album) => a, SortBy(rows, AlbumLeq), tracks, OnAlbums());
    AlbumRowsAgree(SortBy(rows, AlbumLeq), tracks);
  }

  lemma MergedArtistsAgree(libs: seq<Library>, albums: seq<Album>, tracks: seq<Track>)
    requires AllConsistent(libs) && multiset(tracks) == multiset(AllDistinguished(AllTracks(libs)))
    ensures ArtistsAgree(SortBy(Map(WithAlbumCount(albums), Rows(Union(ArtistKind(), AllArtists(libs)))), ArtistLeq),
              tracks)
  {
    Kinds();
    var k, all := ArtistKind(), AllArtists(libs);
    var rows := Rows(Union(k, all));
    forall id ensures SumAt(k, all, id) == Count(tracks, ByArtists()(id)) {
      SumsAreCounts(libs, id);
      TracksKeepTheirRows(AllTracks(libs), tracks, id);
    }
    UnionAgrees(k, all, tracks, ByArtists());
    var sorted := SortBy(Map(WithAlbumCount(albums), rows), ArtistLeq);
    RowsStillAgree(k, rows, WithAlbumCount(albums), sorted, tracks, ByArtists());
    ArtistRowsAgree(sorted, tracks);
  }

  lemma SortedConsistent(libraries: seq<Library>)
    requires AllConsistent(libraries)
    ensures AllConsistent(SortBy(libraries, LibraryLeq))
  {
    forall lib | lib in SortBy(libraries, LibraryLeq)
      ensures Consistent(lib)
    {
      SortedMember(libraries, LibraryLeq, lib);
    }
  }

  /** When every count in each source is true, every count in the merged library is: an album or artist
      that several sources have counts the tracks of all of them. */
  lemma MergedCountsAreTrue(libraries: seq<Library>)
    requires AllConsistent(libraries)
    ensures Consistent(Merged(libraries))
  {
    SortedConsistent(libraries);
    var libs := SortBy(libraries, LibraryLeq);
    if |libs| == 1 {
      assert libs[0] in libs;
    } else {
      var tracks := SortBy(AllDistinguished(AllTracks(libs)), TrackLeq);
      MergedAlbumsAgree(libs, tracks);
      MergedArtistsAgree(libs, Rows(Union(AlbumKind(), AllAlbums(libs))), tracks);
    }
  }

  /** An album that several sources have is counted once for its artist. */
  lemma AlbumsAreCountedOnce(libraries: seq<Library>, a: Artist)
    requires |libraries| != 1 && a in Merged(libraries).artists
    ensures a.albumCount == Count(Merged(libraries).albums, OwnedBy(a.id))
    ensures forall id :: Count(Merged(libraries).albums, HasKey(AlbumKind(), id)) <= 1
  {
    var libs := SortBy(libraries, LibraryLeq);
    var artists, albums := Rows(Union(ArtistKind(), AllArtists(libs))), Rows(Union(AlbumKind(), AllAlbums(libs)));
    CountedOnce(artists, albums, a);
    Kinds();
    forall id ensures Count(SortBy(albums, AlbumLeq), HasKey(AlbumKind(), id)) <= 1 {
      UnionRowOnce(AlbumKind(), AllAlbums(libs), id);
      CountPermuted(SortBy(albums, AlbumLeq), albums, HasKey(AlbumKind(), id));
    }
  }

  lemma CountedOnce(artists: seq<Artist>, albums: seq<Album>, a: Artist)
    requires a in SortBy(Map(WithAlbumCount(albums), artists), ArtistLeq)
    ensures a.albumCount == Count(SortBy(albums, AlbumLeq), OwnedBy(a.id))
  {
    var rows := Map(WithAlbumCount(albums), artists);
    SortedMember(rows, ArtistLeq, a);
    var i :| 0 <= i < |rows| && rows[i] == a;
    CountPermuted(SortBy(albums, AlbumLeq), albums, OwnedBy(a.id));
  }

  // ---- Which row and which order ----------------------------------------------------

  ghost predicate FirstRow<R>(rows: seq<R>, id: R -> string, key: string, i: nat) {
    i < |rows| && id(rows[i]) == key && forall j :: 0 <= j < i ==> id(rows[j]) != key
  }

  lemma {:induction false} UnionFirst<R(!new)>(k: Kind<R>, rows: seq<R>, key: string)
    requires Lawful(k) && (forall r, n, m :: k.withCount(k.withCount(r, n), m) == k.withCount(r, m))
    requires forall r :: k.withCount(r, k.count(r)) == r
    ensures key in Union(k, rows) ==>
              exists i: nat :: FirstRow(rows, k.id, key, i) &&
                  Union(k, rows)[key] == k.withCount(rows[i], k.count(Union(k, rows)[key]))
  {
    if rows != [] {
      var n := |rows| - 1;
      var front := rows[..n];
      UnionFirst(k, front, key);
      UnionCounts(k, front, key);
      assert forall j :: 0 <= j < n ==> rows[j] == front[j];
      if key in Union(k, front) {
        var i: nat :| FirstRow(front, k.id, key, i) &&
            Union(k, front)[key] == k.withCount(front[i], k.count(Union(k, front)[key]));
        assert FirstRow(rows, k.id, key, i);
      } else if key in Union(k, rows) {
        CountPositive(front, HasKey(k, key));
        forall j | 0 <= j < n ensures k.id(rows[j]) != key { assert !HasKey(k, key)(front[j]); }
        assert FirstRow(rows, k.id, key, n);
      }
    }
  }

  ghost predicate FirstAlbum(rows: seq<Album>, id: string, i: nat) {
    i < |rows| && rows[i].id == id && forall j :: 0 <= j < i ==> rows[j].id != id
  }

  ghost predicate FirstArtist(rows: seq<Artist>, id: string, i: nat) {
    i < |rows| && rows[i].id == id && forall j :: 0 <= j < i ==> rows[j].id != id
  }

  /** A merged album is the first source's row of it, with only the count of tracks of all. */
  lemma MergedAlbum(rows: seq<Album>, id: string) returns (i: nat)
    requires id in Union(AlbumKind(), rows)
    ensures FirstAlbum(rows, id, i)
    ensures var a := Union(AlbumKind(), rows)[id];
            && a.id == id && a.title == rows[i].title && a.artistId == rows[i].artistId
            && a.artistName == rows[i].artistName && a.year == rows[i].year && a.artwork == rows[i].artwork
  {
    var k := AlbumKind();
    Kinds();
    UnionFirst(k, rows, id);
    i :| FirstRow(rows, k.id, id, i) && Union(k, rows)[id] == k.withCount(rows[i], k.count(Union(k, rows)[id]));
    forall j | 0 <= j < i ensures rows[j].id != id { assert k.id(rows[j]) != id; }
  }

  /** A merged artist has the first source's name for it. */
  lemma MergedArtist(rows: seq<Artist>, id: string) returns (i: nat)
    requires id in Union(ArtistKind(), rows)
    ensures FirstArtist(rows, id, i)
    ensures Union(ArtistKind(), rows)[id].name == rows[i].name && Union(ArtistKind(), rows)[id].id == id
  {
    var k := ArtistKind();
    Kinds();
    UnionFirst(k, rows, id);
    i :| FirstRow(rows, k.id, id, i) && Union(k, rows)[id] == k.withCount(rows[i], k.count(Union(k, rows)[id]));
    forall j | 0 <= j < i ensures rows[j].id != id { assert k.id(rows[j]) != id; }
  }

  /** Sources come in the order of their providers, and of their roots within one provider. */
  lemma SourceOrder(a: Library, b: Library)
    ensures LibraryLeq(a, b) <==> ByColumns([Strings(a.providerId, b.providerId), Strings(a.sourceRoot, b.sourceRoot)])
  {
    StringsEqual(a.providerId, b.providerId);
    StringsEqual(a.sourceRoot, b.sourceRoot);
    var columns := [Strings(a.providerId, b.providerId), Strings(a.sourceRoot, b.sourceRoot)];
    assert columns[0..] == columns;
    DecidedFrom(columns, 0);
    DecidedFrom(columns, 1);
    DecidedFrom(columns, 2);
  }
}
