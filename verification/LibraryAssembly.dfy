/** Folding scanned tracks into a library: path order, ids without collisions, album covers, aggregates. */
module LibraryAssembly {
  import opened Basics
  import opened Sorting
  import opened LibraryModel
  import opened LibraryAggregation
  import opened FreshIds
  import Decimal

  /** A built track; a reused one keeps its id and has no identity. */
  datatype BuiltTrack = BuiltTrack(entry: Entry, identity: Option<string>, issues: seq<string>) {
    function Path(): string { entry.track.relativePath }
  }

  function PathLeq(a: BuiltTrack, b: BuiltTrack): bool { StrLeq(a.Path(), b.Path()) }

  // ---- Ids --------------------------------------------------------------------------

  function CountOf(counts: map<string, nat>, identity: string): nat {
    if identity in counts then counts[identity] else 0
  }

  /** The `n`-th id to try for an identity that is taken. */
  function Candidate(stable: (string, string) -> string, identity: string, n: nat): string {
    stable("track", if n == 0 then identity else identity + "::duplicate=" + Decimal.ToString(n))
  }

  lemma CandidatesDiffer(stable: (string, string) -> string, identity: string, i: nat, j: nat)
    requires Injective(stable) && Candidate(stable, identity, i) == Candidate(stable, identity, j)
    ensures i == j
  {
    var x := if i == 0 then identity else identity + "::duplicate=" + Decimal.ToString(i);
    var y := if j == 0 then identity else identity + "::duplicate=" + Decimal.ToString(j);
    assert stable("track", x) == stable("track", y);
    assert x == y;
    if i > 0 && j > 0 {
      assert x[|identity| + 12..] == Decimal.ToString(i) && y[|identity| + 12..] == Decimal.ToString(j);
      Decimal.Injective(i, j);
    }
  }

  function Candidates(stable: (string, string) -> string, identity: string): nat -> string {
    (n: nat) => Candidate(stable, identity, n)
  }

  lemma CandidatesDistinct(stable: (string, string) -> string, identity: string)
    requires Injective(stable)
    ensures Distinct(Candidates(stable, identity))
  {
    forall i, j | Candidates(stable, identity)(i) == Candidates(stable, identity)(j) ensures i == j {
      CandidatesDiffer(stable, identity, i, j);
    }
  }

  /** The id a new entry gets, and the identity counts after it. */
  ghost function Chosen(stable: (string, string) -> string, identity: string, reserved: set<string>,
        counts: map<string, nat>): (r: (string, map<string, nat>))
    requires Injective(stable)
    ensures r.0 !in reserved && (identity !in reserved ==> r.0 == identity)
  {
    if identity !in reserved then (identity, counts)
    else
      CandidatesDistinct(stable, identity);
      var m := FirstFree(Candidates(stable, identity), CountOf(counts, identity), reserved);
      (Candidate(stable, identity, m), counts[identity := m + 1])
  }

  method ChooseId(stable: (string, string) -> string, identity: string, reserved: set<string>, counts: map<string, nat>)
    returns (id: string, after: map<string, nat>)
    requires Injective(stable)
    ensures (id, after) == Chosen(stable, identity, reserved, counts)
  {
    id, after := identity, counts;
    ghost var n, tried, candidate := CountOf(counts, identity), false, Candidates(stable, identity);
    CandidatesDistinct(stable, identity);
    while id in reserved
      invariant !tried ==> id == identity && after == counts && n == CountOf(counts, identity)
      invariant tried ==> identity in reserved && after == counts[identity := n + 1] && id == candidate(n)
      invariant CountOf(counts, identity) <= n
      invariant forall k: nat :: CountOf(counts, identity) <= k < n ==> candidate(k) in reserved
      decreases Ahead(candidate, n, reserved), !tried
    {
      if tried {
        AheadShrinks(candidate, n, reserved);
        n := n + 1;
      }
      tried := true;
      var count := CountOf(after, identity);
      id := stable("track", if count == 0 then identity else identity + "::duplicate=" + Decimal.ToString(count));
      after := after[identity := count + 1];
    }
    if tried { assert FirstFree(candidate, CountOf(counts, identity), reserved) == n; }
  }

  datatype Assigned = Assigned(entries: seq<Entry>, reserved: set<string>, counts: map<string, nat>)

  function Renamed(e: Entry, id: string): Entry { e.(track := e.track.(id := id, streamUrl := StreamUrl(id))) }

  ghost function Assign(stable: (string, string) -> string, a: Assigned, item: BuiltTrack): Assigned
    requires Injective(stable)
  {
    match item.identity
    case None => a.(entries := a.entries + [item.entry])
    case Some(identity) =>
      var (id, counts) := Chosen(stable, identity, a.reserved, a.counts);
      Assigned(a.entries + [Renamed(item.entry, id)], a.reserved + {id}, counts)
  }

  ghost function AssignAll(stable: (string, string) -> string, items: seq<BuiltTrack>, reserved: set<string>): Assigned
    requires Injective(stable)
  {
    if items == [] then Assigned([], reserved, map[])
    else Assign(stable, AssignAll(stable, items[..|items| - 1], reserved), items[|items| - 1])
  }

  function ReusedIds(items: seq<BuiltTrack>): set<string> {
    set item | item in items && item.identity.None? :: item.entry.track.id
  }

  // ---- Covers the listener chose before ---------------------------------------------

  function Preferred(albums: seq<Album>): map<string, string> {
    if albums == [] then map[]
    else
      var a := albums[|albums| - 1];
      var front := Preferred(albums[..|albums| - 1]);
      if a.artwork.Some? then front[a.id := a.artwork.value.path] else front
  }

  function Wanted(preferred: map<string, string>, item: BuiltTrack): bool {
    item.entry.artworkPath.Some? && item.entry.track.albumId in preferred &&
        preferred[item.entry.track.albumId] == item.entry.artworkPath.value
  }

  /** The first track of an album, in path order, that still supplies its preferred cover. */
  function Selected(items: seq<BuiltTrack>, preferred: map<string, string>): map<string, Artwork> {
    if items == [] then map[]
    else
      var item := items[|items| - 1];
      var front := Selected(items[..|items| - 1], preferred);
      if Wanted(preferred, item) && item.entry.track.albumId !in front
          then front[item.entry.track.albumId := CoverOf(item.entry)] else front
  }

  function WithCovers(albums: map<string, AlbumBuilder>, selected: map<string, Artwork>): map<string, AlbumBuilder> {
    map id | id in albums :: if id in selected then albums[id].(artwork := Some(selected[id])) else albums[id]
  }

  function Issues(items: seq<BuiltTrack>): seq<string> {
    if items == [] then [] else Issues(items[..|items| - 1]) + items[|items| - 1].issues
  }

  // ---- Assembly ---------------------------------------------------------------------

  datatype Scan = Scan(providerId: string, root: string, built: seq<BuiltTrack>, errors: seq<string>, prior: seq<Album>)

  ghost function Entries(stable: (string, string) -> string, built: seq<BuiltTrack>): seq<Entry>
    requires Injective(stable)
  {
    var items := SortBy(built, PathLeq);
    AssignAll(stable, items, ReusedIds(items)).entries
  }

  ghost function Assembled(stable: (string, string) -> string, scan: Scan): Library
    requires Injective(stable)
  {
    var items := SortBy(scan.built, PathLeq);
    var b := AggregateAll(Entries(stable, scan.built));
    Finalize(scan.providerId, scan.root, TracksOf(Entries(stable, scan.built)),
             b.(albums := WithCovers(b.albums, Selected(items, Preferred(scan.prior)))), scan.errors + Issues(items))
  }

  method SelectCovers(items: seq<BuiltTrack>, preferred: map<string, string>) returns (selected: map<string, Artwork>)
    ensures selected == Selected(items, preferred)
  {
    selected := map[];
    for i := 0 to |items|
      invariant selected == Selected(items[..i], preferred)
    {
      var e := items[i].entry;
      if e.artworkPath.Some? {
        if e.track.albumId in preferred && preferred[e.track.albumId] == e.artworkPath.value {
          if e.track.albumId !in selected {
            selected := selected[e.track.albumId := Artwork(e.artworkPath.value, e.artworkRevision,
                Some(e.track.providerId))];
          }
        }
      }
      assert items[..i + 1][..i] == items[..i];
    }
    assert items[..|items|] == items;
  }

  method NextEntry(stable: (string, string) -> string, item: BuiltTrack, reserved: set<string>,
        counts: map<string, nat>, ghost entries: seq<Entry>)
    returns (e: Entry, reservedAfter: set<string>, after: map<string, nat>)
    requires Injective(stable)
    ensures Assigned(entries + [e], reservedAfter, after) == Assign(stable, Assigned(entries, reserved, counts), item)
  {
    e, reservedAfter, after := item.entry, reserved, counts;
    if item.identity.Some? {
      var id;
      id, after := ChooseId(stable, item.identity.value, reserved, counts);
      reservedAfter := reserved + {id};
      e := e.(track := e.track.(streamUrl := "/api/tracks/" + id + "/stream", id := id));
    }
  }

  /** The state of the fold after some of the items. */
  ghost predicate Folded(stable: (string, string) -> string, items: seq<BuiltTrack>, reserved0: set<string>,
        errors: seq<string>, a: Assigned,
                         tracks: seq<Track>, b: Aggregates, scanErrors: seq<string>)
    requires Injective(stable)
  {
    && a == AssignAll(stable, items, reserved0)
    && tracks == TracksOf(a.entries) && b == AggregateAll(a.entries)
    && scanErrors == errors + Issues(items)
  }

  lemma FoldedNext(stable: (string, string) -> string, items: seq<BuiltTrack>, item: BuiltTrack,
        reserved0: set<string>, errors: seq<string>,
                   a: Assigned, e: Entry, reserved: set<string>, counts: map<string, nat>, tracks: seq<Track>,
                       b: Aggregates, scanErrors: seq<string>)
    requires Injective(stable) && Folded(stable, items, reserved0, errors, a, tracks, b, scanErrors)
    requires Assigned(a.entries + [e], reserved, counts) == Assign(stable, a, item)
    ensures Folded(stable, items + [item], reserved0, errors, Assigned(a.entries + [e], reserved, counts),
              tracks + [e.track], Aggregate(b, e), scanErrors + item.issues)
  {
    assert (items + [item])[..|items|] == items;
    assert (a.entries + [e])[..|a.entries|] == a.entries;
    TracksSnoc(a.entries, e);
  }

  /** Give every item its id and fold it into the builders. */
  method FoldItems(stable: (string, string) -> string, items: seq<BuiltTrack>, errors: seq<string>)
    returns (tracks: seq<Track>, builders: Builders, scanErrors: seq<string>)
    requires Injective(stable)
    ensures fresh(builders)
    ensures Folded(stable, items, ReusedIds(items), errors, AssignAll(stable, items, ReusedIds(items)), tracks,
              builders.View(), scanErrors)
  {
    builders := new Builders();
    var reserved := ReusedIds(items);
    var counts: map<string, nat> := map[];
    tracks, scanErrors := [], errors;
    ghost var entries: seq<Entry> := [];
    for i := 0 to |items|
      invariant fresh(builders)
      invariant Folded(stable, items[..i], ReusedIds(items), errors, Assigned(entries, reserved, counts), tracks,
                builders.View(), scanErrors)
    {
      ghost var a, b := Assigned(entries, reserved, counts), builders.View();
      var item := items[i];
      var e;
      e, reserved, counts := NextEntry(stable, item, reserved, counts, entries);
      FoldedNext(stable, items[..i], item, ReusedIds(items), errors, a, e, reserved, counts, tracks, b, scanErrors);
      scanErrors := scanErrors + item.issues;
      builders.AggregateTrack(e);
      tracks, entries := tracks + [e.track], entries + [e];
      assert items[..i + 1] == items[..i] + [item];
    }
    assert items[..|items|] == items;
  }

  /** Put the chosen covers in place, album by album. */
  method ApplyCovers(builders: Builders, selected: map<string, Artwork>)
    modifies builders
    ensures builders.View() == old(builders.View()).(albums := WithCovers(old(builders.albums), selected))
  {
    var left := selected.Keys;
    while left != {}
      invariant left <= selected.Keys && builders.artists == old(builders.artists)
      invariant builders.albums == WithCovers(old(builders.albums), selected - left)
      decreases |left|
    {
      var id :| id in left;
      if id in builders.albums {
        builders.albums := builders.albums[id := builders.albums[id].(artwork := Some(selected[id]))];
      }
      left := left - {id};
    }
    assert selected - {} == selected;
  }

  method AssembleLibrary(stable: (string, string) -> string, scan: Scan) returns (lib: Library)
    requires Injective(stable)
    ensures lib == Assembled(stable, scan)
  {
    var items := SortBy(scan.built, PathLeq);
    var selected := SelectCovers(items, Preferred(scan.prior));
    var tracks, builders, errors := FoldItems(stable, items, scan.errors);
    ApplyCovers(builders, selected);
    lib := Finalize(scan.providerId, scan.root, tracks, builders.View(), errors);
  }
}
