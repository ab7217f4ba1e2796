/** What assembling a library guarantees, whatever order its tracks arrive in. */
module LibraryAssemblyLaws {
  import opened Basics
  import opened Sorting
  import opened Counting
  import opened LibraryModel
  import opened LibraryAggregation
  import opened LibraryAssembly

  ghost predicate DistinctPaths(built: seq<BuiltTrack>) {
    forall i, j :: 0 <= i < j < |built| ==> built[i].Path() != built[j].Path()
  }

  ghost predicate DistinctReusedIds(built: seq<BuiltTrack>) {
    forall i, j :: 0 <= i < j < |built| && built[i].identity.None? && built[j].identity.None? ==>
                     built[i].entry.track.id != built[j].entry.track.id
  }

  lemma PathOrder()
    ensures Total(PathLeq) && Transitive(PathLeq)
  {
    forall a: BuiltTrack, b: BuiltTrack ensures PathLeq(a, b) || PathLeq(b, a) { StrLeqTotal(a.Path(), b.Path()); }
    forall a: BuiltTrack, b: BuiltTrack, c: BuiltTrack | PathLeq(a, b) && PathLeq(b, c) ensures PathLeq(a, c) {
      StrLeqTransitive(a.Path(), b.Path(), c.Path());
    }
  }

  /** However concurrent workers finish, the library is the same. */
  lemma OrderDoesNotMatter(stable: (string, string) -> string, scan: Scan, built: seq<BuiltTrack>)
    requires Injective(stable) && multiset(scan.built) == multiset(built) && DistinctPaths(scan.built)
    ensures Assembled(stable, scan) == Assembled(stable, scan.(built := built))
  {
    PathOrder();
    forall i, j | 0 <= i < |scan.built| && 0 <= j < |scan.built| && PathLeq(scan.built[i], scan.built[j]) &&
        PathLeq(scan.built[j], scan.built[i])
      ensures scan.built[i] == scan.built[j]
    {
      StrLeqAntisymmetric(scan.built[i].Path(), scan.built[j].Path());
    }
    SortForgetsOrder(scan.built, built, PathLeq);
  }

  // ---- Ids --------------------------------------------------------------------------

  /** An entry is its item with, for a fresh one, a new id and the stream address of that id. */
  ghost predicate EntryOf(e: Entry, item: BuiltTrack) {
    match item.identity
    case None => e == item.entry
    case Some(_) => e == Renamed(item.entry, e.track.id)
  }

  /** What the reserved set and the entries are while ids are given out. */
  ghost predicate AssignInv(a: Assigned, items: seq<BuiltTrack>, reserved: set<string>) {
    && |a.entries| == |items| && reserved <= a.reserved
    && (forall i :: 0 <= i < |items| ==> EntryOf(a.entries[i], items[i]) && a.entries[i].track.id in a.reserved)
    && (forall i :: 0 <= i < |items| && items[i].identity.Some? ==> a.entries[i].track.id !in reserved)
    && (forall i, j :: 0 <= i < j < |items| ==> a.entries[i].track.id != a.entries[j].track.id)
  }

  lemma AssignKeepsInv(stable: (string, string) -> string, a: Assigned, items: seq<BuiltTrack>, item: BuiltTrack,
        reserved: set<string>)
    requires Injective(stable) && AssignInv(a, items, reserved)
    requires item.identity.None? ==> item.entry.track.id in reserved
    requires item.identity.None? ==> forall i :: 0 <= i < |items| && items[i].identity.None? ==>
                                       items[i].entry.track.id != item.entry.track.id
    ensures AssignInv(Assign(stable, a, item), items + [item], reserved)
  {
    var after := Assign(stable, a, item);
    var n := |items|;
    assert EntryOf(after.entries[n], item);
    forall i | 0 <= i < n ensures after.entries[i].track.id != after.entries[n].track.id {
      assert EntryOf(a.entries[i], items[i]);
    }
  }

  lemma {:induction false} AssignAllInv(stable: (string, string) -> string, items: seq<BuiltTrack>,
        reserved: set<string>)
    requires Injective(stable) && DistinctReusedIds(items)
    requires forall item :: item in items && item.identity.None? ==> item.entry.track.id in reserved
    ensures AssignInv(AssignAll(stable, items, reserved), items, reserved)
  {
    if items != [] {
      var front, item := items[..|items| - 1], items[|items| - 1];
      assert items == front + [item] && item in items;
      AssignAllInv(stable, front, reserved);
      forall i | 0 <= i < |front| && front[i].identity.None? && item.identity.None?
        ensures front[i].entry.track.id != item.entry.track.id
      {
        assert items[i] == front[i];
      }
      AssignKeepsInv(stable, AssignAll(stable, front, reserved), front, item, reserved);
    }
  }

  lemma DistinctSurvivesSorting(built: seq<BuiltTrack>)
    requires DistinctReusedIds(built)
    ensures DistinctReusedIds(SortBy(built, PathLeq))
  {
    var items := SortBy(built, PathLeq);
    forall i, j | 0 <= i < j < |items| && items[i].identity.None? && items[j].identity.None?
      ensures items[i].entry.track.id != items[j].entry.track.id
    {
      var id := items[j].entry.track.id;
      var p := (item: BuiltTrack) => item.identity.None? && item.entry.track.id == id;
      AtMostOne(built, p);
      CountPermuted(items, built, p);
      if items[i].entry.track.id == id { AtLeastTwo(items, i, j, p); }
    }
  }

  lemma {:induction false} AtMostOne<T>(xs: seq<T>, p: T -> bool)
    requires forall i, j :: 0 <= i < j < |xs| ==> !(p(xs[i]) && p(xs[j]))
    ensures Count(xs, p) <= 1
  {
    if xs != [] {
      AtMostOne(xs[..|xs| - 1], p);
      CountPositive(xs[..|xs| - 1], p);
    }
  }

  lemma {:induction false} AtLeastTwo<T>(xs: seq<T>, i: nat, j: nat, p: T -> bool)
    requires i < j < |xs| && p(xs[i]) && p(xs[j])
    ensures Count(xs, p) >= 2
  {
    if j < |xs| - 1 {
      AtLeastTwo(xs[..|xs| - 1], i, j, p);
    } else {
      assert xs[..j][i] == xs[i];
      CountPositive(xs[..j], p);
    }
  }

  ghost predicate DistinctIds(tracks: seq<Track>) {
    forall i, j :: 0 <= i < j < |tracks| ==> tracks[i].id != tracks[j].id
  }

  function HasId(id: string): Track -> bool { (t: Track) => t.id == id }

  lemma DistinctIdsPermuted(a: seq<Track>, b: seq<Track>)
    requires multiset(a) == multiset(b) && DistinctIds(a)
    ensures DistinctIds(b)
  {
    forall i, j | 0 <= i < j < |b| ensures b[i].id != b[j].id {
      var p := HasId(b[j].id);
      AtMostOne(a, p);
      CountPermuted(a, b, p);
      if b[i].id == b[j].id { AtLeastTwo(b, i, j, p); }
    }
  }

  lemma EntriesAssigned(stable: (string, string) -> string, built: seq<BuiltTrack>)
    requires Injective(stable) && DistinctReusedIds(built)
    ensures var items, es := SortBy(built, PathLeq), Entries(stable, built);
            |es| == |items| && (forall i :: 0 <= i < |es| ==> EntryOf(es[i], items[i])) && DistinctIds(TracksOf(es))
  {
    var items := SortBy(built, PathLeq);
    DistinctSurvivesSorting(built);
    AssignAllInv(stable, items, ReusedIds(items));
  }

  /** Distinct reused ids stay what they were, and every track has an id of its own. */
  lemma IdsAreKeptAndDistinct(stable: (string, string) -> string, scan: Scan)
    requires Injective(stable) && DistinctReusedIds(scan.built)
    ensures |Assembled(stable, scan).tracks| == |scan.built| && DistinctIds(Assembled(stable, scan).tracks)
    ensures forall item :: item in scan.built && item.identity.None? ==>
              item.entry.track in Assembled(stable, scan).tracks
  {
    var entries := Entries(stable, scan.built);
    EntriesAssigned(stable, scan.built);
    DistinctIdsPermuted(TracksOf(entries), SortBy(TracksOf(entries), TrackLeq));
    forall item | item in scan.built && item.identity.None?
      ensures item.entry.track in SortBy(TracksOf(entries), TrackLeq)
    {
      ReusedIsKept(SortBy(scan.built, PathLeq), entries, item) by { SortedMember(scan.built, PathLeq, item); }
      SortedMember(TracksOf(entries), TrackLeq, item.entry.track);
    }
  }

  lemma ReusedIsKept(items: seq<BuiltTrack>, es: seq<Entry>, item: BuiltTrack)
    requires |es| == |items| && forall i :: 0 <= i < |es| ==> EntryOf(es[i], items[i])
    requires item in items && item.identity.None?
    ensures item.entry.track in TracksOf(es)
  {
    var i :| 0 <= i < |items| && items[i] == item;
    assert EntryOf(es[i], items[i]);
    assert TracksOf(es)[i] == item.entry.track;
  }

  /** A fresh track keeps its identity as its id unless a reused track or an earlier one has it. */
  lemma FreshIdIsIdentity(stable: (string, string) -> string, items: seq<BuiltTrack>, k: nat)
    requires Injective(stable) && k < |items| && items[k].identity.Some? && items[k].identity.value !in ReusedIds(items)
    ensures |AssignAll(stable, items, ReusedIds(items)).entries| == |items|
    ensures var es := AssignAll(stable, items, ReusedIds(items)).entries;
            (forall i :: 0 <= i < k ==> es[i].track.id != items[k].identity.value) ==>
                es[k].track.id == items[k].identity.value
  {
    var reserved := ReusedIds(items);
    PrefixAssigned(stable, items, reserved, k);
    PrefixAssigned(stable, items, reserved, k + 1);
    assert items[..k + 1][..k] == items[..k];
    var before, after := AssignAll(stable, items[..k], reserved), AssignAll(stable, items[..k + 1], reserved);
    assert after == Assign(stable, before, items[k]);
    ReservedAreIds(stable, items[..k], reserved);
    var es := AssignAll(stable, items, reserved).entries;
    assert forall i :: 0 <= i < k ==> es[i] == before.entries[i];
    assert es[k] == after.entries[k];
  }

  lemma {:induction false} PrefixAssigned(stable: (string, string) -> string, items: seq<BuiltTrack>,
        reserved: set<string>, k: nat)
    requires Injective(stable) && k <= |items|
    ensures |AssignAll(stable, items[..k], reserved).entries| == k
    ensures |AssignAll(stable, items, reserved).entries| == |items|
    ensures AssignAll(stable, items[..k], reserved).entries <= AssignAll(stable, items, reserved).entries
    decreases |items|
  {
    if k == |items| {
      assert items[..k] == items;
      if items != [] { PrefixAssigned(stable, items[..|items| - 1], reserved, |items| - 1); }
    } else {
      var front := items[..|items| - 1];
      PrefixAssigned(stable, front, reserved, k);
      assert front[..k] == items[..k];
    }
  }

  lemma {:induction false} ReservedAreIds(stable: (string, string) -> string, items: seq<BuiltTrack>,
        reserved: set<string>)
    requires Injective(stable)
    ensures var a := AssignAll(stable, items, reserved);
            forall id :: id in a.reserved ==>
                id in reserved || exists i :: 0 <= i < |a.entries| && a.entries[i].track.id == id
  {
    if items != [] {
      var front, item := items[..|items| - 1], items[|items| - 1];
      ReservedAreIds(stable, front, reserved);
      var before, a := AssignAll(stable, front, reserved), AssignAll(stable, items, reserved);
      forall id | id in a.reserved && id !in reserved
        ensures exists i :: 0 <= i < |a.entries| && a.entries[i].track.id == id
      {
        if id in before.reserved {
          var i :| 0 <= i < |before.entries| && before.entries[i].track.id == id;
          assert a.entries[i] == before.entries[i];
        } else {
          assert a.entries[|a.entries| - 1].track.id == id;
        }
      }
    }
  }

  // ---- Rows and covers --------------------------------------------------------------

  lemma CoversKeepCounts(b: Aggregates, es: seq<Entry>, selected: map<string, Artwork>)
    requires Counted(b, es)
    ensures Counted(b.(albums := WithCovers(b.albums, selected)), es)
  {
    forall id | id in b.albums ensures AlbumCounted(id, WithCovers(b.albums, selected)[id], es) {
      assert AlbumCounted(id, b.albums[id], es);
    }
  }

  /** Every count in an assembled library is the number of tracks that carry the id, and every artist's
      album count is the number of albums it owns. */
  lemma CountsAreTrue(stable: (string, string) -> string, scan: Scan)
    requires Injective(stable)
    ensures Consistent(Assembled(stable, scan))
    ensures forall a :: a in Assembled(stable, scan).artists ==>
              a.albumCount == |OwnedAlbums(Entries(stable, scan.built), a.id)|
  {
    var items, es := SortBy(scan.built, PathLeq), Entries(stable, scan.built);
    AggregatesCounted(es);
    var b := AggregateAll(es);
    var covered := b.(albums := WithCovers(b.albums, Selected(items, Preferred(scan.prior))));
    CoversKeepCounts(b, es, Selected(items, Preferred(scan.prior)));
    FinalizeConsistent(scan.providerId, scan.root, es, covered, scan.errors + Issues(items));
    forall a | a in Assembled(stable, scan).artists ensures a.albumCount == |OwnedAlbums(es, a.id)| {
      AlbumCountIsOwned(scan.providerId, scan.root, es, covered, scan.errors + Issues(items), a);
    }
  }

  lemma {:induction false} SelectedMeaning(items: seq<BuiltTrack>, preferred: map<string, string>)
    ensures forall item :: item in items && Wanted(preferred, item) ==>
              item.entry.track.albumId in Selected(items, preferred)
    ensures forall id :: id in Selected(items, preferred) ==>
              id in preferred && Selected(items, preferred)[id].path == preferred[id]
  {
    if items != [] {
      SelectedMeaning(items[..|items| - 1], preferred);
      assert items == items[..|items| - 1] + [items[|items| - 1]];
    }
  }

  lemma CoveredRow(albums: map<string, AlbumBuilder>, selected: map<string, Artwork>, a: Album)
    requires (forall k :: k in albums ==> albums[k].id == k)
    requires a in SortBy(AlbumRows(WithCovers(albums, selected)), AlbumLeq)
    ensures a.id in selected ==> a.artwork == Some(selected[a.id])
  {
    AlbumRowFrom(WithCovers(albums, selected), a);
  }

  /** A cover chosen for an album stays as long as any of its tracks, in whatever folder, supplies it. */
  lemma ChosenCoverStays(stable: (string, string) -> string, scan: Scan, item: BuiltTrack, a: Album)
    requires Injective(stable) && item in scan.built && Wanted(Preferred(scan.prior), item)
    requires a in Assembled(stable, scan).albums && a.id == item.entry.track.albumId
    ensures a.artwork.Some? && a.artwork.value.path == Preferred(scan.prior)[a.id]
  {
    var items, es := SortBy(scan.built, PathLeq), Entries(stable, scan.built);
    var b, selected := AggregateAll(es), Selected(items, Preferred(scan.prior));
    SortedMember(scan.built, PathLeq, item);
    SelectedMeaning(items, Preferred(scan.prior));
    forall k | k in b.albums ensures b.albums[k].id == k {
      AggregatesCounted(es);
      assert AlbumCounted(k, b.albums[k], es);
    }
    CoveredRow(b.albums, selected, a);
  }

  /** Tracks are numbered and covers are chosen in the order of their paths. */
  lemma ItemsInPathOrder(built: seq<BuiltTrack>, i: nat, j: nat)
    requires i < j < |built|
    ensures var items := SortBy(built, PathLeq);
            multiset(items) == multiset(built) && |items| == |built| &&
            StrLeq(items[i].entry.track.relativePath, items[j].entry.track.relativePath)
  {
    PathOrder();
    SortBySorted(built, PathLeq);
  }

  /** A fresh track is streamed from the address of the id it gets, and nothing else in it changes. */
  lemma FreshEntry(stable: (string, string) -> string, a: Assigned, item: BuiltTrack)
    requires Injective(stable) && item.identity.Some?
    ensures var e := Assign(stable, a, item).entries[|a.entries|];
            && e.track == item.entry.track.(id := e.track.id, streamUrl := "/api/tracks/" + e.track.id + "/stream")
            && e.albumArtistId == item.entry.albumArtistId && e.albumArtistName == item.entry.albumArtistName
            && e.artworkPath == item.entry.artworkPath && e.artworkRevision == item.entry.artworkRevision
  {
  }
}
