/** Which cover an album of an assembled library has. */
module LibraryCovers {
  import opened Basics
  import opened Sorting
  import opened LibraryModel
  import opened LibraryAggregation
  import opened LibraryAssembly
  import opened LibraryAssemblyLaws

  /** Row `k` is the last of the earlier rows of this album that has a cover. */
  ghost predicate LastCover(prior: seq<Album>, id: string, k: nat) {
    && k < |prior| && prior[k].id == id && prior[k].artwork.Some?
    && forall m :: k < m < |prior| && prior[m].id == id ==> prior[m].artwork.None?
  }

  lemma {:induction false} PreferredMeaning(prior: seq<Album>, id: string)
    ensures id in Preferred(prior) <==> exists k: nat :: LastCover(prior, id, k)
    ensures forall k: nat :: LastCover(prior, id, k) ==>
              id in Preferred(prior) && Preferred(prior)[id] == prior[k].artwork.value.path
  {
    if prior != [] {
      var n := |prior| - 1;
      var front := prior[..n];
      PreferredMeaning(front, id);
      if prior[n].id == id && prior[n].artwork.Some? {
        assert LastCover(prior, id, n);
        forall k: nat | LastCover(prior, id, k) ensures k == n {}
      } else {
        forall k: nat ensures LastCover(prior, id, k) <==> LastCover(front, id, k) {
          if LastCover(front, id, k) { assert front[k] == prior[k]; }
          if LastCover(prior, id, k) {
            assert front[k] == prior[k];
            forall m | k < m < |front| && front[m].id == id
              ensures front[m].artwork.None?
            {
              assert prior[m] == front[m];
            }
          }
        }
      }
    }
  }

  /** Track `i` supplies a cover of the album: this one, or any when none is named. */
  ghost predicate Supplies(item: BuiltTrack, id: string, path: Option<string>) {
    item.entry.track.albumId == id && item.entry.artworkPath.Some? && (path.Some? ==> item.entry.artworkPath == path)
  }

  ghost predicate FirstSupplier(items: seq<BuiltTrack>, id: string, path: Option<string>, i: nat) {
    i < |items| && Supplies(items[i], id, path) && forall j :: 0 <= j < i ==> !Supplies(items[j], id, path)
  }

  ghost predicate Supplied(items: seq<BuiltTrack>, id: string, path: Option<string>) {
    exists i :: 0 <= i < |items| && Supplies(items[i], id, path)
  }

  ghost function CoverFrom(item: BuiltTrack): Artwork
    requires item.entry.artworkPath.Some?
  {
    Artwork(item.entry.artworkPath.value, item.entry.artworkRevision, Some(item.entry.track.providerId))
  }

  lemma {:induction false} SelectedIsFirst(items: seq<BuiltTrack>, preferred: map<string, string>, id: string)
    ensures id in Selected(items, preferred) <==> id in preferred && Supplied(items, id, Some(preferred[id]))
    ensures id in Selected(items, preferred) ==>
              exists i: nat :: FirstSupplier(items, id, Some(preferred[id]), i) &&
                  Selected(items, preferred)[id] == CoverFrom(items[i])
  {
    if items != [] {
      var n := |items| - 1;
      var front := items[..n];
      SelectedIsFirst(front, preferred, id);
      assert forall i :: 0 <= i < n ==> items[i] == front[i];
      if id in Selected(front, preferred) {
        var i: nat :| FirstSupplier(front, id, Some(preferred[id]), i) &&
            Selected(front, preferred)[id] == CoverFrom(front[i]);
        assert FirstSupplier(items, id, Some(preferred[id]), i);
      } else if id in Selected(items, preferred) {
        assert Supplies(items[n], id, Some(preferred[id]));
        assert FirstSupplier(items, id, Some(preferred[id]), n);
      }
    }
  }

  lemma {:induction false} FirstOfIsFirst(items: seq<BuiltTrack>, es: seq<Entry>, id: string)
    requires |es| == |items| && forall i :: 0 <= i < |es| ==> EntryOf(es[i], items[i])
    ensures FirstOf(es, id, true).Some? <==> Supplied(items, id, None)
    ensures FirstOf(es, id, true).Some? ==>
              exists i: nat :: FirstSupplier(items, id, None, i) && FirstOf(es, id, true) == Some(es[i])
  {
    if items != [] {
      var rest, more := items[1..], es[1..];
      assert EntryOf(es[0], items[0]);
      forall i | 0 <= i < |more| ensures EntryOf(more[i], rest[i]) { assert EntryOf(es[i + 1], items[i + 1]); }
      FirstOfIsFirst(rest, more, id);
      assert forall i :: 0 <= i < |rest| ==> rest[i] == items[i + 1];
      assert forall i :: 0 < i < |items| ==> items[i] == rest[i - 1];
      if Supplies(items[0], id, None) {
        assert FirstSupplier(items, id, None, 0);
      } else if FirstOf(es, id, true).Some? {
        var i: nat :| FirstSupplier(rest, id, None, i) && FirstOf(more, id, true) == Some(more[i]);
        assert FirstSupplier(items, id, None, i + 1);
      }
    }
  }

  /** The cover of an album: that of its last earlier row as long as some track supplies it, with the
      revision and provider of the first, in path order, that does; or else the cover of the first track
      that has one; or else none. */
  ghost predicate CoverIs(items: seq<BuiltTrack>, prior: seq<Album>, id: string, artwork: Option<Artwork>) {
    && (forall kept: nat :: Kept(items, prior, id, kept) ==>
          FromFirst(items, id, prior[kept].artwork.value.path, artwork))
    && ((forall kept: nat :: !Kept(items, prior, id, kept)) ==>
          if Supplied(items, id, None) then FromFirstOfAny(items, id, artwork) else artwork == None)
  }

  ghost predicate Kept(items: seq<BuiltTrack>, prior: seq<Album>, id: string, k: nat) {
    LastCover(prior, id, k) && Supplied(items, id, Some(prior[k].artwork.value.path))
  }

  ghost predicate FromFirst(items: seq<BuiltTrack>, id: string, path: string, artwork: Option<Artwork>) {
    exists i: nat :: FirstSupplier(items, id, Some(path), i) && artwork == Some(CoverFrom(items[i]))
  }

  ghost predicate FromFirstOfAny(items: seq<BuiltTrack>, id: string, artwork: Option<Artwork>) {
    exists i: nat :: FirstSupplier(items, id, None, i) && artwork == Some(CoverFrom(items[i]))
  }

  lemma {:induction false} AssignedEntries(stable: (string, string) -> string, items: seq<BuiltTrack>,
        reserved: set<string>)
    requires Injective(stable)
    ensures var es := AssignAll(stable, items, reserved).entries;
            |es| == |items| && forall i :: 0 <= i < |es| ==> EntryOf(es[i], items[i])
  {
    if items != [] {
      var front, item := items[..|items| - 1], items[|items| - 1];
      AssignedEntries(stable, front, reserved);
      var before, es := AssignAll(stable, front, reserved).entries, AssignAll(stable, items, reserved).entries;
      forall i | 0 <= i < |es| ensures EntryOf(es[i], items[i]) {
        if i < |front| { assert EntryOf(before[i], front[i]); }
      }
    }
  }

  lemma RowArtwork(albums: map<string, AlbumBuilder>, selected: map<string, Artwork>, a: Album)
    requires forall k :: k in albums ==> albums[k].id == k
    requires a in SortBy(AlbumRows(WithCovers(albums, selected)), AlbumLeq)
    ensures a.id in albums && a.artwork == if a.id in selected then Some(selected[a.id]) else albums[a.id].artwork
  {
    AlbumRowFrom(WithCovers(albums, selected), a);
  }

  lemma BuildersKnowIds(es: seq<Entry>)
    ensures forall k :: k in AggregateAll(es).albums ==> AggregateAll(es).albums[k].id == k
  {
    AggregatesCounted(es);
    forall k | k in AggregateAll(es).albums ensures AggregateAll(es).albums[k].id == k {
      assert AlbumCounted(k, AggregateAll(es).albums[k], es);
    }
  }

  /** Every album of an assembled library has that cover. */
  lemma AlbumCover(stable: (string, string) -> string, scan: Scan, a: Album)
    requires Injective(stable) && a in Assembled(stable, scan).albums
    ensures CoverIs(SortBy(scan.built, PathLeq), scan.prior, a.id, a.artwork)
  {
    var items, preferred, es := SortBy(scan.built, PathLeq), Preferred(scan.prior), Entries(stable, scan.built);
    AssignedEntries(stable, items, ReusedIds(items));
    BuildersKnowIds(es);
    RowArtwork(AggregateAll(es).albums, Selected(items, preferred), a);
    CoverOfRow(items, es, scan.prior, a.id, a.artwork);
  }

  lemma CoverOfRow(items: seq<BuiltTrack>, es: seq<Entry>, prior: seq<Album>, id: string, artwork: Option<Artwork>)
    requires |es| == |items| && forall i :: 0 <= i < |es| ==> EntryOf(es[i], items[i])
    requires id in AggregateAll(es).albums
    requires var selected := Selected(items, Preferred(prior));
             artwork == if id in selected then Some(selected[id]) else AggregateAll(es).albums[id].artwork
    ensures CoverIs(items, prior, id, artwork)
  {
    PreferredMeaning(prior, id);
    SelectedIsFirst(items, Preferred(prior), id);
    AlbumTakesFirst(es, id);
    FirstOfIsFirst(items, es, id);
    if FirstOf(es, id, true).Some? {
      var i: nat :| FirstSupplier(items, id, None, i) && FirstOf(es, id, true) == Some(es[i]);
      assert EntryOf(es[i], items[i]);
      assert CoverOf(es[i]) == CoverFrom(items[i]);
    }
    if id in Selected(items, Preferred(prior)) {
      var k: nat :| LastCover(prior, id, k);
      assert Kept(items, prior, id, k);
    }
  }
}
