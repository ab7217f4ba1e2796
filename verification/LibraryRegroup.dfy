/** Regrouping a library under metadata overrides and artist aliases, from what was observed. */
module LibraryRegroup {
  import opened Basics
  import opened Mapping
  import opened LibraryModel
  import opened LibraryAggregation

  datatype Override = Override(
    title: Option<string>,
    artistName: Option<string>,
    albumTitle: Option<string>,
    albumArtistName: Option<string>,
    year: Option<nat>,
    trackNumber: Option<nat>,
    discNumber: Option<nat>)

  const EMBEDDED: string := "embedded_tag"
  const FOLDER: string := "folder_path"

  function Find(observed: seq<Observation>, source: string): Option<Observation> {
    if observed == [] then None else if observed[0].source == source then Some(observed[0])
                                       else Find(observed[1..], source)
  }

  function Or<T>(a: Option<T>, b: Option<T>): Option<T> { if a.Some? then a else b }

  /** A field of an observation that may be missing. */
  function Field<T>(o: Option<Observation>, f: Observation -> Option<T>): Option<T> {
    if o.Some? then f(o.value) else None
  }

  /** Embedded tags before the folder path, and the current value when neither says anything. */
  function Restored(t: Track): Track {
    var e, f := Find(t.observed, EMBEDDED), Find(t.observed, FOLDER);
    t.(title := Or(Field(e, (o: Observation) => o.title), Field(f, (o: Observation) => o.title)).GetOr(t.title),
       artistName := Or(Field(e, (o: Observation) => o.artistName),
           Field(f, (o: Observation) => o.artistName)).GetOr(t.artistName),
       albumTitle := Or(Field(e, (o: Observation) => o.albumTitle),
           Field(f, (o: Observation) => o.albumTitle)).GetOr(t.albumTitle),
       year := Or(Or(Field(e, (o: Observation) => o.year), Field(f, (o: Observation) => o.year)), t.year),
       trackNumber := Or(Or(Field(e, (o: Observation) => o.trackNumber), Field(f, (o: Observation) => o.trackNumber)),
           t.trackNumber),
       discNumber := Or(Or(Field(e, (o: Observation) => o.discNumber), Field(f, (o: Observation) => o.discNumber)),
           t.discNumber))
  }

  function Overridden(t: Track, o: Option<Override>): Track {
    match o
    case None => t
    case Some(o) =>
      t.(title := o.title.GetOr(t.title), artistName := o.artistName.GetOr(t.artistName),
         albumTitle := o.albumTitle.GetOr(t.albumTitle), year := Or(o.year, t.year),
         trackNumber := Or(o.trackNumber, t.trackNumber), discNumber := Or(o.discNumber, t.discNumber))
  }

  function ObservedAlbumArtist(observed: seq<Observation>): Option<string> {
    Or(Field(Find(observed, EMBEDDED), (o: Observation) => o.albumArtistName),
        Field(Find(observed, FOLDER), (o: Observation) => o.albumArtistName))
  }

  /** The override, the observation, the track's artist; the old album's artist only for a track with
      neither tags nor folder observation. */
  function AlbumArtist(t: Track, o: Option<Override>, oldArtist: Option<string>): string {
    var overridden := if o.Some? then o.value.albumArtistName else None;
    var known := Find(t.observed, EMBEDDED).Some? || Find(t.observed, FOLDER).Some?;
    Or(Or(overridden, ObservedAlbumArtist(t.observed)), if known then Some(t.artistName)
                                                          else oldArtist).GetOr(t.artistName)
  }

  function Aliased(n: Naming, aliases: map<string, string>, name: string): string {
    if n.nameKey(name) in aliases then aliases[n.nameKey(name)] else name
  }

  /** The first non-empty MusicBrainz id of a kind. */
  function FirstMbid(observed: seq<Observation>, f: Observation -> Option<string>): Option<string> {
    if observed == [] then None
    else if f(observed[0]).Some? && f(observed[0]).value != "" then f(observed[0])
    else FirstMbid(observed[1..], f)
  }

  function ArtistMbid(observed: seq<Observation>): Option<string> {
    FirstMbid(observed, (o: Observation) => o.artistMbid)
  }

  function AlbumArtistMbid(observed: seq<Observation>): Option<string> {
    FirstMbid(observed, (o: Observation) => o.releaseArtistMbid)
  }

  /** A track and its album artist with the ids its names and MusicBrainz ids derive. */
  function WithIds(n: Naming, t: Track, albumArtist: string): Entry {
    var mbid := AlbumArtistMbid(t.observed);
    Entry(t.(artistId := ArtistIdentity(n, t.artistName, ArtistMbid(t.observed)),
        albumId := AlbumIdentity(n, albumArtist, t.albumTitle, mbid)),
          ArtistIdentity(n, albumArtist, mbid), albumArtist, None, None)
  }

  function RegroupEntry(n: Naming, t: Track, o: Option<Override>, aliases: map<string, string>,
        oldArtist: Option<string>): Entry {
    var shown := Overridden(Restored(t), o);
    var albumArtist := Aliased(n, aliases, AlbumArtist(shown, o, oldArtist));
    WithIds(n, shown.(artistName := Aliased(n, aliases, shown.artistName)), albumArtist)
  }

  function OldArtists(albums: seq<Album>): map<string, string> {
    if albums == [] then map[]
        else OldArtists(albums[..|albums| - 1])[albums[|albums| - 1].id := albums[|albums| - 1].artistName]
  }

  datatype Curation = Curation(overrides: map<string, Override>, aliases: map<string, string>)

  function Regrouping(n: Naming, c: Curation, oldArtists: map<string, string>): Track -> Entry {
    (t: Track) => RegroupEntry(n, t, Lookup(c.overrides, t.id), c.aliases, Lookup(oldArtists, t.albumId))
  }

  function Regrouped(n: Naming, lib: Library, c: Curation): Library {
    Rebuilt(Regrouping(n, c, OldArtists(lib.albums)), lib)
  }

  method RegroupTrack(n: Naming, t: Track, c: Curation, oldArtists: map<string, string>) returns (e: Entry)
    ensures e == RegroupEntry(n, t, Lookup(c.overrides, t.id), c.aliases, Lookup(oldArtists, t.albumId))
  {
    var track := Restored(t);
    var override_ := Lookup(c.overrides, t.id);
    if override_.Some? {
      var o := override_.value;
      if o.title.Some? { track := track.(title := o.title.value); }
      if o.artistName.Some? { track := track.(artistName := o.artistName.value); }
      if o.albumTitle.Some? { track := track.(albumTitle := o.albumTitle.value); }
      if o.year.Some? { track := track.(year := o.year); }
      if o.trackNumber.Some? { track := track.(trackNumber := o.trackNumber); }
      if o.discNumber.Some? { track := track.(discNumber := o.discNumber); }
    }
    assert track == Overridden(Restored(t), override_);
    var albumArtist := AlbumArtist(track, override_, Lookup(oldArtists, t.albumId));
    if n.nameKey(track.artistName) in c.aliases {
      track := track.(artistName := c.aliases[n.nameKey(track.artistName)]);
    }
    if n.nameKey(albumArtist) in c.aliases { albumArtist := c.aliases[n.nameKey(albumArtist)]; }
    e := WithIds(n, track, albumArtist);
  }

  method RegroupLibrary(n: Naming, lib: Library, c: Curation) returns (r: Library)
    ensures r == Regrouped(n, lib, c)
  {
    var oldArtists := OldArtists(lib.albums);
    ghost var f := Regrouping(n, c, oldArtists);
    var builders := new Builders();
    var tracks: seq<Track> := [];
    ghost var es: seq<Entry> := [];
    for i := 0 to |lib.tracks|
      invariant es == Map(f, lib.tracks[..i]) && tracks == TracksOf(es) && builders.View() == AggregateAll(es)
      invariant fresh(builders)
    {
      var e := RegroupTrack(n, lib.tracks[i], c, oldArtists);
      builders.AggregateTrack(e);
      tracks := tracks + [e.track];
      OneMore(f, lib.tracks, i, es, e);
      es := es + [e];
    }
    assert lib.tracks[..|lib.tracks|] == lib.tracks;
    r := Finalize(lib.providerId, lib.sourceRoot, tracks, builders.View(), lib.scanErrors);
  }

  // ---- What a track shows -----------------------------------------------------------

  /** Observation `i` is the first of its source. */
  ghost predicate FirstSaid(observed: seq<Observation>, source: string, i: nat) {
    i < |observed| && observed[i].source == source && forall j :: 0 <= j < i ==> observed[j].source != source
  }

  lemma {:induction false} FindMeaning(observed: seq<Observation>, source: string)
    ensures Find(observed, source).Some? <==> exists i: nat :: FirstSaid(observed, source, i)
    ensures forall i: nat :: FirstSaid(observed, source, i) ==> Find(observed, source) == Some(observed[i])
  {
    if observed != [] {
      var rest := observed[1..];
      FindMeaning(rest, source);
      assert forall j :: 0 < j < |observed| ==> observed[j] == rest[j - 1];
      assert forall j :: 0 <= j < |rest| ==> rest[j] == observed[j + 1];
      if observed[0].source == source {
        assert FirstSaid(observed, source, 0);
      } else {
        forall i: nat | FirstSaid(rest, source, i) ensures FirstSaid(observed, source, i + 1) {}
        forall i: nat | FirstSaid(observed, source, i) ensures i > 0 && FirstSaid(rest, source, i - 1) {}
      }
    }
  }

  /** The override if it says something, then the embedded tags, then the folder, then what was shown before. */
  ghost predicate FirstToSay<T(!new)>(shown: T, override_: Option<T>, tag: Option<T>, folder: Option<T>, before: T) {
    if override_.Some? then shown == override_.value
    else if tag.Some? then shown == tag.value
    else if folder.Some? then shown == folder.value
    else shown == before
  }

  ghost predicate FirstToSayNumber(shown: Option<nat>, override_: Option<nat>, tag: Option<nat>, folder: Option<nat>,
        before: Option<nat>) {
    if override_.Some? then shown == override_
    else if tag.Some? then shown == tag
    else if folder.Some? then shown == folder
    else shown == before
  }

  const SILENT: Observation := Observation("", None, None, None, None, None, None, None, None, None)

  const UNCHANGED: Override := Override(None, None, None, None, None, None, None)

  /** Each field on its own; the artist's name then goes through the aliases, and nothing else does. */
  lemma ShownFields(n: Naming, t: Track, o: Option<Override>, aliases: map<string, string>, oldArtist: Option<string>,
        name: string)
    ensures var e := RegroupEntry(n, t, o, aliases, oldArtist).track;
            var (w, tag, folder) := (o.GetOr(UNCHANGED), Find(t.observed, "embedded_tag").GetOr(SILENT),
                                     Find(t.observed, "folder_path").GetOr(SILENT));
            && FirstToSay(e.title, w.title, tag.title, folder.title, t.title)
            && FirstToSay(e.albumTitle, w.albumTitle, tag.albumTitle, folder.albumTitle, t.albumTitle)
            && (FirstToSay(name, w.artistName, tag.artistName, folder.artistName, t.artistName) ==>
                  e.artistName == if n.nameKey(name) in aliases then aliases[n.nameKey(name)] else name)
  {
  }

  /** So with the numbers; what identifies the track stays. */
  lemma ShownNumbers(n: Naming, t: Track, o: Option<Override>, aliases: map<string, string>, oldArtist: Option<string>)
    ensures var e := RegroupEntry(n, t, o, aliases, oldArtist).track;
            var (w, tag, folder) := (o.GetOr(UNCHANGED), Find(t.observed, "embedded_tag").GetOr(SILENT),
                                     Find(t.observed, "folder_path").GetOr(SILENT));
            && FirstToSayNumber(e.year, w.year, tag.year, folder.year, t.year)
            && FirstToSayNumber(e.trackNumber, w.trackNumber, tag.trackNumber, folder.trackNumber, t.trackNumber)
            && FirstToSayNumber(e.discNumber, w.discNumber, tag.discNumber, folder.discNumber, t.discNumber)
            && e.id == t.id && e.observed == t.observed && e.relativePath == t.relativePath
            && e.providerId == t.providerId && e.streamUrl == t.streamUrl
  {
  }

  /** The album artist: the override's, then the observed one, then the track's own artist when the track
      was observed at all, and only otherwise that of its old album. Its alias is looked up too. */
  lemma ShownAlbumArtist(n: Naming, t: Track, o: Option<Override>, aliases: map<string, string>,
        oldArtist: Option<string>, artist: string, name: string)
    requires var (w, tag, folder) :=
               (o.GetOr(UNCHANGED), Find(t.observed, "embedded_tag"), Find(t.observed, "folder_path"));
             && FirstToSay(artist, w.artistName, tag.GetOr(SILENT).artistName, folder.GetOr(SILENT).artistName,
                 t.artistName)
             && FirstToSay(name, w.albumArtistName, tag.GetOr(SILENT).albumArtistName,
                 folder.GetOr(SILENT).albumArtistName,
                           if tag.Some? || folder.Some? || oldArtist.None? then artist else oldArtist.value)
    ensures RegroupEntry(n, t, o, aliases, oldArtist).albumArtistName ==
              if n.nameKey(name) in aliases then aliases[n.nameKey(name)] else name
  {
  }

  /** Observation `i` is the first with such an id that is not empty. */
  ghost predicate FirstIdentified(observed: seq<Observation>, f: Observation -> Option<string>, i: nat) {
    i < |observed| && Identified(observed[i], f) && forall j :: 0 <= j < i ==> !Identified(observed[j], f)
  }

  lemma {:induction false} FirstMbidMeaning(observed: seq<Observation>, f: Observation -> Option<string>)
    ensures FirstMbid(observed, f).Some? <==> exists i :: 0 <= i < |observed| && Identified(observed[i], f)
    ensures forall i: nat :: FirstIdentified(observed, f, i) ==> FirstMbid(observed, f) == f(observed[i])
  {
    if observed != [] {
      FirstMbidMeaning(observed[1..], f);
      assert forall i :: 0 < i < |observed| ==> observed[i] == observed[1..][i - 1];
      assert forall i :: 0 <= i < |observed[1..]| ==> observed[1..][i] == observed[i + 1];
      forall i: nat | FirstIdentified(observed, f, i) ensures FirstMbid(observed, f) == f(observed[i]) {
        if i > 0 {
          assert !Identified(observed[0], f);
          assert FirstIdentified(observed[1..], f, i - 1);
        }
      }
    }
  }

  ghost predicate Identified(o: Observation, f: Observation -> Option<string>) { f(o).Some? && f(o).value != "" }

  /** The ids are those of the shown artist, of the album artist, and of the album of that artist and title. */
  lemma ShownIds(n: Naming, t: Track, o: Option<Override>, aliases: map<string, string>, oldArtist: Option<string>)
    ensures var e := RegroupEntry(n, t, o, aliases, oldArtist);
            var own := FirstMbid(t.observed, (x: Observation) => x.artistMbid);
            var release := FirstMbid(t.observed, (x: Observation) => x.releaseArtistMbid);
            && e.track.artistId == n.stable("artist", ArtistKey(n, e.track.artistName, own))
            && e.albumArtistId == n.stable("artist", ArtistKey(n, e.albumArtistName, release))
            && e.track.albumId == n.stable("album",
                ArtistKey(n, e.albumArtistName, release) + "::" + n.titleKey(e.track.albumTitle))
  {
  }

  // ---- Regrouping again -------------------------------------------------------------

  /** A folder observation that says title, artist and album, as the scanner writes. */
  predicate Scanned(t: Track) {
    var f := Find(t.observed, FOLDER);
    f.Some? && f.value.title.Some? && f.value.artistName.Some? && f.value.albumTitle.Some?
  }

  /** What an earlier regrouping did to a scanned track leaves no trace in a later one, under any aliases. */
  lemma TrackRegroupsFromObservations(n: Naming, t: Track, o: Option<Override>, a: map<string, string>,
        b: map<string, string>,
                                      first: Option<string>, second: Option<string>, direct: Option<string>)
    requires Scanned(t)
    ensures RegroupEntry(n, RegroupEntry(n, t, o, a, first).track, o, b, second) == RegroupEntry(n, t, o, b, direct)
  {
    var t1 := RegroupEntry(n, t, o, a, first).track;
    assert t1.observed == t.observed;
    assert Overridden(Restored(t1), o).(artistId := "", albumId := "") ==
              Overridden(Restored(t), o).(artistId := "", albumId := "");
  }

  /** Regrouping with one set of aliases and then another gives what regrouping with the last set alone
      gives, in tracks with their names and ids, and in albums and artists with their counts: curation
      is reversible. */
  lemma RegroupingForgets(n: Naming, lib: Library, overrides: map<string, Override>, a: map<string, string>,
        b: map<string, string>)
    requires forall t :: t in lib.tracks ==> Scanned(t)
    ensures SameContents(Regrouped(n, Regrouped(n, lib, Curation(overrides, a)), Curation(overrides, b)),
                         Regrouped(n, lib, Curation(overrides, b)))
  {
    var first := Regrouped(n, lib, Curation(overrides, a));
    SameEntriesTwice(n, lib, overrides, a, b);
    SameEntries(Regrouping(n, Curation(overrides, b), OldArtists(first.albums)), first,
                Regrouping(n, Curation(overrides, b), OldArtists(lib.albums)), lib);
  }

  function RegroupedEntries(n: Naming, lib: Library, c: Curation): seq<Entry> {
    Map(Regrouping(n, c, OldArtists(lib.albums)), lib.tracks)
  }

  lemma SameEntriesTwice(n: Naming, lib: Library, overrides: map<string, Override>, a: map<string, string>,
        b: map<string, string>)
    requires forall t :: t in lib.tracks ==> Scanned(t)
    ensures multiset(RegroupedEntries(n, Regrouped(n, lib, Curation(overrides, a)), Curation(overrides, b)))
         == multiset(RegroupedEntries(n, lib, Curation(overrides, b)))
  {
    var ca, cb := Curation(overrides, a), Curation(overrides, b);
    var first := Regrouped(n, lib, ca);
    var f, g, h := Regrouping(n, ca, OldArtists(lib.albums)), Regrouping(n, cb, OldArtists(first.albums)),
        Regrouping(n, cb, OldArtists(lib.albums));
    forall t | t in lib.tracks ensures g(f(t).track) == h(t) {
      TwiceIsOnce(n, t, overrides, a, b, OldArtists(lib.albums), OldArtists(first.albums));
    }
    RebuiltTwice(f, g, h, lib);
  }

  lemma TwiceIsOnce(n: Naming, t: Track, overrides: map<string, Override>, a: map<string, string>,
        b: map<string, string>, old1: map<string, string>, old2: map<string, string>)
    requires Scanned(t)
    ensures var (f, g, h) :=
              (Regrouping(n, Curation(overrides, a), old1), Regrouping(n, Curation(overrides, b), old2),
              Regrouping(n, Curation(overrides, b), old1));
            g(f(t).track) == h(t)
  {
    var t1 := RegroupEntry(n, t, Lookup(overrides, t.id), a, Lookup(old1, t.albumId)).track;
    assert t1.id == t.id;
    TrackRegroupsFromObservations(n, t, Lookup(overrides, t.id), a, b, Lookup(old1, t.albumId),
        Lookup(old2, t1.albumId), Lookup(old1, t.albumId));
  }

  /** Every count after a regrouping is the number of tracks that carry the id. */
  lemma RegroupedCounts(n: Naming, lib: Library, c: Curation)
    ensures Consistent(Regrouped(n, lib, c))
  {
    RebuiltConsistent(Regrouping(n, c, OldArtists(lib.albums)), lib);
  }

  /** So both ways give an id the same counts, on albums and on artists. */
  lemma RegroupingForgetsCounts(n: Naming, lib: Library, overrides: map<string, Override>, a: map<string, string>,
        b: map<string, string>)
    requires forall t :: t in lib.tracks ==> Scanned(t)
    ensures var twice := Regrouped(n, Regrouped(n, lib, Curation(overrides, a)), Curation(overrides, b));
            var once := Regrouped(n, lib, Curation(overrides, b));
            AlbumsCountAlike(twice.albums, once.albums) && ArtistsCountAlike(twice.artists, once.artists)
  {
    var first := Regrouped(n, lib, Curation(overrides, a));
    SameEntriesTwice(n, lib, overrides, a, b);
    var g, h := Regrouping(n, Curation(overrides, b), OldArtists(first.albums)),
        Regrouping(n, Curation(overrides, b), OldArtists(lib.albums));
    SameIdSameCounts(g, first, h, lib);
  }

  // ---- Against the scanner ----------------------------------------------------------

  /** What the folder path says: it never names an album artist or a disc. */
  datatype FolderMetadata = FolderMetadata(title: string, artistName: string, albumTitle: string, year: Option<nat>,
      trackNumber: Option<nat>)

  function FolderObservation(m: FolderMetadata): Observation {
    Observation(FOLDER, Some(m.title), Some(m.artistName), None, Some(m.albumTitle), m.year, m.trackNumber, None,
        None, None)
  }

  /** `build_track` for a freshly read file: canonical fields, observations and derived ids. */
  function ScanEntry(n: Naming, trim: string -> string, blank: Track, embedded: Option<Observation>,
        lyrics: Option<Observation>, folder: FolderMetadata): Entry {
    var observed := (if embedded.Some? then [embedded.value] else []) +
        (if lyrics.Some? then [lyrics.value] else []) + [FolderObservation(folder)];
    var artist := Field(embedded, (o: Observation) => o.artistName).GetOr(folder.artistName);
    var albumArtist := Field(embedded, (o: Observation) => o.albumArtistName);
    var named := if albumArtist.Some? && trim(albumArtist.value) != "" then trim(albumArtist.value) else artist;
    WithIds(n, blank.(observed := observed,
                      title := Field(embedded, (o: Observation) => o.title).GetOr(folder.title),
                      artistName := artist,
                      albumTitle := Field(embedded, (o: Observation) => o.albumTitle).GetOr(folder.albumTitle),
                      year := Or(Field(embedded, (o: Observation) => o.year), folder.year),
                      trackNumber := Or(Field(embedded, (o: Observation) => o.trackNumber), folder.trackNumber),
                      discNumber := Field(embedded, (o: Observation) => o.discNumber)), named)
  }

  /** Tag values are trimmed and never empty, and only tags call themselves tags. */
  ghost predicate Clean(trim: string -> string, embedded: Option<Observation>, lyrics: Option<Observation>) {
    && (embedded.Some? ==> embedded.value.source == EMBEDDED &&
                           (embedded.value.albumArtistName.Some? ==>
                               embedded.value.albumArtistName.value != "" &&
                               trim(embedded.value.albumArtistName.value) == embedded.value.albumArtistName.value))
    && (lyrics.Some? ==> lyrics.value.source != EMBEDDED && lyrics.value.source != FOLDER)
  }

  lemma FindScanned(embedded: Option<Observation>, lyrics: Option<Observation>, folder: FolderMetadata)
    requires embedded.Some? ==> embedded.value.source == EMBEDDED
    requires lyrics.Some? ==> lyrics.value.source != EMBEDDED && lyrics.value.source != FOLDER
    ensures var observed := (if embedded.Some? then [embedded.value] else []) +
              (if lyrics.Some? then [lyrics.value] else []) + [FolderObservation(folder)];
            Find(observed, EMBEDDED) == embedded && Find(observed, FOLDER) == Some(FolderObservation(folder))
  {
    var last := [FolderObservation(folder)];
    assert Find(last, FOLDER) == Some(FolderObservation(folder)) && Find(last[1..], EMBEDDED) == None;
    var rest := (if lyrics.Some? then [lyrics.value] else []) + last;
    if lyrics.Some? { assert rest[1..] == last; } else { assert rest == last; }
    assert Find(rest, FOLDER) == Some(FolderObservation(folder)) && Find(rest, EMBEDDED) == None;
    var observed := (if embedded.Some? then [embedded.value] else []) +
        (if lyrics.Some? then [lyrics.value] else []) + last;
    if embedded.Some? {
      assert observed[0] == embedded.value && observed[1..] == rest;
    } else {
      assert observed == rest;
    }
  }

  /** Regrouping without curation gives a scanned track exactly what the scan gave it; so it does after
      any earlier aliases. */
  lemma RegroupingIsScanning(n: Naming, trim: string -> string, blank: Track, embedded: Option<Observation>,
        lyrics: Option<Observation>, folder: FolderMetadata,
                             aliases: map<string, string>, first: Option<string>, second: Option<string>)
    requires Clean(trim, embedded, lyrics)
    ensures var scan := ScanEntry(n, trim, blank, embedded, lyrics, folder);
            && Scanned(scan.track)
            && RegroupEntry(n, scan.track, None, map[], first) == scan
            && RegroupEntry(n, RegroupEntry(n, scan.track, None, aliases, first).track, None, map[], second) == scan
  {
    FindScanned(embedded, lyrics, folder);
    var scan := ScanEntry(n, trim, blank, embedded, lyrics, folder);
    TrackRegroupsFromObservations(n, scan.track, None, aliases, map[], first, second, first);
  }

  /** A track from before observations were kept has only its current name: an alias that renamed it
      stays after the alias is gone. */
  lemma UnobservedAliasStays(n: Naming, t: Track, aliases: map<string, string>, first: Option<string>,
        second: Option<string>)
    requires Find(t.observed, EMBEDDED).None? && Find(t.observed, FOLDER).None?
    ensures RegroupEntry(n, RegroupEntry(n, t, None, aliases, first).track, None, map[], second).track.artistName ==
              t.artistName
            <==> Aliased(n, aliases, t.artistName) == t.artistName
  {
    assert RegroupEntry(n, t, None, aliases, first).track.observed == t.observed;
  }

  /** The artist of an old album is that of its last row. */
  lemma {:induction false} OldArtistsMeaning(albums: seq<Album>, id: string)
    ensures id in OldArtists(albums) <==> exists k: nat :: LastRow(albums, id, k)
    ensures forall k: nat :: LastRow(albums, id, k) ==>
              id in OldArtists(albums) && OldArtists(albums)[id] == albums[k].artistName
  {
    if albums != [] {
      var n := |albums| - 1;
      var front := albums[..n];
      OldArtistsMeaning(front, id);
      assert forall j :: 0 <= j < n ==> albums[j] == front[j];
      if albums[n].id == id {
        assert LastRow(albums, id, n);
      } else {
        forall k: nat ensures LastRow(albums, id, k) <==> LastRow(front, id, k) {}
      }
    }
  }

  ghost predicate LastRow(albums: seq<Album>, id: string, k: nat) {
    k < |albums| && albums[k].id == id && forall m :: k < m < |albums| ==> albums[m].id != id
  }
}
