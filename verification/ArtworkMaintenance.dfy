/** One maintenance pass over the artwork cache, when nothing else writes to it: stale pins go, then
    automatic bytes are brought under the budget in least-recently-used order. */
module ArtworkMaintenance {
  import opened Basics
  import opened ArtworkAlias
  import opened ByteTotals
  import ArtworkPins
  import Sorting

  datatype File = Object(hash: string) | AliasAt(path: string) | PinAt(path: string) | Legacy(path: string)

  datatype Entry = Entry(len: nat, modified: nat, alias: Option<Alias>)

  type Disk = map<File, Entry>

  /** An object as the scan saw it, with the last use of its aliases. */
  datatype Seen = Seen(hash: string, lastUse: nat, modified: nat, len: nat)

  /** An ordinary alias parses, or it would be an old-format file; a pin may hold any text. */
  ghost predicate WellTyped(disk: Disk) {
    forall f :: f in disk && f.AliasAt? ==> disk[f].alias.Some?
  }

  /** A pin recorded at `at` is still remembered as recent. This clock never goes back. */
  ghost predicate FreshAt(at: nat, uptime: nat) { uptime < at + 3600 }

  /** A file time after `now` has no age: such a file is neither younger than an hour nor older. */
  ghost predicate Young(modified: nat, now: nat) { modified <= now < modified + 3600 }

  ghost predicate Stale(modified: nat, now: nat) { modified + 3600 <= now }

  /** A pin whose alias was read protects its object when its key is selected, or its age could be
      read as well and is below the grace period. */
  ghost predicate Protects(e: Entry, now: nat, pinned: set<string>, aged: bool)
    requires e.alias.Some?
  {
    e.alias.value.key in pinned || (aged && Young(e.modified, now))
  }

  ghost predicate Discardable(e: Entry, now: nat, pinned: set<string>)
    requires e.alias.Some?
  {
    e.alias.value.key !in pinned && Stale(e.modified, now)
  }

  function AliasHash(e: Entry): string { if e.alias.Some? then e.alias.value.hash else "" }

  ghost function Pins(disk: Disk): set<File> {
    set f | f in disk && f.PinAt? && disk[f].alias.Some?
  }

  /** Some pin that could be read protects this hash: `found` are the pins whose alias was read and
      `aged` those whose file time was. */
  ghost predicate IsLive(disk: Disk, now: nat, pinned: set<string>, found: set<File>, aged: set<File>, hash: string)
    requires found <= Pins(disk)
  {
    exists f :: f in found && Protects(disk[f], now, pinned, f in aged) && AliasHash(disk[f]) == hash
  }

  /** Files the budget applies to. */
  ghost function Automatic(disk: Disk, live: set<string>): set<File> {
    set f | f in disk && (f.Legacy? || f.AliasAt? || (f.Object? && f.hash !in live))
  }

  ghost function AliasesOf(disk: Disk, hash: string): set<File>
    requires WellTyped(disk)
  {
    set f | f in disk && f.AliasAt? && disk[f].alias.value.hash == hash
  }

  /** Automatic files whose bytes are still counted: an evicted object takes its aliases along. */
  ghost function Charged(disk: Disk, live: set<string>, evicted: set<string>): set<File>
    requires WellTyped(disk)
  {
    set f | f in Automatic(disk, live) && !(f.AliasAt? && disk[f].alias.value.hash in evicted)
  }

  ghost function LenOf(disk: Disk): File -> nat { f => if f in disk then disk[f].len else 0 }

  ghost predicate SameLens(disk: Disk, len: File -> nat) {
    forall f :: f in disk ==> disk[f].len == len(f)
  }

  /** No access since the aliases were written is waiting to be stored in them. */
  ghost predicate NoPendingAccess(disk: Disk, accesses: map<string, nat>)
    requires WellTyped(disk)
  {
    forall f :: f in disk && f.AliasAt? && disk[f].alias.value.hash in accesses ==>
      accesses[disk[f].alias.value.hash] <= disk[f].alias.value.lastAccess
  }

  ghost predicate RecentPinsAreLive(recent: map<string, nat>, uptime: nat, live: set<string>) {
    forall h :: h in recent && FreshAt(recent[h], uptime) ==> h in live
  }

  predicate UsedBefore(a: Seen, b: Seen) {
    a.lastUse < b.lastUse || (a.lastUse == b.lastUse && a.modified <= b.modified)
  }

  /** The last use of an object: the latest of its aliases, or none. */
  ghost predicate IsLastUse(disk: Disk, hash: string, use: nat)
    requires WellTyped(disk)
  {
    && (forall f :: f in AliasesOf(disk, hash) ==> disk[f].alias.value.lastAccess <= use)
    && (use == 0 || exists f :: f in AliasesOf(disk, hash) && disk[f].alias.value.lastAccess == use)
  }

  /** The greater of a stored use and the access waiting to be stored. */
  ghost function Later(alias: Alias, accesses: map<string, nat>): nat {
    if alias.hash in accesses && accesses[alias.hash] > alias.lastAccess then accesses[alias.hash] else alias.lastAccess
  }

  /** The last use of an object with the access that is waiting: the latest of its aliases, or none. */
  ghost predicate IsUse(disk: Disk, accesses: map<string, nat>, hash: string, use: nat)
    requires WellTyped(disk)
  {
    && (forall f :: f in AliasesOf(disk, hash) ==> Later(disk[f].alias.value, accesses) <= use)
    && (use == 0 || exists f :: f in AliasesOf(disk, hash) && Later(disk[f].alias.value, accesses) == use)
  }

  /** Every ordinary alias holds the later of its use and the access that was waiting; nothing else in it
      changed. */
  ghost predicate Stored(before: Disk, accesses: map<string, nat>, after: Disk)
    requires WellTyped(before) && WellTyped(after)
  {
    && after.Keys == before.Keys
    && forall f :: f in before && f.AliasAt? ==>
         after[f].alias.value == before[f].alias.value.(lastAccess := Later(before[f].alias.value, accesses))
  }

  lemma StoredUse(before: Disk, accesses: map<string, nat>, after: Disk, hash: string, use: nat)
    requires WellTyped(before) && WellTyped(after) && Stored(before, accesses, after)
    ensures IsLastUse(after, hash, use) ==> IsUse(before, accesses, hash, use)
  {
    assert AliasesOf(after, hash) == AliasesOf(before, hash);
    if IsLastUse(after, hash, use) && use != 0 {
      var f :| f in AliasesOf(after, hash) && after[f].alias.value.lastAccess == use;
      assert Later(before[f].alias.value, accesses) == use;
    }
  }

  /** Only stored access times, and with them lengths and file times, of ordinary aliases differ. */
  ghost predicate Retouched(before: Disk, after: Disk) {
    && after.Keys == before.Keys
    && (forall f :: f in before && !f.AliasAt? ==> after[f] == before[f])
    && (forall f :: f in before && f.AliasAt? && before[f].alias.Some? ==>
          after[f].alias.Some? && after[f].alias.value.hash == before[f].alias.value.hash)
  }

  ghost predicate Shrunk(before: Disk, after: Disk) {
    after.Keys <= before.Keys && forall f :: f in after ==> after[f] == before[f]
  }

  // ---- Totals -----------------------------------------------------------------------

  lemma RemoveCharged(disk: Disk, live: set<string>, evicted: set<string>, len: File -> nat, f: File)
    requires WellTyped(disk) && f in Charged(disk, live, evicted)
    ensures Total(Charged(disk, live, evicted), len) == len(f) + Total(Charged(disk - {f}, live, evicted), len)
  {
    TotalRemove(Charged(disk, live, evicted), len, f);
    assert Charged(disk - {f}, live, evicted) == Charged(disk, live, evicted) - {f};
  }

  /** Evicting an object uncharges it and every alias of it. */
  lemma EvictCharged(disk: Disk, live: set<string>, evicted: set<string>, len: File -> nat, hash: string)
    requires WellTyped(disk) && Object(hash) in disk && hash !in live && hash !in evicted
    ensures Total(Charged(disk, live, evicted), len)
         == len(Object(hash)) + Total(AliasesOf(disk, hash), len) +
             Total(Charged(disk - {Object(hash)}, live, evicted + {hash}), len)
  {
    var charged, aliases := Charged(disk, live, evicted), AliasesOf(disk, hash);
    TotalSplit(charged, aliases, len);
    TotalRemove(charged - aliases, len, Object(hash));
    assert charged - aliases - {Object(hash)} == Charged(disk - {Object(hash)}, live, evicted + {hash});
  }

  lemma AliasesKept(before: Disk, after: Disk, hash: string)
    requires WellTyped(before) && WellTyped(after) && Shrunk(before, after)
    requires forall f :: f in before && f !in after ==> f.Object?
    ensures AliasesOf(after, hash) == AliasesOf(before, hash)
  {
  }

  // ---- The cache --------------------------------------------------------------------

  class ArtworkCache {
    var disk: Disk
    var recentPins: map<string, nat>
    var accesses: map<string, nat>
    var verified: set<string>
    /** Set when an operation on an existing file failed. */
    ghost var faulted: bool

    /** Remove one file, which may fail. */
    method Remove(f: File) returns (ok: bool)
      modifies this`disk, this`faulted
      ensures ok ==> f in old(disk) && disk == old(disk) - {f} && faulted == old(faulted)
      ensures !ok ==> disk == old(disk) && (faulted == (old(faulted) || f in old(disk)))
    {
      if f !in disk { return false; }
      if * { faulted := true; return false; }
      disk := disk - {f};
      return true;
    }

    /** The pins whose alias can be read and parses; any other is passed over. */
    method CollectPins() returns (found: set<File>)
      modifies this`faulted
      ensures found <= Pins(disk) && (old(faulted) ==> faulted) && (!faulted ==> found == Pins(disk))
    {
      found := {};
      var rest := set f | f in disk && f.PinAt?;
      while rest != {}
        invariant forall f :: f in rest ==> f in disk && f.PinAt?
        invariant found <= Pins(disk) && (old(faulted) ==> faulted)
        invariant !faulted ==> forall f :: f in Pins(disk) && f !in rest ==> f in found
        decreases rest
      {
        var f :| f in rest;
        rest := rest - {f};
        if * {
          faulted := true;
        } else if disk[f].alias.Some? {
          found := found + {f};
        }
      }
    }

    /** Collect the hashes protected by pins and remove the pins that are still stale on a second look.
        Either look at a file time may fail; `aged` are the pins whose first look did not. */
    method JudgePins(found: set<File>, now: nat, pinned: set<string>) returns (live: set<string>, ghost aged: set<File>)
      requires found <= Pins(disk)
      modifies this`disk, this`faulted
      ensures Shrunk(old(disk), disk) && (old(faulted) ==> faulted)
      ensures aged <= found && forall h :: h in live <==> IsLive(old(disk), now, pinned, found, aged, h)
      ensures forall f :: f in old(disk) && f !in disk ==> f in found && Discardable(old(disk)[f], now, pinned)
      ensures !faulted ==> aged == found && forall f :: f in found && f in disk ==> !Discardable(disk[f], now, pinned)
    {
      live, aged := {}, {};
      var rest := found;
      while rest != {}
        invariant rest <= found && aged <= found - rest
        invariant Shrunk(old(disk), disk) && (old(faulted) ==> faulted)
        invariant forall f :: f in old(disk) && f !in disk ==>
                    f in found - rest && Discardable(old(disk)[f], now, pinned)
        invariant !faulted ==> aged == found - rest
        invariant !faulted ==> forall f :: f in found - rest && f in disk ==> !Discardable(disk[f], now, pinned)
        invariant forall h :: h in live ==> IsLive(old(disk), now, pinned, found - rest, aged, h)
        invariant forall f :: f in found - rest && Protects(old(disk)[f], now, pinned, f in aged) ==>
                    AliasHash(old(disk)[f]) in live
        decreases rest
      {
        var f :| f in rest;
        ghost var judged := found - rest;
        rest := rest - {f};
        assert found - rest == judged + {f};
        var read: bool := *;
        ghost var before := aged;
        if read { aged := aged + {f}; } else { faulted := true; }
        forall h | IsLive(old(disk), now, pinned, judged, before, h)
          ensures IsLive(old(disk), now, pinned, found - rest, aged, h)
        {
          var g :| g in judged && Protects(old(disk)[g], now, pinned, g in before) && AliasHash(old(disk)[g]) == h;
          assert g in found - rest && Protects(old(disk)[g], now, pinned, g in aged);
        }
        var modified := disk[f].modified;
        if disk[f].alias.value.key in pinned || (read && modified <= now && now - modified < ArtworkPins.GRACE) {
          live := live + {disk[f].alias.value.hash};
        } else if * {
          faulted := true;
        } else if modified <= now && now - modified >= ArtworkPins.GRACE {
          var _ := Remove(f);
        }
      }
      assert found - rest == found;
    }

    /** Both of these: what the pins that can be read protect, and the stale ones removed. */
    method ReadPins(now: nat, pinned: set<string>)
        returns (live: set<string>, ghost found: set<File>, ghost aged: set<File>)
      modifies this`disk, this`faulted
      ensures found <= Pins(old(disk)) && aged <= found && (!faulted ==> aged == found == Pins(old(disk)))
      ensures forall h :: h in live <==> IsLive(old(disk), now, pinned, found, aged, h)
      ensures forall f :: f in found && Protects(old(disk)[f], now, pinned, f in aged) ==>
                AliasHash(old(disk)[f]) in live
      ensures Shrunk(old(disk), disk) && (old(faulted) ==> faulted)
      ensures forall f :: f in old(disk) && f !in disk ==> f in found && Discardable(old(disk)[f], now, pinned)
      ensures !faulted ==> forall f :: f in Pins(disk) ==> !Discardable(disk[f], now, pinned)
    {
      var pins := CollectPins();
      live, aged := JudgePins(pins, now, pinned);
      found := pins;
      forall f | f in found && Protects(old(disk)[f], now, pinned, f in aged)
        ensures AliasHash(old(disk)[f]) in live
      {
        assert IsLive(old(disk), now, pinned, found, aged, AliasHash(old(disk)[f]));
      }
    }

    /** Ordinary aliases that cannot be read take no part in the pass. */
    method SetAsideUnread() returns (unread: Disk)
      modifies this`disk, this`faulted
      ensures unread.Keys !! disk.Keys && disk + unread == old(disk) && forall f :: f in unread ==> f.AliasAt?
      ensures (old(faulted) ==> faulted) && (!faulted ==> unread == map[])
    {
      unread := map[];
      assert disk + unread == old(disk);
      var rest := set f | f in disk && f.AliasAt?;
      while rest != {}
        invariant rest <= disk.Keys && forall f :: f in rest ==> f.AliasAt?
        invariant unread.Keys !! disk.Keys && disk + unread == old(disk) && forall f :: f in unread ==> f.AliasAt?
        invariant (old(faulted) ==> faulted) && (!faulted ==> unread == map[])
        decreases rest
      {
        var f :| f in rest;
        rest := rest - {f};
        if * {
          faulted := true;
          unread := unread[f := disk[f]];
          disk := disk - {f};
        }
      }
    }

    /** Bytes of the alias files of each hash. */
    method SumAliasBytes() returns (bytes: map<string, nat>)
      requires WellTyped(disk)
      ensures forall h :: Bytes(bytes, h) == Total(AliasesOf(disk, h), LenOf(disk))
    {
      bytes := map[];
      var rest := set f | f in disk && f.AliasAt?;
      while rest != {}
        invariant forall f :: f in rest ==> f in disk && f.AliasAt?
        invariant forall h :: Bytes(bytes, h) == Total(AliasesOf(disk, h) - rest, LenOf(disk))
        decreases rest
      {
        var f :| f in rest;
        var hash := disk[f].alias.value.hash;
        forall h ensures Total(AliasesOf(disk, h) - (rest - {f}), LenOf(disk))
                      == Total(AliasesOf(disk, h) - rest, LenOf(disk)) + if h == hash then disk[f].len else 0
        {
          CountOne(disk, h, rest, f);
        }
        bytes := bytes[hash := Bytes(bytes, hash) + disk[f].len];
        rest := rest - {f};
      }
      forall h ensures AliasesOf(disk, h) - rest == AliasesOf(disk, h) {}
    }

    /** Store newer access times in the aliases, so that the next process keeps the order of use. */
    method StoreAccesses(now: nat)
      requires WellTyped(disk)
      modifies this`disk, this`faulted
      ensures Retouched(old(disk), disk) && WellTyped(disk) && (old(faulted) ==> faulted)
      ensures NoPendingAccess(old(disk), accesses) ==> disk == old(disk)
      ensures !faulted ==> Stored(old(disk), accesses, disk)
    {
      var rest := set f | f in disk && f.AliasAt?;
      while rest != {}
        invariant rest <= disk.Keys && forall f :: f in rest ==> f.AliasAt?
        invariant Retouched(old(disk), disk) && WellTyped(disk) && (old(faulted) ==> faulted)
        invariant NoPendingAccess(old(disk), accesses) ==> disk == old(disk)
        invariant forall f :: f in rest ==> disk[f] == old(disk)[f]
        invariant !faulted ==> forall f :: f in old(disk) && f.AliasAt? && f !in rest ==>
                    disk[f].alias.value == old(disk)[f].alias.value.(lastAccess := Later(old(disk)[f].alias.value,
                        accesses))
        decreases rest
      {
        var f :| f in rest;
        rest := rest - {f};
        var e := disk[f];
        var hash := e.alias.value.hash;
        if hash in accesses && e.alias.value.lastAccess < accesses[hash] {
          var alias := e.alias.value.(lastAccess := accesses[hash]);
          if * { faulted := true; }
          else { disk := disk[f := Entry(|Encode(alias)|, now, Some(alias))]; }
        }
      }
    }

    /** Every object file once, in whatever order, with its last use. */
    method ScanObjects() returns (seen: seq<Seen>)
      requires WellTyped(disk)
      ensures AllSeen(disk, seen) && DistinctHashes(seen)
      ensures forall f :: f in disk && f.Object? ==> HasHash(seen, f.hash)
    {
      seen := [];
      var rest := set f | f in disk && f.Object?;
      while rest != {}
        invariant forall f :: f in rest ==> f in disk && f.Object?
        invariant AllSeen(disk, seen) && DistinctHashes(seen)
        invariant forall k :: 0 <= k < |seen| ==> Object(seen[k].hash) !in rest
        invariant forall f :: f in disk && f.Object? && f !in rest ==> HasHash(seen, f.hash)
        decreases rest
      {
        var f :| f in rest;
        var use := LastUse(f.hash);
        var o := Seen(f.hash, use, disk[f].modified, disk[f].len);
        forall h | h == f.hash || HasHash(seen, h) ensures HasHash(seen + [o], h) { HasHashAppend(seen, o, h); }
        seen := seen + [o];
        rest := rest - {f};
      }
    }

    /** The objects with their last use, least recently used first. */
    method SortObjects() returns (objects: seq<Seen>)
      requires WellTyped(disk)
      ensures Sorting.Sorted(objects, UsedBefore)
      ensures AllSeen(disk, objects) && DistinctHashes(objects)
      ensures forall f :: f in disk && f.Object? ==> HasHash(objects, f.hash)
    {
      var seen := ScanObjects();
      objects := Sorting.SortBy(seen, UsedBefore);
      Sorting.SortBySorted(seen, UsedBefore);
      SortedCopies(seen, objects);
      SameSeen(disk, seen, objects);
    }

    /** The latest stored access among the aliases of a hash. */
    method LastUse(hash: string) returns (use: nat)
      requires WellTyped(disk)
      ensures IsLastUse(disk, hash, use)
    {
      use := 0;
      var rest := set f | f in disk && f.AliasAt?;
      while rest != {}
        invariant forall f :: f in rest ==> f in disk && f.AliasAt?
        invariant forall f :: f in AliasesOf(disk, hash) && f !in rest ==> disk[f].alias.value.lastAccess <= use
        invariant use == 0 || exists f :: f in AliasesOf(disk, hash) && disk[f].alias.value.lastAccess == use
        decreases rest
      {
        var f :| f in rest;
        rest := rest - {f};
        var alias := disk[f].alias.value;
        if alias.hash == hash && alias.lastAccess > use {
          use := alias.lastAccess;
          assert f in AliasesOf(disk, hash);
        }
      }
    }

    /** Bytes the budget applies to, as the scan counted them. */
    method CountAutomatic(live: set<string>) returns (total: nat)
      ensures total == Total(Automatic(disk, live), LenOf(disk))
    {
      total := 0;
      var rest := disk.Keys;
      while rest != {}
        invariant rest <= disk.Keys && total == Total(Automatic(disk, live) - rest, LenOf(disk))
        decreases rest
      {
        var f :| f in rest;
        ghost var after := Automatic(disk, live) - (rest - {f});
        if f.Legacy? || f.AliasAt? || (f.Object? && f.hash !in live) {
          TotalRemove(after, LenOf(disk), f);
          assert after - {f} == Automatic(disk, live) - rest;
          total := total + disk[f].len;
        } else {
          assert after == Automatic(disk, live) - rest;
        }
        rest := rest - {f};
      }
      assert Automatic(disk, live) - rest == Automatic(disk, live);
    }

    /** Remove old-format files while the total is over the budget. */
    method DropLegacy(counted: nat, maxBytes: nat, ghost live: set<string>, ghost len: File -> nat) returns (total: nat)
      requires WellTyped(disk) && counted == Total(Charged(disk, live, {}), len)
      requires forall f :: f in disk && f.Legacy? ==> disk[f].len == len(f)
      modifies this`disk, this`faulted
      ensures Shrunk(old(disk), disk) && WellTyped(disk) && (old(faulted) ==> faulted)
      ensures forall f :: f in old(disk) && !f.Legacy? ==> f in disk
      ensures total == Total(Charged(disk, live, {}), len)
      ensures counted <= maxBytes ==> total == counted && disk == old(disk)
      ensures !faulted && total > maxBytes ==> forall f :: f in disk ==> !f.Legacy?
    {
      total := counted;
      var rest := set f | f in disk && f.Legacy?;
      while rest != {} && total > maxBytes
        invariant Shrunk(old(disk), disk) && WellTyped(disk) && (old(faulted) ==> faulted)
        invariant forall f :: f in rest ==> f in disk && f.Legacy?
        invariant forall f :: f in old(disk) && !f.Legacy? ==> f in disk
        invariant total == Total(Charged(disk, live, {}), len)
        invariant counted <= maxBytes ==> total == counted && disk == old(disk)
        invariant !faulted ==> forall f :: f in disk && f.Legacy? ==> f in rest
        decreases rest
      {
        var f :| f in rest;
        rest := rest - {f};
        var size := disk[f].len;
        RemoveCharged(disk, live, {}, len, f);
        var removed := Remove(f);
        if removed { total := total - size; }
      }
    }

    /** Remove one object; on success it and its aliases stop counting. */
    method EvictOne(o: Seen, counted: nat, live: set<string>, ghost evicted: set<string>, bytes: map<string, nat>,
          ghost len: File -> nat)
        returns (removed: bool, total: nat)
      requires WellTyped(disk) && Object(o.hash) in disk && o.len == len(Object(o.hash)) && o.hash !in live
      requires o.hash !in evicted
      requires Bytes(bytes, o.hash) == Total(AliasesOf(disk, o.hash), len)
      requires counted == Total(Charged(disk, live, evicted), len)
      modifies this`disk, this`verified, this`accesses, this`faulted
      ensures removed ==> disk == old(disk) - {Object(o.hash)} && faulted == old(faulted) && total <= counted
      ensures removed ==> total == Total(Charged(disk, live, evicted + {o.hash}), len)
      ensures !removed ==> disk == old(disk) && total == counted && faulted
    {
      EvictCharged(disk, live, evicted, len, o.hash);
      removed := Remove(Object(o.hash));
      total := counted;
      if removed {
        total := total - (o.len + Bytes(bytes, o.hash));
        verified := verified - {o.hash};
        accesses := accesses - {o.hash};
      }
    }

    /** Evict one object if the total is over the budget and nothing protects it. */
    method ConsiderObject(o: Seen, counted: nat, maxBytes: nat, live: set<string>, ghost evicted: set<string>,
          bytes: map<string, nat>, uptime: nat, ghost len: File -> nat)
        returns (removed: bool, total: nat)
      requires WellTyped(disk) && Object(o.hash) in disk && o.len == len(Object(o.hash)) && o.hash !in evicted
      requires Bytes(bytes, o.hash) == Total(AliasesOf(disk, o.hash), len)
      requires counted == Total(Charged(disk, live, evicted), len)
      modifies this`disk, this`verified, this`accesses, this`faulted
      ensures removed ==>
                counted > maxBytes && o.hash !in live && !(o.hash in recentPins && FreshAt(recentPins[o.hash], uptime))
      ensures removed ==> disk == old(disk) - {Object(o.hash)} && faulted == old(faulted) && total <= counted
      ensures removed ==> total == Total(Charged(disk, live, evicted + {o.hash}), len)
      ensures !removed ==> disk == old(disk) && total == counted && (old(faulted) ==> faulted)
      ensures !removed && !faulted ==>
                counted <= maxBytes || o.hash in live || (o.hash in recentPins && FreshAt(recentPins[o.hash], uptime))
    {
      var recent := o.hash in recentPins && uptime - recentPins[o.hash] < ArtworkPins.GRACE;
      if counted > maxBytes && o.hash !in live && !recent {
        removed, total := EvictOne(o, counted, live, evicted, bytes, len);
      } else {
        removed, total := false, counted;
      }
    }

    /** Evict objects in order of use while the total is over the budget; pinned and recently pinned
        ones are skipped. An evicted object also stops its aliases from counting. */
    method EvictObjects(objects: seq<Seen>, counted: nat, maxBytes: nat, live: set<string>, bytes: map<string, nat>,
          uptime: nat, ghost len: File -> nat)
        returns (total: nat, ghost evicted: set<string>, count: nat)
      requires WellTyped(disk) && DistinctHashes(objects)
      requires forall i :: 0 <= i < |objects| ==>
                 Object(objects[i].hash) in disk && objects[i].len == len(Object(objects[i].hash))
      requires forall h :: Bytes(bytes, h) == Total(AliasesOf(disk, h), len)
      requires counted == Total(Charged(disk, live, {}), len)
      modifies this`disk, this`verified, this`accesses, this`faulted
      ensures Shrunk(old(disk), disk) && WellTyped(disk) && (old(faulted) ==> faulted)
      ensures forall f :: f in old(disk) && f !in disk <==> f in old(disk) && f.Object? && f.hash in evicted
      ensures evicted !! live && forall h :: h in evicted ==> !(h in recentPins && FreshAt(recentPins[h], uptime))
      ensures total == Total(Charged(disk, live, evicted), len) && count == |evicted| && total <= counted
      ensures counted <= maxBytes ==> evicted == {}
      ensures !faulted && RecentPinsAreLive(recentPins, uptime, live) ==> InOrder(objects, |objects|, live, evicted)
      ensures !faulted && RecentPinsAreLive(recentPins, uptime, live) && total > maxBytes ==>
                AllEvicted(objects, |objects|, live, evicted)
    {
      total, evicted, count := counted, {}, 0;
      var i := 0;
      while i < |objects|
        invariant 0 <= i <= |objects|
        invariant Shrunk(old(disk), disk) && WellTyped(disk) && (old(faulted) ==> faulted)
        invariant forall f :: f in old(disk) && f !in disk <==> f in old(disk) && f.Object? && f.hash in evicted
        invariant forall k :: i <= k < |objects| ==> objects[k].hash !in evicted
        invariant evicted !! live && forall h :: h in evicted ==> !(h in recentPins && FreshAt(recentPins[h], uptime))
        invariant total == Total(Charged(disk, live, evicted), len) && count == |evicted| && total <= counted
        invariant counted <= maxBytes ==> evicted == {} && total == counted
        invariant !faulted && RecentPinsAreLive(recentPins, uptime, live) ==> InOrder(objects, i, live, evicted)
        invariant !faulted && RecentPinsAreLive(recentPins, uptime, live) && total > maxBytes ==>
                  AllEvicted(objects, i, live, evicted)
      {
        var o := objects[i];
        assert Object(o.hash) in disk;
        AliasesKept(old(disk), disk, o.hash);
        ghost var before := evicted;
        var removed: bool;
        removed, total := ConsiderObject(o, total, maxBytes, live, evicted, bytes, uptime, len);
        if removed {
          evicted := evicted + {o.hash};
          count := count + 1;
        }
        OrderStep(objects, i, live, before, evicted);
        i := i + 1;
      }
    }

    /** Remove ordinary aliases of live objects, least recently used first, while over the budget. */
    method TrimLiveAliases(counted: nat, maxBytes: nat, live: set<string>, ghost evicted: set<string>,
          ghost len: File -> nat)
        returns (total: nat)
      requires WellTyped(disk) && evicted !! live && counted == Total(Charged(disk, live, evicted), len)
      modifies this`disk, this`faulted
      ensures Shrunk(old(disk), disk) && WellTyped(disk) && (old(faulted) ==> faulted)
      ensures forall f :: f in old(disk) && f !in disk ==> f.AliasAt? && AliasHash(old(disk)[f]) in live
      ensures SameLens(old(disk), len) ==> total == Total(Charged(disk, live, evicted), len)
      ensures total <= counted && (counted <= maxBytes ==> disk == old(disk) && total == counted)
      ensures !faulted && total > maxBytes ==> forall f :: f in disk && f.AliasAt? ==> AliasHash(disk[f]) !in live
      ensures !faulted ==>
                forall f, g :: f in old(disk) && f !in disk && g in disk && g.AliasAt? && AliasHash(disk[g]) in live ==>
        old(disk)[f].alias.value.lastAccess <= disk[g].alias.value.lastAccess
    {
      total := counted;
      var rest := set f | f in disk && f.AliasAt? && AliasHash(disk[f]) in live;
      while rest != {} && total > maxBytes
        invariant Shrunk(old(disk), disk) && WellTyped(disk) && (old(faulted) ==> faulted)
        invariant forall f :: f in rest ==> f in disk && f.AliasAt? && AliasHash(disk[f]) in live
        invariant forall f :: f in old(disk) && f !in disk ==> f.AliasAt? && AliasHash(old(disk)[f]) in live
        invariant SameLens(old(disk), len) ==> total == Total(Charged(disk, live, evicted), len)
        invariant total <= counted && (counted <= maxBytes ==> disk == old(disk) && total == counted)
        invariant !faulted ==> forall f :: f in disk && f.AliasAt? && AliasHash(disk[f]) in live ==> f in rest
        invariant forall f, g :: f in old(disk) && f !in disk && g in rest ==>
          old(disk)[f].alias.value.lastAccess <= disk[g].alias.value.lastAccess
        decreases rest
      {
        LeastUsedExists(disk, rest);
        var f :| f in rest && forall g :: g in rest ==>
                                disk[f].alias.value.lastAccess <= disk[g].alias.value.lastAccess;
        rest := rest - {f};
        total := TrimOne(f, total, live, evicted, len);
      }
    }

    /** Remove one ordinary alias of a live object; on success it stops counting. */
    method TrimOne(f: File, counted: nat, live: set<string>, ghost evicted: set<string>,
          ghost len: File -> nat) returns (total: nat)
      requires WellTyped(disk) && f in disk && f.AliasAt? && AliasHash(disk[f]) in live && evicted !! live
      modifies this`disk, this`faulted
      ensures (disk == old(disk) && total == counted && faulted) ||
                (disk == old(disk) - {f} && total <= counted && faulted == old(faulted))
      ensures old(disk)[f].len == len(f) && counted == Total(Charged(old(disk), live, evicted), len) ==>
                total == Total(Charged(disk, live, evicted), len)
    {
      var size := disk[f].len;
      RemoveCharged(disk, live, evicted, len, f);
      var removed := Remove(f);
      total := if removed then if size <= counted then counted - size else 0 else counted;
    }

    /** Remove ordinary aliases whose object is gone. */
    method DropOrphans()
      requires WellTyped(disk)
      modifies this`disk, this`faulted
      ensures Shrunk(old(disk), disk) && WellTyped(disk) && (old(faulted) ==> faulted)
      ensures forall f :: f in old(disk) && f !in disk ==> f.AliasAt? && Object(AliasHash(old(disk)[f])) !in disk
      ensures !faulted ==> forall f :: f in disk && f.AliasAt? ==> Object(AliasHash(disk[f])) in disk
    {
      var rest := set f | f in disk && f.AliasAt?;
      while rest != {}
        invariant Shrunk(old(disk), disk) && WellTyped(disk) && (old(faulted) ==> faulted)
        invariant forall f :: f in rest ==> f in disk && f.AliasAt?
        invariant forall f :: f in old(disk) && f !in disk ==> f.AliasAt? && Object(AliasHash(old(disk)[f])) !in disk
        invariant !faulted ==> forall f :: f in disk && f.AliasAt? && f !in rest ==> Object(AliasHash(disk[f])) in disk
        decreases rest
      {
        var f :| f in rest;
        rest := rest - {f};
        if Object(AliasHash(disk[f])) !in disk { var _ := Remove(f); }
      }
    }

    /** Everything after the pins have been judged. */
    method Reclaim(now: nat, uptime: nat, maxBytes: nat, live: set<string>) returns (total: nat, evictedObjects: nat)
      requires WellTyped(disk)
      modifies this
      ensures WellTyped(disk) && disk.Keys <= old(disk).Keys && (old(faulted) ==> faulted)
      ensures forall f :: f in old(disk) && f.PinAt? ==> f in disk
      ensures forall f :: f in disk && (f.Object? || f.PinAt?) ==> disk[f] == old(disk)[f]
      ensures forall h :: h in live || (h in old(recentPins) && FreshAt(old(recentPins)[h], uptime)) ==>
        Kept(old(disk), disk, h)
      ensures !faulted && RecentPinsAreLive(old(recentPins), uptime, live) ==>
                && EvictedInOrder(old(disk), old(accesses), disk, live) &&
                    TrimmedInOrder(old(disk), old(accesses), disk, live)
                && (NoPendingAccess(old(disk), old(accesses)) ==>
                      Total(Automatic(disk, live), LenOf(disk)) <= maxBytes)
      ensures Total(Automatic(old(disk), live), LenOf(old(disk))) <= maxBytes ==>
        forall f :: f in old(disk) && (f.Object? || f.Legacy?) ==> f in disk
      ensures !faulted ==> forall f :: f in disk && f.AliasAt? ==> Object(AliasHash(disk[f])) in disk
    {
      ghost var d1 := disk;
      var objects: seq<Seen>, bytes: map<string, nat>;
      ghost var stored: Disk;
      total, bytes, objects, stored := Count(now, maxBytes, live);
      ghost var d2, counted := disk, total;
      ghost var evicted: set<string>;
      total, evicted, evictedObjects := Shrink(objects, total, maxBytes, live, bytes, uptime, LenOf(d1));
      ghost var d5 := disk;
      DropOrphans();
      if !faulted && RecentPinsAreLive(old(recentPins), uptime, live) {
        OrderMet(d1, old(accesses), disk, objects, live, evicted);
        TrimMet(d1, old(accesses), stored, d2, d5, disk, live);
        if NoPendingAccess(d1, old(accesses)) {
          Reclaimed(d1, d2, d5, disk, objects, bytes, live, evicted, counted, total, maxBytes);
        }
      }
      recentPins := map h | h in recentPins && uptime - recentPins[h] < ArtworkPins.GRACE :: recentPins[h];
    }

    /** The same for a directory some of whose ordinary aliases cannot be read. */
    method ReclaimRead(now: nat, uptime: nat, maxBytes: nat, live: set<string>)
        returns (total: nat, evictedObjects: nat)
      requires WellTyped(disk)
      modifies this
      ensures WellTyped(disk) && disk.Keys <= old(disk).Keys && (old(faulted) ==> faulted)
      ensures forall f :: f in old(disk) && f.PinAt? ==> f in disk
      ensures forall f :: f in disk && (f.Object? || f.PinAt?) ==> disk[f] == old(disk)[f]
      ensures forall h :: h in live || (h in old(recentPins) && FreshAt(old(recentPins)[h], uptime)) ==>
        Kept(old(disk), disk, h)
      ensures !faulted && RecentPinsAreLive(old(recentPins), uptime, live) ==>
                && EvictedInOrder(old(disk), old(accesses), disk, live) &&
                    TrimmedInOrder(old(disk), old(accesses), disk, live)
                && (NoPendingAccess(old(disk), old(accesses)) ==>
                      Total(Automatic(disk, live), LenOf(disk)) <= maxBytes)
      ensures Total(Automatic(old(disk), live), LenOf(old(disk))) <= maxBytes ==>
        forall f :: f in old(disk) && (f.Object? || f.Legacy?) ==> f in disk
      ensures !faulted ==> forall f :: f in disk && f.AliasAt? ==> Object(AliasHash(disk[f])) in disk
    {
      var unread := SetAsideUnread();
      ghost var scanned := disk;
      UnreadTotals(old(disk), scanned, unread, live);
      total, evictedObjects := Reclaim(now, uptime, maxBytes, live);
      PutBack(old(disk), scanned, unread, disk);
      disk := disk + unread;
    }

    /** Scan sizes and uses, store access times, and remove old-format files over the budget. */
    method Count(now: nat, maxBytes: nat, live: set<string>)
        returns (total: nat, bytes: map<string, nat>, objects: seq<Seen>, ghost stored: Disk)
      requires WellTyped(disk)
      modifies this`disk, this`faulted
      ensures WellTyped(disk) && (old(faulted) ==> faulted)
      ensures Counted(old(disk), disk, objects, bytes, live, total)
      ensures NoPendingAccess(old(disk), accesses) ==> Shrunk(old(disk), disk)
      ensures WellTyped(stored) && Shrunk(stored, disk)
      ensures !faulted ==> Stored(old(disk), accesses, stored) && AllUsed(old(disk), accesses, objects)
      ensures Total(Automatic(old(disk), live), LenOf(old(disk))) <= maxBytes ==>
                total <= maxBytes && disk.Keys == old(disk).Keys
      ensures !faulted && total > maxBytes ==> forall f :: f in disk ==> !f.Legacy?
    {
      ghost var d1 := disk;
      bytes := SumAliasBytes();
      total := CountAutomatic(live);
      StoreAccesses(now);
      stored := disk;
      SameCharges(d1, disk, live, LenOf(d1));
      objects := SortObjects();
      if !faulted { SeenAreUsed(d1, accesses, stored, objects); }
      total := DropLegacy(total, maxBytes, live, LenOf(d1));
      forall h ensures AliasesOf(disk, h) == AliasesOf(d1, h) {}
    }

    /** Evict objects, then trim the aliases of live ones. */
    method Shrink(objects: seq<Seen>, counted: nat, maxBytes: nat, live: set<string>, bytes: map<string, nat>,
          uptime: nat, ghost len: File -> nat)
        returns (total: nat, ghost evicted: set<string>, count: nat)
      requires WellTyped(disk) && DistinctHashes(objects)
      requires forall i :: 0 <= i < |objects| ==>
                 Object(objects[i].hash) in disk && objects[i].len == len(Object(objects[i].hash))
      requires forall h :: Bytes(bytes, h) == Total(AliasesOf(disk, h), len)
      requires counted == Total(Charged(disk, live, {}), len)
      modifies this`disk, this`verified, this`accesses, this`faulted
      ensures WellTyped(disk) && (old(faulted) ==> faulted)
      ensures evicted !! live && forall h :: h in evicted ==> !(h in recentPins && FreshAt(recentPins[h], uptime))
      ensures count == |evicted| && total <= counted && (counted <= maxBytes ==> evicted == {})
      ensures Evicted(old(disk), disk, evicted)
      ensures !faulted ==>
                forall f, g ::
                  && f in old(disk) && f !in disk && f.AliasAt?
                  && g in disk && g.AliasAt? && AliasHash(disk[g]) in live ==>
                    old(disk)[f].alias.value.lastAccess <= disk[g].alias.value.lastAccess
      ensures SameLens(old(disk), len) ==> total == Total(Charged(disk, live, evicted), len)
      ensures !faulted && RecentPinsAreLive(recentPins, uptime, live) ==>
                Exhausted(disk, objects, live, evicted, total, maxBytes)
    {
      total, evicted, count := EvictObjects(objects, counted, maxBytes, live, bytes, uptime, len);
      total := TrimLiveAliases(total, maxBytes, live, evicted, len);
    }

    /** The same, in terms of the disk before its stale pins were removed. */
    method ReclaimJudged(now: nat, uptime: nat, maxBytes: nat, live: set<string>, ghost before: Disk)
        returns (total: nat, evictedObjects: nat)
      requires WellTyped(before) && Shrunk(before, disk) && forall f :: f in before && !f.PinAt? ==> f in disk
      modifies this
      ensures WellTyped(disk) && disk.Keys <= before.Keys && (old(faulted) ==> faulted)
      ensures forall f :: f in old(disk) && f.PinAt? ==> f in disk
      ensures forall f :: f in disk && f.PinAt? ==> f in old(disk)
      ensures forall f :: f in disk && (f.Object? || f.PinAt?) ==> disk[f] == before[f]
      ensures forall h :: h in live || (h in old(recentPins) && FreshAt(old(recentPins)[h], uptime)) ==>
        Kept(before, disk, h)
      ensures !faulted && RecentPinsAreLive(old(recentPins), uptime, live) ==>
                && EvictedInOrder(before, old(accesses), disk, live) &&
                    TrimmedInOrder(before, old(accesses), disk, live)
                && (NoPendingAccess(before, old(accesses)) ==>
                      Total(Automatic(disk, live), LenOf(disk)) <= maxBytes)
      ensures Total(Automatic(before, live), LenOf(before)) <= maxBytes ==>
        forall f :: f in before && (f.Object? || f.Legacy?) ==> f in disk
      ensures !faulted ==> forall f :: f in disk && f.AliasAt? ==> Object(AliasHash(disk[f])) in disk
    {
      ghost var judged := disk;
      JudgedTotals(before, judged, live);
      total, evictedObjects := ReclaimRead(now, uptime, maxBytes, live);
      JudgedOrder(before, old(accesses), judged, disk, live);
    }

    /** The whole pass. `pinned` is the database's live set of selected artwork keys, `now` the wall
        clock and `uptime` the clock of the recent pins. A directory that cannot be listed ends the
        pass before anything is done, or after the pins have been judged. */
    method Maintain(now: nat, uptime: nat, maxBytes: nat, pinned: set<string>)
        returns (ok: bool, total: nat, evictedObjects: nat, ghost live: set<string>, ghost found: set<File>,
          ghost aged: set<File>)
      requires WellTyped(disk)
      modifies this
      ensures WellTyped(disk) && disk.Keys <= old(disk).Keys && (old(faulted) || !ok ==> faulted)
      // What could be read of the pins decides what is live; without faults that is all of it.
      ensures found <= Pins(old(disk)) && aged <= found && (!faulted ==> aged == found == Pins(old(disk)))
      ensures ok ==> forall h :: h in live <==> IsLive(old(disk), now, pinned, found, aged, h)
      // Whatever fails, a pin goes only if it is unselected and stale, and the objects of protecting
      // pins and of recent pins stay.
      ensures forall f :: f in disk && (f.Object? || f.PinAt?) ==> disk[f] == old(disk)[f]
      ensures forall f :: f in old(disk) && f.PinAt? && f !in disk ==>
                f in found && Discardable(old(disk)[f], now, pinned)
      ensures forall f :: f in found && Protects(old(disk)[f], now, pinned, f in aged) ==>
                Kept(old(disk), disk, AliasHash(old(disk)[f]))
      ensures forall h :: h in old(recentPins) && FreshAt(old(recentPins)[h], uptime) ==> Kept(old(disk), disk, h)
      ensures !ok ==> forall f :: f in old(disk) && !f.PinAt? ==> f in disk && disk[f] == old(disk)[f]
      ensures !faulted ==> forall f :: f in Pins(disk) ==> !Discardable(disk[f], now, pinned)
      // The budget, the order of eviction, and no eviction without need.
      ensures !faulted && RecentPinsAreLive(old(recentPins), uptime, live) ==>
                && EvictedInOrder(old(disk), old(accesses), disk, live) &&
                    TrimmedInOrder(old(disk), old(accesses), disk, live)
                && (NoPendingAccess(old(disk), old(accesses)) ==>
                      Total(Automatic(disk, live), LenOf(disk)) <= maxBytes)
      ensures Total(Automatic(old(disk), live), LenOf(old(disk))) <= maxBytes ==>
        forall f :: f in old(disk) && (f.Object? || f.Legacy?) ==> f in disk
      ensures !faulted ==> forall f :: f in disk && f.AliasAt? ==> Object(AliasHash(disk[f])) in disk
    {
      ok, total, evictedObjects := false, 0, 0;
      live, found, aged := {}, {}, {};
      if * { faulted := true; return; }
      var hashes: set<string>;
      hashes, found, aged := ReadPins(now, pinned);
      live := hashes;
      if * { faulted := true; return; }
      ok := true;
      total, evictedObjects := ReclaimJudged(now, uptime, maxBytes, hashes, old(disk));
    }
  }

  /** An object file is as it was, if it was there. */
  ghost predicate Kept(before: Disk, after: Disk, hash: string) {
    Object(hash) in before ==> Object(hash) in after && after[Object(hash)] == before[Object(hash)]
  }

  lemma PutBack(judged: Disk, scanned: Disk, unread: Disk, swept: Disk)
    requires scanned.Keys !! unread.Keys && scanned + unread == judged && swept.Keys <= scanned.Keys
    requires WellTyped(judged) && WellTyped(swept) && forall f :: f in unread ==> f.AliasAt?
    ensures WellTyped(swept + unread) && (swept + unread).Keys <= judged.Keys
    ensures forall f: File :: !f.AliasAt? ==> (f in swept + unread <==> f in swept) && (f in judged <==> f in scanned)
    ensures forall f :: f in swept && !f.AliasAt? ==> (swept + unread)[f] == swept[f]
    ensures forall f :: f in scanned && !f.AliasAt? ==> judged[f] == scanned[f]
    ensures unread == map[] ==> scanned == judged && swept + unread == swept
  {
  }

  lemma UnreadTotals(judged: Disk, scanned: Disk, unread: Disk, live: set<string>)
    requires scanned.Keys !! unread.Keys && scanned + unread == judged && forall f :: f in unread ==> f.AliasAt?
    ensures Total(Automatic(scanned, live), LenOf(scanned)) <= Total(Automatic(judged, live), LenOf(judged))
  {
    assert Automatic(scanned, live) <= Automatic(judged, live);
    TotalAgree(Automatic(scanned, live), LenOf(scanned), LenOf(judged));
    TotalMono(Automatic(scanned, live), Automatic(judged, live), LenOf(judged));
  }

  // ---- What a pin protects ----------------------------------------------------------

  /** Without faults an object is live exactly when some pin of it is selected or young by the clock. */
  lemma LiveWithoutFaults(disk: Disk, now: nat, pinned: set<string>, hash: string)
    ensures IsLive(disk, now, pinned, Pins(disk), Pins(disk), hash) <==>
            exists f :: f in Pins(disk) && AliasHash(disk[f]) == hash
              && (disk[f].alias.value.key in pinned || disk[f].modified <= now < disk[f].modified + ArtworkPins.GRACE)
  {
    forall f | f in Pins(disk)
      ensures Protects(disk[f], now, pinned, f in Pins(disk)) <==>
                disk[f].alias.value.key in pinned || disk[f].modified <= now < disk[f].modified + ArtworkPins.GRACE
    {
    }
  }

  /** A pin that is not removed protects its object, unless it is unselected and its file time could
      not be read or lies ahead of the clock. */
  lemma StaysWithoutProtecting(e: Entry, now: nat, pinned: set<string>, aged: bool)
    requires e.alias.Some?
    ensures !Discardable(e, now, pinned) && !Protects(e, now, pinned, aged) <==>
            e.alias.value.key !in pinned && (now < e.modified || (!aged && !Stale(e.modified, now)))
  {
  }

  /** With no room for automatic artwork, an object with any content stays only if it is live. */
  lemma OnlyLiveObjectsStay(disk: Disk, live: set<string>, hash: string)
    requires Total(Automatic(disk, live), LenOf(disk)) == 0 && Object(hash) in disk && disk[Object(hash)].len > 0
    ensures hash in live
  {
    if hash !in live {
      TotalRemove(Automatic(disk, live), LenOf(disk), Object(hash));
      assert false;
    }
  }

  /** A pin written ten seconds ahead of the clock, just put there for an object of one byte. */
  function AheadDisk(now: nat): Disk {
    map[PinAt("p") := Entry(1, now + 10, Some(Alias("k", "jpg", "h", 1, 0))), Object("h") := Entry(1, now, None)]
  }

  /** After a restart such a pin keeps its file and loses its object, though nothing fails. */
  method AheadPinLosesObject(cache: ArtworkCache, now: nat, uptime: nat)
    requires cache.disk == AheadDisk(now) && cache.recentPins == map[]
    modifies cache
    ensures !cache.faulted ==> PinAt("p") in cache.disk && Object("h") !in cache.disk
  {
    ghost var before := cache.disk;
    var ok, total, count;
    ghost var live, found, aged;
    ok, total, count, live, found, aged := cache.Maintain(now, uptime, 0, {});
    if !cache.faulted {
      assert found <= {PinAt("p")};
      assert !IsLive(before, now, {}, found, aged, "h");
      if Object("h") in cache.disk { OnlyLiveObjectsStay(cache.disk, live, "h"); }
    }
  }

  /** What the scan of `before` leaves for eviction on `now`: the objects in order of use, the bytes of
      each hash's aliases and the total, all in the sizes the scan read. */
  ghost predicate Counted(before: Disk, now: Disk, objects: seq<Seen>, bytes: map<string, nat>, live: set<string>,
        total: nat)
    requires WellTyped(before) && WellTyped(now)
  {
    && Sorting.Sorted(objects, UsedBefore) && DistinctHashes(objects)
    && now.Keys <= before.Keys
    && (forall f :: f in before && !f.Legacy? ==> f in now)
    && (forall f :: f in before && (f.Object? || f.PinAt?) ==> now[f] == before[f])
    && (forall i :: 0 <= i < |objects| ==>
          Object(objects[i].hash) in now && objects[i].len == LenOf(before)(Object(objects[i].hash)))
    && (forall f :: f in before && f.Object? ==> HasHash(objects, f.hash))
    && (forall h :: Bytes(bytes, h) == Total(AliasesOf(now, h), LenOf(before)))
    && total == Total(Charged(now, live, {}), LenOf(before))
  }

  ghost predicate Evicted(before: Disk, after: Disk, evicted: set<string>) {
    && Shrunk(before, after)
    && (forall f :: f in before && (f.PinAt? || f.Legacy?) ==> f in after)
    && (forall f :: f in before && f.Object? ==> (f in after <==> f.hash !in evicted))
  }

  /** Eviction went in order, and stopped short only within the budget. */
  ghost predicate Exhausted(disk: Disk, objects: seq<Seen>, live: set<string>, evicted: set<string>, total: nat,
        maxBytes: nat) {
    && InOrder(objects, |objects|, live, evicted)
    && (total > maxBytes ==>
          && AllEvicted(objects, |objects|, live, evicted)
          && forall f :: f in disk && f.AliasAt? ==> AliasHash(disk[f]) !in live)
  }

  lemma Reclaimed(scanned: Disk, counted: Disk, trimmed: Disk, final: Disk, objects: seq<Seen>, bytes: map<string, nat>,
                  live: set<string>, evicted: set<string>, before: nat, total: nat, maxBytes: nat)
    requires WellTyped(scanned) && WellTyped(counted) && WellTyped(trimmed) && WellTyped(final)
    requires Counted(scanned, counted, objects, bytes, live, before) && Shrunk(scanned, counted)
    requires forall f :: f in scanned && f.Object? ==> HasHash(objects, f.hash)
    requires before <= maxBytes || forall f :: f in counted ==> !f.Legacy?
    requires Evicted(counted, trimmed, evicted) && Exhausted(trimmed, objects, live, evicted, total, maxBytes)
    requires total <= before && total == Total(Charged(trimmed, live, evicted), LenOf(scanned))
    requires Shrunk(trimmed, final)
    requires forall f :: f in trimmed && f !in final ==> f.AliasAt?
    requires forall f :: f in final && f.AliasAt? ==> Object(AliasHash(final[f])) in final
    ensures Total(Automatic(final, live), LenOf(final)) <= maxBytes
  {
    BudgetMet(scanned, trimmed, final, objects, live, evicted, LenOf(scanned), total, maxBytes);
  }

  /** Among the first `n` objects, an evicted one comes after no automatic one that was spared. */
  ghost predicate InOrder(objects: seq<Seen>, n: nat, live: set<string>, evicted: set<string>)
    requires n <= |objects|
  {
    forall k, m :: 0 <= k < m < n && objects[m].hash in evicted && objects[k].hash !in live ==>
        objects[k].hash in evicted
  }

  ghost predicate AllEvicted(objects: seq<Seen>, n: nat, live: set<string>, evicted: set<string>)
    requires n <= |objects|
  {
    forall k :: 0 <= k < n && objects[k].hash !in live ==> objects[k].hash in evicted
  }

  /** Evicting the next object keeps the order when all automatic ones before it are gone. */
  lemma OrderStep(objects: seq<Seen>, i: nat, live: set<string>, before: set<string>, after: set<string>)
    requires i < |objects| && (after == before || after == before + {objects[i].hash})
    requires forall k :: i <= k < |objects| ==> objects[k].hash !in before
    ensures InOrder(objects, i, live, before) && (after == before || AllEvicted(objects, i, live, before)) ==>
              InOrder(objects, i + 1, live, after)
    ensures AllEvicted(objects, i, live, before) && (objects[i].hash in live || after != before) ==>
              AllEvicted(objects, i + 1, live, after)
  {
  }

  /** Every evicted object was used no later than every automatic object that stayed. */
  ghost predicate EvictedInOrder(before: Disk, accesses: map<string, nat>, after: Disk, live: set<string>)
    requires WellTyped(before)
  {
    forall a, b, useA, useB ::
      && Object(a) in before && Object(a) !in after && Object(b) in before && Object(b) in after && b !in live
      && IsUse(before, accesses, a, useA) && IsUse(before, accesses, b, useB) ==>
        useA < useB || (useA == useB && before[Object(a)].modified <= before[Object(b)].modified)
  }

  /** Every ordinary alias that went though its object stayed was used no later than every one of a live
      object that stayed. */
  ghost predicate TrimmedInOrder(before: Disk, accesses: map<string, nat>, after: Disk, live: set<string>)
    requires WellTyped(before)
  {
    forall f, g ::
      && f in before && f.AliasAt? && f !in after && Object(AliasHash(before[f])) in after
      && g in before && g.AliasAt? && g in after && AliasHash(before[g]) in live ==>
        Later(before[f].alias.value, accesses) <= Later(before[g].alias.value, accesses)
  }

  lemma TrimMet(scanned: Disk, accesses: map<string, nat>, stored: Disk, counted: Disk, trimmed: Disk, final: Disk,
        live: set<string>)
    requires WellTyped(scanned) && WellTyped(stored) && WellTyped(counted) && WellTyped(trimmed)
    requires Stored(scanned, accesses, stored) && Shrunk(stored, counted)
    requires forall f :: f in stored && f.AliasAt? ==> f in counted
    requires Shrunk(counted, trimmed) && Shrunk(trimmed, final)
    requires forall f, g ::
               && f in counted && f !in trimmed && f.AliasAt?
               && g in trimmed && g.AliasAt? && AliasHash(trimmed[g]) in live ==>
                 counted[f].alias.value.lastAccess <= trimmed[g].alias.value.lastAccess
    requires forall f :: f in trimmed && f !in final ==> f.AliasAt? && Object(AliasHash(trimmed[f])) !in final
    ensures TrimmedInOrder(scanned, accesses, final, live)
  {
    forall f, g
      | && f in scanned && f.AliasAt? && f !in final && Object(AliasHash(scanned[f])) in final
        && g in scanned && g.AliasAt? && g in final && AliasHash(scanned[g]) in live
      ensures Later(scanned[f].alias.value, accesses) <= Later(scanned[g].alias.value, accesses)
    {
      assert f in counted && f !in trimmed && g in trimmed;
      assert AliasHash(trimmed[g]) == AliasHash(scanned[g]);
    }
  }

  lemma TotalMono(part: set<File>, files: set<File>, len: File -> nat)
    requires part <= files
    ensures Total(part, len) <= Total(files, len)
  {
    TotalSplit(files, part, len);
  }

  /** What is left after orphans are gone fits the budget: it is counted, or nothing is left. */
  lemma BudgetMet(scanned: Disk, trimmed: Disk, final: Disk, objects: seq<Seen>, live: set<string>,
        evicted: set<string>,
                  len: File -> nat, total: nat, maxBytes: nat)
    requires WellTyped(scanned) && WellTyped(trimmed) && WellTyped(final)
    requires Shrunk(scanned, trimmed) && Shrunk(trimmed, final) && SameLens(scanned, len)
    requires forall h :: h in evicted ==> Object(h) !in trimmed
    requires forall f :: f in final && f.AliasAt? ==> Object(AliasHash(final[f])) in final
    requires forall f :: f in scanned && f.Object? ==> HasHash(objects, f.hash)
    requires total == Total(Charged(trimmed, live, evicted), len)
    requires total > maxBytes ==>
      && AllEvicted(objects, |objects|, live, evicted)
      && (forall f :: f in trimmed ==> !f.Legacy?)
      && (forall f :: f in trimmed && f.AliasAt? ==> AliasHash(trimmed[f]) !in live)
    ensures Total(Automatic(final, live), LenOf(final)) <= maxBytes
  {
    TotalAgree(Automatic(final, live), LenOf(final), len);
    if total <= maxBytes {
      assert Automatic(final, live) <= Charged(trimmed, live, evicted);
      TotalMono(Automatic(final, live), Charged(trimmed, live, evicted), len);
    } else {
      forall h | Object(h) in final ensures h in live {
        assert HasHash(objects, h);
      }
      assert Automatic(final, live) == {};
    }
  }

  lemma OrderMet(before: Disk, accesses: map<string, nat>, after: Disk, objects: seq<Seen>, live: set<string>,
        evicted: set<string>)
    requires WellTyped(before) && AllUsed(before, accesses, objects) && Sorting.Sorted(objects, UsedBefore)
    requires forall f :: f in before && f.Object? ==> HasHash(objects, f.hash)
    requires forall f :: f in before && f.Object? && f !in after ==> f.hash in evicted
    requires forall h :: h in evicted ==> Object(h) !in after
    requires InOrder(objects, |objects|, live, evicted)
    ensures EvictedInOrder(before, accesses, after, live)
  {
    forall a, b, useA, useB
      | && Object(a) in before && Object(a) !in after && Object(b) in before && Object(b) in after && b !in live
        && IsUse(before, accesses, a, useA) && IsUse(before, accesses, b, useB)
      ensures useA < useB || (useA == useB && before[Object(a)].modified <= before[Object(b)].modified)
    {
      assert HasHash(objects, a) && HasHash(objects, b);
      var m :| 0 <= m < |objects| && objects[m].hash == a;
      var k :| 0 <= k < |objects| && objects[k].hash == b;
      assert UsedOn(before, accesses, objects[m]) && UsedOn(before, accesses, objects[k]);
      UseUnique(before, accesses, a, useA, objects[m].lastUse);
      UseUnique(before, accesses, b, useB, objects[k].lastUse);
      assert m < k;
    }
  }

  lemma UseUnique(disk: Disk, accesses: map<string, nat>, hash: string, a: nat, b: nat)
    requires WellTyped(disk) && IsUse(disk, accesses, hash, a) && IsUse(disk, accesses, hash, b)
    ensures a == b
  {
  }

  /** Judging pins changes neither objects nor the use of ordinary aliases. */
  lemma JudgedOrder(before: Disk, accesses: map<string, nat>, judged: Disk, after: Disk, live: set<string>)
    requires WellTyped(before) && Shrunk(before, judged) && forall f :: f in before && !f.PinAt? ==> f in judged
    requires after.Keys <= judged.Keys
    ensures EvictedInOrder(judged, accesses, after, live) ==> EvictedInOrder(before, accesses, after, live)
    ensures TrimmedInOrder(judged, accesses, after, live) ==> TrimmedInOrder(before, accesses, after, live)
  {
    forall h ensures AliasesOf(before, h) == AliasesOf(judged, h) {}
    if EvictedInOrder(judged, accesses, after, live) {
      forall a, b, useA, useB
        | && Object(a) in before && Object(a) !in after && Object(b) in before && Object(b) in after && b !in live
          && IsUse(before, accesses, a, useA) && IsUse(before, accesses, b, useB)
        ensures useA < useB || (useA == useB && before[Object(a)].modified <= before[Object(b)].modified)
      {
        assert IsUse(judged, accesses, a, useA) && IsUse(judged, accesses, b, useB);
      }
    }
  }

  lemma LeastUsedExists(disk: Disk, files: set<File>)
    requires files != {} && forall f :: f in files ==> f in disk && disk[f].alias.Some?
    ensures exists f :: f in files && forall g :: g in files ==>
                                        disk[f].alias.value.lastAccess <= disk[g].alias.value.lastAccess
    decreases files
  {
    var f :| f in files;
    if files != {f} {
      LeastUsedExists(disk, files - {f});
      var least :| least in files - {f} && forall g :: g in files - {f} ==>
                                             disk[least].alias.value.lastAccess <= disk[g].alias.value.lastAccess;
      var answer := if disk[f].alias.value.lastAccess <= disk[least].alias.value.lastAccess then f else least;
      forall g | g in files ensures disk[answer].alias.value.lastAccess <= disk[g].alias.value.lastAccess {
        assert g == f || g in files - {f};
      }
    } else {
      assert forall g :: g in files ==> g == f;
    }
  }

  lemma JudgedTotals(before: Disk, after: Disk, live: set<string>)
    requires Shrunk(before, after) && forall f :: f in before && !f.PinAt? ==> f in after
    ensures Total(Automatic(before, live), LenOf(before)) == Total(Automatic(after, live), LenOf(after))
  {
    assert Automatic(before, live) == Automatic(after, live);
    TotalAgree(Automatic(before, live), LenOf(before), LenOf(after));
  }

  lemma SameCharges(before: Disk, after: Disk, live: set<string>, len: File -> nat)
    requires WellTyped(before) && WellTyped(after) && Retouched(before, after)
    ensures Total(Charged(after, live, {}), len) == Total(Automatic(before, live), len)
    ensures forall h :: AliasesOf(after, h) == AliasesOf(before, h)
  {
    assert Charged(after, live, {}) == Automatic(before, live);
    forall h ensures AliasesOf(after, h) == AliasesOf(before, h) {}
  }

  ghost predicate SeenOn(disk: Disk, o: Seen)
    requires WellTyped(disk)
  {
    && Object(o.hash) in disk && disk[Object(o.hash)].len == o.len && disk[Object(o.hash)].modified == o.modified
    && IsLastUse(disk, o.hash, o.lastUse)
  }

  ghost predicate AllSeen(disk: Disk, s: seq<Seen>)
    requires WellTyped(disk)
  {
    forall i :: 0 <= i < |s| ==> SeenOn(disk, s[i])
  }

  ghost predicate UsedOn(disk: Disk, accesses: map<string, nat>, o: Seen)
    requires WellTyped(disk)
  {
    && Object(o.hash) in disk && disk[Object(o.hash)].len == o.len && disk[Object(o.hash)].modified == o.modified
    && IsUse(disk, accesses, o.hash, o.lastUse)
  }

  ghost predicate AllUsed(disk: Disk, accesses: map<string, nat>, s: seq<Seen>)
    requires WellTyped(disk)
  {
    forall i :: 0 <= i < |s| ==> UsedOn(disk, accesses, s[i])
  }

  lemma SeenAreUsed(before: Disk, accesses: map<string, nat>, stored: Disk, s: seq<Seen>)
    requires WellTyped(before) && WellTyped(stored) && Retouched(before, stored) && Stored(before, accesses, stored)
    requires AllSeen(stored, s)
    ensures AllUsed(before, accesses, s)
  {
    forall i | 0 <= i < |s| ensures UsedOn(before, accesses, s[i]) {
      assert SeenOn(stored, s[i]);
      StoredUse(before, accesses, stored, s[i].hash, s[i].lastUse);
    }
  }

  ghost predicate HasHash(s: seq<Seen>, hash: string) { exists i :: 0 <= i < |s| && s[i].hash == hash }

  lemma HasHashAppend(s: seq<Seen>, o: Seen, hash: string)
    requires hash == o.hash || HasHash(s, hash)
    ensures HasHash(s + [o], hash)
  {
    if hash == o.hash {
      assert (s + [o])[|s|].hash == hash;
    } else {
      var i :| 0 <= i < |s| && s[i].hash == hash;
      assert (s + [o])[i].hash == hash;
    }
  }

  lemma SameSeen(disk: Disk, seen: seq<Seen>, objects: seq<Seen>)
    requires WellTyped(disk) && multiset(seen) == multiset(objects) && AllSeen(disk, seen)
    ensures AllSeen(disk, objects)
    ensures forall h :: HasHash(seen, h) ==> HasHash(objects, h)
  {
    forall i | 0 <= i < |objects| ensures SeenOn(disk, objects[i]) {
      assert objects[i] in multiset(seen);
      var k :| 0 <= k < |seen| && seen[k] == objects[i];
    }
    forall h | HasHash(seen, h) ensures HasHash(objects, h) {
      var k :| 0 <= k < |seen| && seen[k].hash == h;
      assert seen[k] in multiset(objects);
      var i :| 0 <= i < |objects| && objects[i] == seen[k];
    }
  }

  ghost predicate DistinctHashes(s: seq<Seen>) {
    forall i, j :: 0 <= i < j < |s| ==> s[i].hash != s[j].hash
  }

  function Bytes(bytes: map<string, nat>, hash: string): nat { if hash in bytes then bytes[hash] else 0 }

  lemma CountOne(disk: Disk, hash: string, rest: set<File>, f: File)
    requires WellTyped(disk) && f in rest && f in disk && f.AliasAt?
    ensures Total(AliasesOf(disk, hash) - (rest - {f}), LenOf(disk))
         == Total(AliasesOf(disk, hash) - rest, LenOf(disk)) + if hash == disk[f].alias.value.hash then disk[f].len
                                                                 else 0
  {
    var after := AliasesOf(disk, hash) - (rest - {f});
    if hash == disk[f].alias.value.hash {
      TotalRemove(after, LenOf(disk), f);
      assert after - {f} == AliasesOf(disk, hash) - rest;
    } else {
      assert after == AliasesOf(disk, hash) - rest;
    }
  }

  lemma SortedCopies(seen: seq<Seen>, objects: seq<Seen>)
    requires multiset(seen) == multiset(objects)
    requires DistinctHashes(seen)
    ensures DistinctHashes(objects)
  {
    forall i, j | 0 <= i < j < |objects| ensures objects[i].hash != objects[j].hash {
      if objects[i].hash == objects[j].hash {
        assert objects[i] in multiset(seen) && objects[j] in multiset(seen);
        var a :| 0 <= a < |seen| && seen[a] == objects[i];
        var b :| 0 <= b < |seen| && seen[b] == objects[j];
        assert a == b;
        Twice(objects, i, j);
        Once(seen, a);
        assert false;
      }
    }
  }

  lemma Twice<T>(s: seq<T>, i: nat, j: nat)
    requires i < j < |s| && s[i] == s[j]
    ensures multiset(s)[s[i]] >= 2
  {
    assert s == s[..i] + [s[i]] + s[i + 1..j] + [s[j]] + s[j + 1..];
  }

  lemma Once(s: seq<Seen>, a: nat)
    requires a < |s| && DistinctHashes(s)
    ensures multiset(s)[s[a]] == 1
  {
    assert s == s[..a] + [s[a]] + s[a + 1..];
    assert s[a] !in multiset(s[..a]) && s[a] !in multiset(s[a + 1..]);
  }
}
