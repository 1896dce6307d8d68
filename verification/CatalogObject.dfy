// `Catalog` and `CatalogIndex` as the source writes them: directories, alias
// registry and table updated step by step, proved against CatalogModel.
module CatalogObject {
  import opened TaskTypes
  import opened Identity
  import opened Sequences
  import opened Strings
  import opened CatalogModel
  import opened CatalogHistory

  // The one table of the index.
  class CatalogIndex {
    var rows: map<string, Row>

    constructor ()
      ensures rows == map[]
    {
      rows := map[];
    }

    method Upsert(row: Row)
      modifies this
      ensures rows == CatalogModel.Upsert(old(rows), row)
    {
      rows := rows[row.id := row];
    }

    method Delete(id: string)
      modifies this
      ensures rows == old(rows) - {id}
    {
      rows := rows - {id};
    }

    // `preserve_and_recreate`
    method Recreate()
      modifies this
      ensures rows == map[]
    {
      rows := map[];
    }

    // One transaction: fill the table of seen ids, upsert what changed, drop
    // what was not seen; a repeated id rolls everything back.
    method Reconcile(changed: seq<Row>, valid: seq<string>) returns (done: bool)
      modifies this
      ensures done <==> ReconcileRows(old(rows), changed, valid).Some?
      ensures rows == if done then ReconcileRows(old(rows), changed, valid).value else old(rows)
    {
      var seen: set<string> := {};
      for i := 0 to |valid|
        invariant rows == old(rows) && Distinct(valid[..i])
        invariant forall id :: id in seen <==> id in valid[..i]
      {
        assert valid[..i+1] == valid[..i] + [valid[i]];
        if valid[i] in seen {
          var k :| 0 <= k < i && valid[k] == valid[i];
          return false;
        }
        seen := seen + {valid[i]};
      }
      assert valid[..|valid|] == valid;
      for i := 0 to |changed|
        invariant rows == UpsertAll(old(rows), changed[..i])
      {
        assert changed[..i+1][..i] == changed[..i];
        rows := rows[changed[i].id := changed[i]];
      }
      assert changed[..|changed|] == changed;
      rows := map id | id in rows && id in seen :: rows[id];
      done := true;
    }
  }

  class Catalog {
    var artifacts: map<Place, Stored>
    var dirs: set<Place>
    var aliases: map<string, string>
    const index: CatalogIndex
    // Python's Unicode table.
    const blank: char -> bool

    constructor (blank: char -> bool, storage: Storage)
      ensures View() == storage.(table := map[]) && this.blank == blank && fresh(index)
    {
      artifacts, dirs, aliases := storage.artifacts, storage.dirs, storage.aliases;
      this.blank := blank;
      index := new CatalogIndex();
    }

    ghost function View(): Storage
      reads this, index
    {
      Storage(artifacts, dirs, aliases, index.rows)
    }

    // ---- indexing ------------------------------------------------------------------

    method IndexArtifact(place: Place, manifest: Manifest, works: bool)
      requires place in artifacts
      modifies index
      ensures View() == Index(blank, old(View()), place, manifest, works)
    {
      var summary := Summary(blank, place, manifest, artifacts[place], aliases);
      if summary.Some? && works { index.Upsert(summary.value); }
    }

    // The loop of `reconcile_index` over the manifests found by the walk.
    method ReconcileIndex(listing: seq<Place>, readable: bool)
      requires forall p :: p in listing ==> p in artifacts
      modifies index
      ensures View() == Reconcile(blank, old(View()), listing, readable)
    {
      if !readable { index.Recreate(); }
      ghost var c := View();
      var changed: seq<Row>, valid: seq<string> := [], [];
      ghost var scan := Scan([], [], false);
      for i := 0 to |listing|
        invariant View() == c && scan == ScanAll(blank, c, listing[..i]) && scan == Scan(changed, valid, false)
      {
        assert listing[..i+1][..i] == listing[..i];
        scan := ScanOne(blank, c, listing[i], scan);
        var place := listing[i];
        var stored := artifacts[place];
        var candidate := IdentityOfPath(blank, Join(place, '/'));
        if candidate.None? { continue; }
        if FingerprintMatches(index.rows, candidate.value, stored, aliases) {
          valid := valid + [candidate.value];
          continue;
        }
        if stored.file.Future? {
          FutureStays(blank, c, listing, i + 1);
          return;
        }
        if stored.file.Broken? { continue; }
        var summary := Summary(blank, place, stored.file.manifest, stored, aliases);
        if summary.None? { continue; }
        changed := changed + [summary.value];
        valid := valid + [summary.value.id];
      }
      assert listing[..|listing|] == listing;
      var done := index.Reconcile(changed, valid);
    }

    // ---- publishing ------------------------------------------------------------------

    method Publish(manifest: Manifest, mtime: int, size: nat, indexWorks: bool) returns (outcome: Outcome)
      modifies this, index
      ensures (View(), outcome) == CatalogModel.Publish(blank, old(View()), manifest, mtime, size, indexWorks)
      ensures PublishDecided(blank, old(View()), manifest, mtime, size, indexWorks, View(), outcome)
    {
      PublishDecides(blank, View(), manifest, mtime, size, indexWorks);
      hide PlaceOf, Summary;
      var destination := PlaceOf(blank, manifest.source);
      if destination.None? { return BadPath; }
      var place := destination.value;
      dirs := dirs + Parents(place);
      if place in artifacts {
        var existing := artifacts[place].file;
        if !existing.Good? { return Unreadable; }
        if existing.manifest.contentSha256 != manifest.contentSha256 { return Collision; }
        IndexArtifact(place, existing.manifest, indexWorks);
        return Done(true);
      }
      if place in dirs { return Unreadable; }
      artifacts := artifacts[place := Stored(Good(manifest), mtime, size)];
      IndexArtifact(place, manifest, indexWorks);
      outcome := Done(false);
    }

    // ---- aliases -----------------------------------------------------------------------

    method AliasTaken(alias: string, id: string) returns (taken: bool)
      ensures taken <==> exists other :: other in aliases && aliases[other] == alias && other != id
    {
      var rest := aliases.Keys;
      while rest != {}
        invariant rest <= aliases.Keys
        invariant forall other :: other in aliases && other !in rest ==> aliases[other] != alias || other == id
        decreases |rest|
      {
        var other :| other in rest;
        if aliases[other] == alias && other != id { return true; }
        rest := rest - {other};
      }
      taken := false;
    }

    method SetAlias(id: string, alias: Option<string>, indexWorks: bool, listing: seq<Place>) returns (outcome: Outcome)
      requires forall p :: p in listing ==> p in artifacts
      modifies this, index
      ensures (View(), outcome) == CatalogModel.SetAlias(blank, old(View()), id, alias, indexWorks, listing)
    {
      hide PlaceOf, Summary, Reconcile;
      var place := Find(blank, Storage(artifacts, dirs, aliases, index.rows), id);
      if place.None? { return NotFound; }
      if alias.Some? {
        var taken := AliasTaken(alias.value, id);
        if taken { return Taken; }
      }
      aliases := Aliased(aliases, id, alias);
      IndexArtifact(place.value, artifacts[place.value].file.manifest, indexWorks);
      if id in index.rows && index.rows[id].alias == alias { return Done(false); }
      ReconcileIndex(listing, true);
      outcome := if id in index.rows && index.rows[id].alias == alias then Done(false) else Lost;
    }

    // ---- deletion ----------------------------------------------------------------------

    // The registry is only written when the artifact has an alias.
    method Delete(id: string, registryFails: bool, indexFails: bool) returns (outcome: Outcome)
      modifies this, index
      ensures var works := !(id in old(aliases) && registryFails) && !indexFails;
              (View(), outcome) == CatalogModel.Delete(blank, old(View()), id, works)
    {
      hide PlaceOf, Pruned;
      var place := Find(blank, Storage(artifacts, dirs, aliases, index.rows), id);
      if place.None? { return NotFound; }
      var tombstone := artifacts[place.value];
      artifacts := artifacts - {place.value};
      var registry := aliases;
      var failed := id in aliases && registryFails;
      if !failed {
        aliases := aliases - {id};
        if indexFails { failed := true; } else { index.Delete(id); }
      }
      if failed {
        aliases := registry;
        artifacts := artifacts[place.value := tombstone];
        assert artifacts == old(artifacts);
        return RolledBack;
      }
      RemoveEmptyParents(place.value);
      outcome := Done(false);
    }

    method RemoveEmptyParents(place: Place)
      modifies this`dirs
      ensures dirs == Pruned(artifacts, old(dirs), Parent(place))
    {
      var parent := Parent(place);
      while parent != []
        invariant Pruned(artifacts, dirs, parent) == Pruned(artifacts, old(dirs), Parent(place))
        decreases |parent|
      {
        if !Empty(artifacts, dirs, parent) { break; }
        dirs := dirs - {parent};
        parent := Parent(parent);
      }
    }
  }

  // Once a scan has met a future schema version it stays stopped.
  lemma {:induction false} FutureStays(blank: char -> bool, c: Storage, listing: seq<Place>, i: nat)
    requires i <= |listing| && forall p :: p in listing ==> p in c.artifacts
    requires ScanAll(blank, c, listing[..i]).future
    ensures ScanAll(blank, c, listing).future
    decreases |listing| - i
  {
    if i < |listing| {
      assert listing[..i+1][..i] == listing[..i];
      FutureStays(blank, c, listing, i + 1);
    } else {
      assert listing[..i] == listing;
    }
  }
}
