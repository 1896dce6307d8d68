// The catalog over whole histories: the index stays what a rebuild would give,
// published content never changes, and delete is all or nothing.
module CatalogHistory {
  import opened TaskTypes
  import opened Identity
  import opened CatalogModel
  import opened CatalogIndexProofs

  // ---- invariants ------------------------------------------------------------------------

  // Parents are directories; nothing is both a directory and an artifact, so
  // artifacts are never nested.
  ghost predicate Rooted(c: Storage) {
    && (forall p :: p in c.artifacts ==> Parents(p) <= c.dirs)
    && (forall d :: d in c.dirs ==> d != [] && Parents(d) <= c.dirs && d !in c.artifacts)
  }

  ghost predicate Healthy(blank: char -> bool, c: Storage) {
    Genuine(blank, c) && Rooted(c) && Faithful(blank, c)
  }

  lemma ParentsNest(p: Place, q: Place)
    requires q in Parents(p)
    ensures Parents(q) <= Parents(p) && q != [] && Below(p, q)
  {
    var n :| 0 < n < |p| && q == p[..n];
    forall r | r in Parents(q) ensures r in Parents(p) {
      var k :| 0 < k < |q| && r == q[..k];
      assert r == p[..k];
    }
  }

  // ---- index writes ------------------------------------------------------------------------

  lemma IndexFaithful(blank: char -> bool, c: Storage, p: Place, works: bool)
    requires Genuine(blank, c) && Faithful(blank, c) && p in c.artifacts && c.artifacts[p].file.Good?
    ensures var d := Index(blank, c, p, c.artifacts[p].file.manifest, works);
            && Faithful(blank, d) && d == c.(table := d.table) && (works ==> HasRow(d.table, RowAt(blank, c, p).value))
  {
    var d := Index(blank, c, p, c.artifacts[p].file.manifest, works);
    hide ArtifactIdentity, PlaceOf;
    forall id | id in d.table ensures d.table[id].id == id && exists q :: q in d.artifacts && Stale(blank, d, q, d.table[id]) {
      if works && id == c.artifacts[p].file.manifest.id {
        assert Stale(blank, d, p, d.table[id]);
      } else {
        var q :| q in c.artifacts && Stale(blank, c, q, c.table[id]);
        assert Stale(blank, d, q, d.table[id]);
      }
    }
  }

  // A working write of the only missing row makes the table accurate.
  lemma IndexAccurate(blank: char -> bool, c: Storage, p: Place)
    requires Genuine(blank, c) && p in c.artifacts && c.artifacts[p].file.Good? && AccurateBut(blank, c, p)
    ensures Accurate(blank, Index(blank, c, p, c.artifacts[p].file.manifest, true))
  {
    var m := c.artifacts[p].file.manifest;
    var d := Index(blank, c, p, m, true);
    assert forall q :: q in c.artifacts ==> RowAt(blank, d, q) == RowAt(blank, c, q);
    assert d.table == c.table[m.id := RowAt(blank, c, p).value];
    assert RowAt(blank, c, p).value.id == m.id;
    forall q | q in c.artifacts && RowAt(blank, c, q).Some? ensures HasRow(d.table, RowAt(blank, c, q).value) {
      if RowAt(blank, c, q).value.id == m.id { SameIdSamePlace(blank, c, p, q); }
    }
    hide RowAt, Genuine, Index;
    forall id | id in d.table ensures exists q :: q in c.artifacts && RowAt(blank, c, q) == Some(d.table[id]) && d.table[id].id == id {
      if id == m.id {
        assert RowAt(blank, c, p) == Some(d.table[id]) && d.table[id].id == id;
      } else {
        var q :| q in c.artifacts && RowAt(blank, c, q) == Some(c.table[id]) && c.table[id].id == id;
        assert RowAt(blank, c, q) == Some(d.table[id]) && d.table[id].id == id;
      }
    }
  }

  // Accurate apart from the row of one directory.
  ghost predicate AccurateBut(blank: char -> bool, c: Storage, p: Place)
    requires p in c.artifacts && c.artifacts[p].file.Good?
  {
    && (forall q :: q in c.artifacts && q != p && RowAt(blank, c, q).Some? ==> HasRow(c.table, RowAt(blank, c, q).value))
    && (forall id :: id in c.table && id != c.artifacts[p].file.manifest.id ==>
         exists q :: q in c.artifacts && RowAt(blank, c, q) == Some(c.table[id]) && c.table[id].id == id)
  }

  // ---- publish --------------------------------------------------------------------------------

  // The new directory, before its row is written.
  function WithArtifact(c: Storage, p: Place, m: Manifest, mtime: int, size: nat): Storage {
    c.(dirs := c.dirs + Parents(p), artifacts := c.artifacts[p := Stored(Good(m), mtime, size)])
  }

  ghost predicate Apart(c: Storage, p: Place) {
    forall q :: q in c.artifacts ==> !Below(p, q)
  }

  lemma ParentsRooted(c: Storage, p: Place)
    requires Rooted(c) && Apart(c, p)
    ensures Rooted(c.(dirs := c.dirs + Parents(p)))
  {
    forall d | d in Parents(p) ensures d != [] && Parents(d) <= c.dirs + Parents(p) && d !in c.artifacts {
      ParentsNest(p, d);
    }
  }

  lemma AddedRooted(c: Storage, p: Place, m: Manifest, mtime: int, size: nat)
    requires Rooted(c) && Apart(c, p) && p !in c.dirs + Parents(p)
    ensures Rooted(WithArtifact(c, p, m, mtime, size))
  {
    ParentsRooted(c, p);
  }

  lemma DirsFaithful(blank: char -> bool, c: Storage, d: Storage)
    requires Genuine(blank, c) && Faithful(blank, c) && d == c.(dirs := d.dirs)
    ensures Genuine(blank, d) && Faithful(blank, d) && (Accurate(blank, c) ==> Accurate(blank, d))
  {
    assert forall q :: q in c.artifacts ==> RowAt(blank, d, q) == RowAt(blank, c, q);
    hide RowAt, Belongs;
    forall id | id in d.table ensures exists q :: q in d.artifacts && Stale(blank, d, q, d.table[id]) {
      var q :| q in c.artifacts && Stale(blank, c, q, c.table[id]);
      assert Stale(blank, d, q, d.table[id]);
    }
  }

  lemma AddedFaithful(blank: char -> bool, c: Storage, p: Place, m: Manifest, mtime: int, size: nat)
    requires Genuine(blank, c) && Faithful(blank, c) && p !in c.artifacts && Named(p) && Belongs(blank, p, m)
    ensures var d := WithArtifact(c, p, m, mtime, size); Genuine(blank, d) && Faithful(blank, d)
  {
    var d := WithArtifact(c, p, m, mtime, size);
    assert forall q :: q in c.artifacts ==> RowAt(blank, d, q) == RowAt(blank, c, q);
    hide RowAt, Belongs, Named;
    forall id | id in d.table ensures exists q :: q in d.artifacts && Stale(blank, d, q, d.table[id]) {
      var q :| q in c.artifacts && Stale(blank, c, q, c.table[id]);
      assert Stale(blank, d, q, d.table[id]);
    }
  }

  lemma AddedAccurate(blank: char -> bool, c: Storage, p: Place, m: Manifest, mtime: int, size: nat)
    requires Genuine(blank, c) && Accurate(blank, c) && p !in c.artifacts
    ensures AccurateBut(blank, WithArtifact(c, p, m, mtime, size), p)
  {
    var d := WithArtifact(c, p, m, mtime, size);
    assert forall q :: q in c.artifacts ==> RowAt(blank, d, q) == RowAt(blank, c, q);
    hide RowAt, Genuine;
    forall id | id in d.table ensures exists q :: q in d.artifacts && RowAt(blank, d, q) == Some(d.table[id]) && d.table[id].id == id {
      var q :| q in c.artifacts && RowAt(blank, c, q) == Some(c.table[id]) && c.table[id].id == id;
      assert q in d.artifacts && RowAt(blank, d, q) == Some(d.table[id]);
    }
  }

  lemma PublishNew(blank: char -> bool, c: Storage, m: Manifest, mtime: int, size: nat, works: bool)
    requires Healthy(blank, c) && Wellformed(m.source) && m.id == ArtifactIdentity(m.source)
    requires PlaceOf(blank, m.source).Some?
    requires var p := PlaceOf(blank, m.source).value; Apart(c, p) && p !in c.artifacts && p !in c.dirs + Parents(p)
    ensures var d := Publish(blank, c, m, mtime, size, works).0;
            Healthy(blank, d) && (Accurate(blank, c) && works ==> Accurate(blank, d))
  {
    var p := PlaceOf(blank, m.source).value;
    PlacePath(blank, m.source);
    var d := WithArtifact(c, p, m, mtime, size);
    assert Publish(blank, c, m, mtime, size, works).0 == Index(blank, d, p, m, works);
    assert Belongs(blank, p, m);
    AddedRooted(c, p, m, mtime, size);
    AddedFaithful(blank, c, p, m, mtime, size);
    IndexFaithful(blank, d, p, works);
    if Accurate(blank, c) && works {
      AddedAccurate(blank, c, p, m, mtime, size);
      IndexAccurate(blank, d, p);
    }
    var e := Index(blank, d, p, m, works);
    hide Publish, Index, Accurate, Faithful, PlaceOf, Belongs, ArtifactIdentity, Wellformed;
    assert e == d.(table := e.table);
  }

  lemma TableOnly(blank: char -> bool, c: Storage, d: Storage)
    requires Genuine(blank, c) && Rooted(c) && d == c.(table := d.table)
    ensures Genuine(blank, d) && Rooted(d)
  {
    hide Belongs, Named, Parents;
  }

  lemma PublishAgain(blank: char -> bool, c: Storage, p: Place, works: bool)
    requires Healthy(blank, c) && p in c.artifacts && c.artifacts[p].file.Good?
    ensures var b := c.(dirs := c.dirs + Parents(p));
            var d := Index(blank, b, p, c.artifacts[p].file.manifest, works);
            Healthy(blank, d) && (Accurate(blank, c) ==> Accurate(blank, d))
  {
    var b := c.(dirs := c.dirs + Parents(p));
    assert b == c;
    var d := Index(blank, c, p, c.artifacts[p].file.manifest, works);
    assert !works ==> d == c;
    IndexFaithful(blank, c, p, works);
    TableOnly(blank, c, d);
    hide Index, Accurate, Faithful, Genuine, Rooted, Parents, AccurateBut;
    if Accurate(blank, c) && works {
      AccurateIsAccurateBut(blank, c, p);
      IndexAccurate(blank, c, p);
    }
  }

  lemma AccurateIsAccurateBut(blank: char -> bool, c: Storage, p: Place)
    requires Accurate(blank, c) && p in c.artifacts && c.artifacts[p].file.Good?
    ensures AccurateBut(blank, c, p)
  {
    hide RowAt;
  }

  // What publishing leaves: the parents, and a row or a directory with its row.
  lemma PublishShape(blank: char -> bool, c: Storage, m: Manifest, mtime: int, size: nat, works: bool)
    requires PlaceOf(blank, m.source).Some?
    ensures var p, d := PlaceOf(blank, m.source).value, Publish(blank, c, m, mtime, size, works).0;
            var b := c.(dirs := c.dirs + Parents(p));
            if p in c.artifacts && c.artifacts[p].file.Good?
            then d == b || d == Index(blank, b, p, c.artifacts[p].file.manifest, works)
            else p in c.artifacts || p in b.dirs ==> d == b
    ensures var p := PlaceOf(blank, m.source).value;
            p in c.artifacts && c.artifacts[p].file.Good? && c.artifacts[p].file.manifest.contentSha256 != m.contentSha256
            ==> Publish(blank, c, m, mtime, size, works).0 == c.(dirs := c.dirs + Parents(p))
  {
    hide PlaceOf, Index, Parents;
  }

  lemma PublishHealthy(blank: char -> bool, c: Storage, m: Manifest, mtime: int, size: nat, works: bool)
    requires Healthy(blank, c) && Proper(blank, c, DoPublish(m, mtime, size, works))
    ensures var d := Publish(blank, c, m, mtime, size, works).0;
            Healthy(blank, d) && (Accurate(blank, c) && works ==> Accurate(blank, d))
  {
    if PlaceOf(blank, m.source).Some? {
      var p := PlaceOf(blank, m.source).value;
      var b := c.(dirs := c.dirs + Parents(p));
      assert Apart(c, p) && Wellformed(m.source) && m.id == ArtifactIdentity(m.source);
      ParentsRooted(c, p);
      DirsFaithful(blank, c, b);
      PublishShape(blank, c, m, mtime, size, works);
      assert Healthy(blank, b);
      hide *;
      if p in c.artifacts && c.artifacts[p].file.Good? {
        PublishAgain(blank, c, p, works);
      } else if p !in c.artifacts && p !in b.dirs {
        PublishNew(blank, c, m, mtime, size, works);
      }
    } else {
      hide PlaceOf, Healthy, Accurate;
    }
  }

  // ---- reconcile ----------------------------------------------------------------------------------

  lemma LastIn<T>(q: seq<T>)
    requires q != []
    ensures forall x :: x in q <==> x in q[..|q|-1] || x == q[|q|-1]
  {
    assert q == q[..|q|-1] + [q[|q|-1]];
  }

  lemma StopsScan(blank: char -> bool, c: Storage, p: Place, scan: Scan)
    requires p in c.artifacts && (scan.future || Stops(blank, c, p))
    ensures ScanOne(blank, c, p, scan).future
  {
    hide IdentityOfPath, FingerprintMatches, Summary;
  }

  lemma {:induction false} ScanStops(blank: char -> bool, c: Storage, listing: seq<Place>, p: Place)
    requires p in listing && (forall q :: q in listing ==> q in c.artifacts) && Stops(blank, c, p)
    ensures ScanAll(blank, c, listing).future
  {
    var init, last := listing[..|listing|-1], listing[|listing|-1];
    LastIn(listing);
    var scan := ScanAll(blank, c, init);
    assert ScanAll(blank, c, listing) == ScanOne(blank, c, last, scan);
    hide *;
    if p in init { ScanStops(blank, c, init, p); }
    StopsScan(blank, c, last, scan);
  }

  lemma ReconcileHealthy(blank: char -> bool, c: Storage, listing: seq<Place>)
    requires Healthy(blank, c) && Walks(c, listing)
    ensures var d := Reconcile(blank, c, listing, true);
            d == c.(table := d.table) && Healthy(blank, d) && (Readable(c) ==> Accurate(blank, d))
  {
    var d := Reconcile(blank, c, listing, true);
    ReconcileKeepsDisk(blank, c, listing);
    assert Rooted(d);
    assert Readable(c) ==> forall p :: p in c.artifacts ==> !Stops(blank, c, p);
    assert Keyed(c.table);
    hide Rooted, Genuine, Faithful, Accurate, Truthful, Walks, Stops, Readable;
    if p :| p in c.artifacts && Stops(blank, c, p) {
      WalksAll(c, listing);
      ScanStops(blank, c, listing, p);
      assert d == c;
    } else {
      hide Reconcile;
      FaithfulIsTruthful(blank, c);
      ReconcileExact(blank, c, listing);
      AccurateIsFaithful(blank, d);
    }
  }

  lemma WalksAll(c: Storage, listing: seq<Place>)
    requires Walks(c, listing)
    ensures forall p :: p in listing <==> p in c.artifacts
  {
  }

  lemma EmptiedHealthy(blank: char -> bool, c: Storage)
    requires Healthy(blank, c)
    ensures Healthy(blank, c.(table := map[]))
  {
    hide Belongs;
  }

  lemma RebuildHealthy(blank: char -> bool, c: Storage, listing: seq<Place>)
    requires Healthy(blank, c) && Walks(c, listing)
    ensures var d := Reconcile(blank, c, listing, false);
            d == c.(table := d.table) && Healthy(blank, d) && (Readable(c) ==> Accurate(blank, d))
  {
    var b := c.(table := map[]);
    assert Walks(b, listing) && (Readable(c) ==> Readable(b));
    assert Reconcile(blank, c, listing, false) == Reconcile(blank, b, listing, true);
    hide Reconcile, Healthy, Walks, Accurate, Readable;
    EmptiedHealthy(blank, c);
    ReconcileHealthy(blank, b, listing);
  }

  // ---- set_alias -----------------------------------------------------------------------------------

  // A found artifact is the one published with that id.
  lemma FindIsPublished(blank: char -> bool, c: Storage, id: string)
    requires Genuine(blank, c) && Faithful(blank, c) && Find(blank, c, id).Some?
    ensures var p := Find(blank, c, id).value;
            p in c.artifacts && c.artifacts[p].file.Good? && c.artifacts[p].file.manifest.id == id && Stale(blank, c, p, c.table[id])
  {
    var q :| q in c.artifacts && Stale(blank, c, q, c.table[id]);
    assert c.table[id].source == c.artifacts[q].file.manifest.source;
  }

  lemma RealiasedFaithful(blank: char -> bool, c: Storage, aliases: map<string, string>)
    requires Genuine(blank, c) && Faithful(blank, c)
    ensures Genuine(blank, c.(aliases := aliases)) && Faithful(blank, c.(aliases := aliases))
  {
    var d := c.(aliases := aliases);
    hide Belongs, PlaceOf, Named;
    forall id | id in d.table ensures exists q :: q in d.artifacts && Stale(blank, d, q, d.table[id]) {
      var q :| q in c.artifacts && Stale(blank, c, q, c.table[id]);
      assert Stale(blank, d, q, d.table[id]);
    }
  }

  lemma OtherRowsStay(blank: char -> bool, c: Storage, p: Place, q: Place, alias: Option<string>)
    requires Genuine(blank, c) && p in c.artifacts && q in c.artifacts && p != q && c.artifacts[p].file.Good?
    ensures RowAt(blank, c.(aliases := Aliased(c.aliases, c.artifacts[p].file.manifest.id, alias)), q) == RowAt(blank, c, q)
  {
    if RowAt(blank, c, q).Some? && RowAt(blank, c, q).value.id == c.artifacts[p].file.manifest.id { SameIdSamePlace(blank, c, p, q); }
  }

  lemma RealiasedAccurate(blank: char -> bool, c: Storage, p: Place, alias: Option<string>)
    requires Genuine(blank, c) && Accurate(blank, c) && p in c.artifacts && c.artifacts[p].file.Good?
    ensures AccurateBut(blank, c.(aliases := Aliased(c.aliases, c.artifacts[p].file.manifest.id, alias)), p)
  {
    var id := c.artifacts[p].file.manifest.id;
    var d := c.(aliases := Aliased(c.aliases, id, alias));
    forall q | q in c.artifacts && q != p ensures RowAt(blank, d, q) == RowAt(blank, c, q) {
      OtherRowsStay(blank, c, p, q, alias);
    }
    assert RowAt(blank, c, p).Some? && RowAt(blank, c, p).value.id == id;
    hide RowAt, Genuine;
    forall i | i in d.table && i != id ensures exists q :: q in d.artifacts && RowAt(blank, d, q) == Some(d.table[i]) && d.table[i].id == i {
      var q :| q in c.artifacts && RowAt(blank, c, q) == Some(c.table[i]) && c.table[i].id == i;
      assert q != p && RowAt(blank, d, q) == Some(d.table[i]);
    }
  }

  // A row that already shows the new alias needs no write.
  lemma ShownIsAccurate(blank: char -> bool, c: Storage, p: Place)
    requires Genuine(blank, c) && Faithful(blank, c) && p in c.artifacts && c.artifacts[p].file.Good? && AccurateBut(blank, c, p)
    requires Shows(c, c.artifacts[p].file.manifest.id, AliasOf(c.aliases, c.artifacts[p].file.manifest.id))
    ensures Accurate(blank, c)
  {
    var id := c.artifacts[p].file.manifest.id;
    var q :| q in c.artifacts && Stale(blank, c, q, c.table[id]);
    assert c.table[id].id == id;
    SameIdSamePlace(blank, c, p, q);
    assert RowAt(blank, c, p) == Some(c.table[id]);
    hide RowAt, Genuine, Faithful;
  }

  // The artifact has exactly this alias, every other keeps its own.
  predicate Renamed(aliases: map<string, string>, id: string, alias: Option<string>, after: map<string, string>) {
    && after.Keys == (if alias.Some? then aliases.Keys + {id} else aliases.Keys - {id})
    && forall other :: other in after ==> if other == id then alias == Some(after[other]) else after[other] == aliases[other]
  }

  lemma AliasOfAliased(aliases: map<string, string>, id: string, alias: Option<string>)
    ensures AliasOf(Aliased(aliases, id, alias), id) == alias
    ensures Renamed(aliases, id, alias, Aliased(aliases, id, alias))
  {
  }

  lemma SetAliasHealthy(blank: char -> bool, c: Storage, id: string, alias: Option<string>, works: bool, listing: seq<Place>)
    requires Healthy(blank, c) && Walks(c, listing)
    ensures var d := SetAlias(blank, c, id, alias, works, listing).0;
            Healthy(blank, d) && (Accurate(blank, c) && Readable(c) ==> Accurate(blank, d))
  {
    hide Reconcile, Realiased, Readable, Find, Shows, Genuine, Rooted, Faithful, Accurate;
    if Find(blank, c, id).Some? {
      FindIsPublished(blank, c, id);
      var p := Find(blank, c, id).value;
      RealiasFaithful(blank, c, p, id, alias, works, listing);
      if Accurate(blank, c) && Readable(c) { RealiasAccurate(blank, c, p, id, alias, works, listing); }
    }
  }

  // Refused without a trace, or the registry is written; the call succeeds
  // exactly when the row shows the alias, which a readable catalog guarantees
  // even when the first index write fails.
  lemma SetAliasDecides(blank: char -> bool, c: Storage, id: string, alias: Option<string>, works: bool, listing: seq<Place>)
    requires Healthy(blank, c) && Walks(c, listing)
    ensures var (d, outcome) := SetAlias(blank, c, id, alias, works, listing);
            var taken := alias.Some? && exists other :: other in c.aliases && c.aliases[other] == alias.value && other != id;
            && d.artifacts == c.artifacts && d.dirs == c.dirs
            && (Find(blank, c, id).None? ==> d == c && outcome == NotFound)
            && (Find(blank, c, id).Some? && taken ==> d == c && outcome == Taken)
            && (Find(blank, c, id).Some? && !taken ==>
                 && d.aliases == Aliased(c.aliases, id, alias) && Renamed(c.aliases, id, alias, d.aliases)
                 && outcome == (if Shows(d, id, alias) then Done(false) else Lost)
                 && (Readable(c) ==> outcome == Done(false)))
  {
    AliasOfAliased(c.aliases, id, alias);
    hide Reconcile, Realiased, Find, Aliased, Renamed, Shows, Genuine, Rooted, Faithful, Accurate, Readable;
    if Find(blank, c, id).Some? {
      FindIsPublished(blank, c, id);
      var p := Find(blank, c, id).value;
      RealiasHealthy(blank, c, p, alias, works);
      var e := Realiased(blank, c, id, p, alias, works);
      assert Walks(e, listing);
      hide Walks;
      ReconcileHealthy(blank, e, listing);
      var f := Reconcile(blank, e, listing, true);
      if Readable(c) {
        SameFiles(c, e);
        AccurateShows(blank, f, p, id, alias);
      }
    }
  }

  lemma SameFiles(c: Storage, d: Storage)
    requires d.artifacts == c.artifacts
    ensures Readable(c) <==> Readable(d)
  {
  }

  lemma AccurateShows(blank: char -> bool, c: Storage, p: Place, id: string, alias: Option<string>)
    requires Genuine(blank, c) && Accurate(blank, c) && p in c.artifacts && c.artifacts[p].file.Good? && c.artifacts[p].file.manifest.id == id
    requires AliasOf(c.aliases, id) == alias
    ensures Shows(c, id, alias)
  {
    assert RowAt(blank, c, p).Some?;
  }

  lemma RealiasHealthy(blank: char -> bool, c: Storage, p: Place, alias: Option<string>, works: bool)
    requires Healthy(blank, c) && p in c.artifacts && c.artifacts[p].file.Good?
    ensures var e := Realiased(blank, c, c.artifacts[p].file.manifest.id, p, alias, works);
            Healthy(blank, e) && e.artifacts == c.artifacts && e.dirs == c.dirs && e.aliases == Aliased(c.aliases, c.artifacts[p].file.manifest.id, alias)
  {
    var d := c.(aliases := Aliased(c.aliases, c.artifacts[p].file.manifest.id, alias));
    RealiasedFaithful(blank, c, d.aliases);
    IndexFaithful(blank, d, p, works);
    var e := Realiased(blank, c, c.artifacts[p].file.manifest.id, p, alias, works);
    assert e == d.(table := e.table);
    hide Realiased, Faithful;
  }

  lemma RealiasFaithful(blank: char -> bool, c: Storage, p: Place, id: string, alias: Option<string>, works: bool, listing: seq<Place>)
    requires Healthy(blank, c) && Walks(c, listing) && p in c.artifacts && c.artifacts[p].file.Good? && c.artifacts[p].file.manifest.id == id
    ensures var e := Realiased(blank, c, c.artifacts[p].file.manifest.id, p, alias, works);
            Healthy(blank, e) && e.artifacts == c.artifacts && Healthy(blank, Reconcile(blank, e, listing, true))
  {
    RealiasHealthy(blank, c, p, alias, works);
    var e := Realiased(blank, c, c.artifacts[p].file.manifest.id, p, alias, works);
    assert Walks(e, listing);
    hide Healthy, Realiased, Reconcile;
    ReconcileHealthy(blank, e, listing);
  }

  lemma RealiasReconciles(blank: char -> bool, c: Storage, p: Place, id: string, alias: Option<string>, works: bool, listing: seq<Place>)
    requires Healthy(blank, c) && Walks(c, listing) && p in c.artifacts && c.artifacts[p].file.Good? && c.artifacts[p].file.manifest.id == id
    requires Readable(c)
    ensures var e := Realiased(blank, c, id, p, alias, works);
            e.artifacts == c.artifacts && Accurate(blank, Reconcile(blank, e, listing, true))
  {
    var e := Realiased(blank, c, id, p, alias, works);
    RealiasHealthy(blank, c, p, alias, works);
    assert Walks(e, listing) && Readable(e);
    hide Realiased, Healthy, Accurate, Reconcile, Walks, Readable;
    ReconcileHealthy(blank, e, listing);
  }

  lemma RealiasShown(blank: char -> bool, c: Storage, p: Place, id: string, alias: Option<string>, works: bool)
    requires Healthy(blank, c) && p in c.artifacts && c.artifacts[p].file.Good? && c.artifacts[p].file.manifest.id == id
    requires Accurate(blank, c) && Shows(Realiased(blank, c, id, p, alias, works), id, alias)
    ensures Accurate(blank, Realiased(blank, c, id, p, alias, works))
  {
    var d := c.(aliases := Aliased(c.aliases, id, alias));
    RealiasedAccurate(blank, c, p, alias);
    SameArtifactsGenuine(blank, c, d);
    AliasOfAliased(c.aliases, id, alias);
    assert Realiased(blank, c, id, p, alias, works) == Index(blank, d, p, c.artifacts[p].file.manifest, works);
    assert !works ==> Realiased(blank, c, id, p, alias, works) == d;
    hide Realiased, Genuine, Rooted, Faithful, Accurate, AccurateBut, Index, Aliased, Renamed;
    if works { IndexAccurate(blank, d, p); } else { ShownIsAccurate(blank, d, p); }
  }

  lemma SameArtifactsGenuine(blank: char -> bool, c: Storage, d: Storage)
    requires Genuine(blank, c) && d.artifacts == c.artifacts
    ensures Genuine(blank, d)
  {
    hide Belongs, Named;
  }

  lemma RealiasAccurate(blank: char -> bool, c: Storage, p: Place, id: string, alias: Option<string>, works: bool, listing: seq<Place>)
    requires Healthy(blank, c) && Walks(c, listing) && p in c.artifacts && c.artifacts[p].file.Good? && c.artifacts[p].file.manifest.id == id
    requires Accurate(blank, c) && Readable(c)
    ensures var e := Realiased(blank, c, c.artifacts[p].file.manifest.id, p, alias, works);
            if Shows(e, id, alias) then Accurate(blank, e) else e.artifacts == c.artifacts && Accurate(blank, Reconcile(blank, e, listing, true))
  {
    RealiasReconciles(blank, c, p, id, alias, works, listing);
    hide Realiased, Healthy, Accurate, Reconcile, Walks, Readable;
    if Shows(Realiased(blank, c, id, p, alias, works), id, alias) { RealiasShown(blank, c, p, id, alias, works); }
  }

  // ---- delete ------------------------------------------------------------------------------------------

  // `d` is `q` or one of its parents.
  predicate OnPath(d: Place, q: Place) {
    0 < |d| <= |q| && d == q[..|d|]
  }

  // Nothing is left below `d` but directories on the way to `q`.
  predicate OnlyLeadsTo(artifacts: map<Place, Stored>, dirs: set<Place>, q: Place, d: Place) {
    && OnPath(d, q)
    && (forall p :: p in artifacts ==> !Below(p, d))
    && (forall e :: e in dirs && Below(e, d) ==> OnPath(e, q))
  }

  lemma OnPathParent(d: Place, q: Place)
    requires q != []
    ensures OnPath(d, q) <==> d == q || OnPath(d, Parent(q))
  {
    if 0 < |d| < |q| { assert q[..|d|] == Parent(q)[..|d|]; }
  }

  lemma BelowOnPath(p: Place, q: Place, d: Place)
    requires Below(p, q) && OnPath(d, q)
    ensures Below(p, d) && !OnPath(p, q)
  {
    assert p[..|d|] == q[..|d|];
  }

  // Removing empty parents upwards removes exactly the directories that only
  // lead to the deleted place.
  lemma {:induction false} PrunedExact(artifacts: map<Place, Stored>, dirs: set<Place>, q: Place, d: Place)
    ensures d in Pruned(artifacts, dirs, q) <==> d in dirs && !OnlyLeadsTo(artifacts, dirs, q, d)
    decreases |q|
  {
    if q == [] {
    } else if !Empty(artifacts, dirs, q) {
      if OnPath(d, q) {
        if p :| p in artifacts && Below(p, q) {
          BelowOnPath(p, q, d);
        } else {
          var e :| e in dirs && Below(e, q);
          BelowOnPath(e, q, d);
        }
      }
    } else {
      PrunedExact(artifacts, dirs - {q}, Parent(q), d);
      OnPathParent(d, q);
      forall e | e in dirs ensures OnPath(e, q) <==> e == q || OnPath(e, Parent(q)) { OnPathParent(e, q); }
      if d == q {
        assert OnlyLeadsTo(artifacts, dirs, q, d);
      } else {
        assert OnlyLeadsTo(artifacts, dirs, q, d) <==> OnlyLeadsTo(artifacts, dirs - {q}, Parent(q), d);
      }
    }
  }

  lemma DeletedRooted(c: Storage, p: Place)
    requires Rooted(c) && p in c.artifacts
    ensures var artifacts := c.artifacts - {p};
            Rooted(c.(artifacts := artifacts, dirs := Pruned(artifacts, c.dirs, Parent(p))))
  {
    var artifacts := c.artifacts - {p};
    var dirs := Pruned(artifacts, c.dirs, Parent(p));
    forall d ensures d in dirs <==> d in c.dirs && !OnlyLeadsTo(artifacts, c.dirs, Parent(p), d) {
      PrunedExact(artifacts, c.dirs, Parent(p), d);
    }
    forall r, d | r in artifacts && d in Parents(r) ensures d in dirs {
      ParentsNest(r, d);
    }
    forall e, d | e in dirs && d in Parents(e) ensures d in dirs {
      ParentsNest(e, d);
      if OnlyLeadsTo(artifacts, c.dirs, Parent(p), d) {
        LeadsOn(artifacts, c.dirs, Parent(p), d, e);
      }
    }
  }

  lemma LeadsOn(artifacts: map<Place, Stored>, dirs: set<Place>, q: Place, d: Place, e: Place)
    requires OnlyLeadsTo(artifacts, dirs, q, d) && e in dirs && Below(e, d)
    ensures OnlyLeadsTo(artifacts, dirs, q, e)
  {
    forall x | Below(x, e) ensures Below(x, d) {
      assert x[..|d|] == e[..|d|];
    }
  }

  lemma DeletedFaithful(blank: char -> bool, c: Storage, p: Place, id: string, dirs: set<Place>)
    requires Genuine(blank, c) && Faithful(blank, c) && p in c.artifacts && c.artifacts[p].file.Good? && c.artifacts[p].file.manifest.id == id
    ensures var d := Storage(c.artifacts - {p}, dirs, c.aliases - {id}, c.table - {id}); Genuine(blank, d) && Faithful(blank, d)
  {
    var d := Storage(c.artifacts - {p}, dirs, c.aliases - {id}, c.table - {id});
    hide Belongs, Named, PlaceOf;
    forall i | i in d.table ensures d.table[i].id == i && exists q :: q in d.artifacts && Stale(blank, d, q, d.table[i]) {
      var q :| q in c.artifacts && Stale(blank, c, q, c.table[i]);
      assert q != p && Stale(blank, d, q, d.table[i]);
    }
  }

  function WithoutArtifact(c: Storage, p: Place, id: string, dirs: set<Place>): Storage {
    Storage(c.artifacts - {p}, dirs, c.aliases - {id}, c.table - {id})
  }

  lemma DeletedRow(blank: char -> bool, c: Storage, p: Place, id: string, dirs: set<Place>, q: Place)
    requires Genuine(blank, c) && p in c.artifacts && c.artifacts[p].file.Good? && c.artifacts[p].file.manifest.id == id
    requires q in c.artifacts && q != p
    ensures q in WithoutArtifact(c, p, id, dirs).artifacts && RowAt(blank, WithoutArtifact(c, p, id, dirs), q) == RowAt(blank, c, q)
    ensures RowAt(blank, c, q).Some? ==> RowAt(blank, c, q).value.id != id
  {
    OtherRowsStay(blank, c, p, q, None);
    if RowAt(blank, c, q).Some? && RowAt(blank, c, q).value.id == id { SameIdSamePlace(blank, c, p, q); }
  }

  lemma DeletedBacked(blank: char -> bool, c: Storage, p: Place, id: string, dirs: set<Place>, i: string)
    requires Genuine(blank, c) && p in c.artifacts && c.artifacts[p].file.Good? && c.artifacts[p].file.manifest.id == id
    requires i in c.table && i != id && Backed(blank, c, i)
    ensures Backed(blank, WithoutArtifact(c, p, id, dirs), i)
  {
    var d := WithoutArtifact(c, p, id, dirs);
    var q :| q in c.artifacts && RowAt(blank, c, q) == Some(c.table[i]) && c.table[i].id == i;
    assert RowAt(blank, c, p).Some? ==> RowAt(blank, c, p).value.id == id;
    DeletedRow(blank, c, p, id, dirs, q);
    hide RowAt, Genuine;
    assert RowAt(blank, d, q) == Some(d.table[i]);
  }

  lemma DeletedAccurate(blank: char -> bool, c: Storage, p: Place, id: string, dirs: set<Place>)
    requires Genuine(blank, c) && Accurate(blank, c) && p in c.artifacts && c.artifacts[p].file.Good? && c.artifacts[p].file.manifest.id == id
    ensures Accurate(blank, WithoutArtifact(c, p, id, dirs))
  {
    var d := WithoutArtifact(c, p, id, dirs);
    hide RowAt, Genuine;
    forall q | q in d.artifacts && RowAt(blank, d, q).Some? ensures HasRow(d.table, RowAt(blank, d, q).value) {
      DeletedRow(blank, c, p, id, dirs, q);
      hide Backed;
    }
    hide HasRow;
    forall i | i in d.table ensures Backed(blank, d, i) {
      DeletedBacked(blank, c, p, id, dirs, i);
      hide Backed;
    }
  }

  lemma DeleteShape(blank: char -> bool, c: Storage, id: string)
    requires Healthy(blank, c) && Find(blank, c, id).Some?
    ensures var p := Find(blank, c, id).value;
            p in c.artifacts && c.artifacts[p].file.Good? && c.artifacts[p].file.manifest.id == id
            && Delete(blank, c, id, true).0 == WithoutArtifact(c, p, id, Pruned(c.artifacts - {p}, c.dirs, Parent(p)))
  {
    FindIsPublished(blank, c, id);
    hide Find, Pruned;
  }

  lemma DeletedHealthy(blank: char -> bool, c: Storage, p: Place, id: string)
    requires Healthy(blank, c) && p in c.artifacts && c.artifacts[p].file.Good? && c.artifacts[p].file.manifest.id == id
    ensures Healthy(blank, WithoutArtifact(c, p, id, Pruned(c.artifacts - {p}, c.dirs, Parent(p))))
  {
    var dirs := Pruned(c.artifacts - {p}, c.dirs, Parent(p));
    DeletedRooted(c, p);
    DeletedFaithful(blank, c, p, id, dirs);
    hide Pruned, Genuine, Faithful;
  }

  lemma DeleteHealthy(blank: char -> bool, c: Storage, id: string, works: bool)
    requires Healthy(blank, c)
    ensures var d := Delete(blank, c, id, works).0; Healthy(blank, d) && (Accurate(blank, c) ==> Accurate(blank, d))
  {
    if Find(blank, c, id).Some? && works {
      DeleteShape(blank, c, id);
      var p := Find(blank, c, id).value;
      DeletedHealthy(blank, c, p, id);
      if Accurate(blank, c) { DeletedAccurate(blank, c, p, id, Pruned(c.artifacts - {p}, c.dirs, Parent(p))); }
      hide Delete, Pruned, Find, Healthy, Accurate, WithoutArtifact;
    } else {
      hide Find, Healthy, Accurate;
    }
  }

  // Directory, alias and row go together, and with them exactly the parents
  // that led nowhere else; or nothing changes at all.
  lemma DeleteAllOrNothing(blank: char -> bool, c: Storage, id: string, works: bool)
    requires Healthy(blank, c)
    ensures var (d, outcome) := Delete(blank, c, id, works);
            && (outcome != Done(false) ==> d == c)
            && outcome == (if Find(blank, c, id).None? then NotFound else if works then Done(false) else RolledBack)
            && (outcome == Done(false) ==>
                var p := Find(blank, c, id).value;
                && p in c.artifacts && c.artifacts[p].file.Good? && c.artifacts[p].file.manifest.id == id
                && d.artifacts == c.artifacts - {p} && d.aliases == c.aliases - {id} && d.table == c.table - {id}
                && (forall q :: q in d.artifacts && d.artifacts[q].file.Good? ==> d.artifacts[q].file.manifest.id != id)
                && (forall q :: q in d.dirs <==> q in c.dirs && !OnlyLeadsTo(d.artifacts, c.dirs, Parent(p), q)))
  {
    if Find(blank, c, id).Some? && works {
      FindIsPublished(blank, c, id);
      var p := Find(blank, c, id).value;
      var artifacts := c.artifacts - {p};
      forall q ensures q in Pruned(artifacts, c.dirs, Parent(p)) <==> q in c.dirs && !OnlyLeadsTo(artifacts, c.dirs, Parent(p), q) {
        PrunedExact(artifacts, c.dirs, Parent(p), q);
      }
      forall q | q in artifacts && artifacts[q].file.Good? ensures artifacts[q].file.manifest.id != id {
        if artifacts[q].file.manifest.id == id { SameIdSamePlace(blank, c, p, q); }
      }
    }
  }

  // With an accurate table, every published artifact can be found and deleted.
  lemma PublishedIsFound(blank: char -> bool, c: Storage, p: Place)
    requires Healthy(blank, c) && Accurate(blank, c) && p in c.artifacts && c.artifacts[p].file.Good?
    ensures Find(blank, c, c.artifacts[p].file.manifest.id) == Some(p)
  {
    assert RowAt(blank, c, p).Some?;
  }

  // ---- histories ------------------------------------------------------------------------------------------

  ghost predicate ProperRun(blank: char -> bool, c: Storage, steps: seq<Step>)
    decreases |steps|, 0
  {
    steps == [] || (ProperRun(blank, c, steps[..|steps|-1]) && Proper(blank, After(blank, c, steps[..|steps|-1]), steps[|steps|-1]))
  }

  ghost function After(blank: char -> bool, c: Storage, steps: seq<Step>): Storage
    requires ProperRun(blank, c, steps)
    decreases |steps|, 1
  {
    if steps == [] then c else Next(blank, After(blank, c, steps[..|steps|-1]), steps[|steps|-1])
  }

  predicate IndexWriteWorks(step: Step) {
    step.DoPublish? ==> step.indexWorks
  }

  lemma StepHealthy(blank: char -> bool, c: Storage, step: Step)
    requires Healthy(blank, c) && Proper(blank, c, step)
    ensures Healthy(blank, Next(blank, c, step))
    ensures Accurate(blank, c) && Readable(c) && IndexWriteWorks(step) ==> Accurate(blank, Next(blank, c, step))
    ensures step.DoReconcile? && Readable(c) ==> Accurate(blank, Next(blank, c, step))
  {
    hide Healthy, Accurate, Readable, Publish, SetAlias, Delete, Reconcile, PlaceOf, ArtifactIdentity, Wellformed;
    match step
    case DoPublish(m, mtime, size, works) => PublishHealthy(blank, c, m, mtime, size, works);
    case DoSetAlias(id, alias, works, listing) => SetAliasHealthy(blank, c, id, alias, works, listing);
    case DoDelete(id, works) => DeleteHealthy(blank, c, id, works);
    case DoReconcile(listing, readable) =>
      if readable { ReconcileHealthy(blank, c, listing); } else { RebuildHealthy(blank, c, listing); }
  }

  // Published directories never change; only their own delete removes them.
  lemma StepKeepsPublished(blank: char -> bool, c: Storage, step: Step, p: Place)
    requires Healthy(blank, c) && Proper(blank, c, step) && p in c.artifacts
    ensures var d := Next(blank, c, step);
            if p in d.artifacts then d.artifacts[p] == c.artifacts[p]
            else c.artifacts[p].file.Good? && step.DoDelete? && step.id == c.artifacts[p].file.manifest.id
  {
    hide Publish, SetAlias, Reconcile, Delete, Healthy;
    match step
    case DoPublish(m, mtime, size, works) => PublishKeeps(blank, c, m, mtime, size, works, p);
    case DoSetAlias(id, alias, works, listing) => SetAliasKeeps(blank, c, id, alias, works, listing);
    case DoDelete(id, works) => DeleteKeeps(blank, c, id, works, p);
    case DoReconcile(listing, readable) => ReconcileOnlyTable(blank, c, listing, readable);
  }

  lemma PublishKeeps(blank: char -> bool, c: Storage, m: Manifest, mtime: int, size: nat, works: bool, p: Place)
    requires p in c.artifacts
    ensures var d := Publish(blank, c, m, mtime, size, works).0; p in d.artifacts && d.artifacts[p] == c.artifacts[p]
  {
    hide PlaceOf, Summary;
  }

  lemma SetAliasKeeps(blank: char -> bool, c: Storage, id: string, alias: Option<string>, works: bool, listing: seq<Place>)
    requires forall p :: p in listing ==> p in c.artifacts
    ensures SetAlias(blank, c, id, alias, works, listing).0.artifacts == c.artifacts
  {
    hide PlaceOf, Summary, Reconcile;
    if Find(blank, c, id).Some? {
      var e := Realiased(blank, c, id, Find(blank, c, id).value, alias, works);
      ReconcileOnlyTable(blank, e, listing, true);
    }
  }

  lemma DeleteKeeps(blank: char -> bool, c: Storage, id: string, works: bool, p: Place)
    requires Healthy(blank, c) && p in c.artifacts
    ensures var d := Delete(blank, c, id, works).0;
            if p in d.artifacts then d.artifacts[p] == c.artifacts[p]
            else c.artifacts[p].file.Good? && id == c.artifacts[p].file.manifest.id
  {
    if Find(blank, c, id).Some? && works { DeleteShape(blank, c, id); hide Delete; }
    hide Find, Healthy, Pruned;
  }

  lemma ReconcileOnlyTable(blank: char -> bool, c: Storage, listing: seq<Place>, readable: bool)
    requires forall p :: p in listing ==> p in c.artifacts
    ensures Reconcile(blank, c, listing, readable).artifacts == c.artifacts && Reconcile(blank, c, listing, readable).aliases == c.aliases
  {
    hide ScanAll, ReconcileRows;
  }

  // New directories hold a manifest that can be read.
  lemma StepReadable(blank: char -> bool, c: Storage, step: Step)
    requires Healthy(blank, c) && Proper(blank, c, step) && Readable(c)
    ensures Readable(Next(blank, c, step))
  {
    var d := Next(blank, c, step);
    forall p | p in d.artifacts && p !in c.artifacts ensures d.artifacts[p].file.Good? {
      OnlyPublishAdds(blank, c, step, p);
    }
    forall p | p in c.artifacts ensures p in d.artifacts ==> d.artifacts[p] == c.artifacts[p] {
      StepKeepsPublished(blank, c, step, p);
    }
    hide Next;
  }

  lemma OnlyPublishAdds(blank: char -> bool, c: Storage, step: Step, p: Place)
    requires Proper(blank, c, step) && p !in c.artifacts && p in Next(blank, c, step).artifacts
    ensures step.DoPublish? && Next(blank, c, step).artifacts[p].file == Good(step.manifest) && PlaceOf(blank, step.manifest.source) == Some(p)
  {
    hide SetAlias, Reconcile, Find, PlaceOf, Summary, Pruned;
    match step
    case DoPublish(m, mtime, size, works) =>
    case DoSetAlias(id, alias, works, listing) => SetAliasKeeps(blank, c, id, alias, works, listing);
    case DoDelete(id, works) =>
    case DoReconcile(listing, readable) => ReconcileOnlyTable(blank, c, listing, readable);
  }

  // No two artifacts ever have the same alias.
  ghost predicate AliasesUnique(aliases: map<string, string>) {
    forall a, b :: a in aliases && b in aliases && a != b ==> aliases[a] != aliases[b]
  }

  lemma AliasedStaysUnique(aliases: map<string, string>, id: string, alias: Option<string>)
    requires AliasesUnique(aliases) && (alias.Some? ==> forall other :: other in aliases && aliases[other] == alias.value ==> other == id)
    ensures AliasesUnique(Aliased(aliases, id, alias)) && AliasesUnique(aliases - {id})
  {
  }

  lemma PublishKeepsAliases(blank: char -> bool, c: Storage, m: Manifest, mtime: int, size: nat, works: bool)
    ensures Publish(blank, c, m, mtime, size, works).0.aliases == c.aliases
  {
    hide PlaceOf, Summary;
  }

  lemma DeleteAliases(blank: char -> bool, c: Storage, id: string, works: bool)
    ensures Delete(blank, c, id, works).0.aliases in {c.aliases, c.aliases - {id}}
  {
    hide Find, Pruned;
  }

  lemma StepKeepsAliasesUnique(blank: char -> bool, c: Storage, step: Step)
    requires Healthy(blank, c) && Proper(blank, c, step) && AliasesUnique(c.aliases)
    ensures AliasesUnique(Next(blank, c, step).aliases)
  {
    hide Healthy, Find, Publish, SetAlias, Delete, Reconcile, AliasesUnique;
    match step
    case DoPublish(m, mtime, size, works) => PublishKeepsAliases(blank, c, m, mtime, size, works);
    case DoSetAlias(id, alias, works, listing) =>
      SetAliasDecides(blank, c, id, alias, works, listing);
      if SetAlias(blank, c, id, alias, works, listing).0 != c { AliasedStaysUnique(c.aliases, id, alias); }
    case DoDelete(id, works) =>
      DeleteAliases(blank, c, id, works);
      AliasedStaysUnique(c.aliases, id, None);
    case DoReconcile(listing, readable) => ReconcileOnlyTable(blank, c, listing, readable);
  }

  lemma RunLast(blank: char -> bool, c: Storage, steps: seq<Step>)
    requires ProperRun(blank, c, steps) && steps != []
    ensures var init, last := steps[..|steps|-1], steps[|steps|-1];
            && (forall s :: s in steps <==> s in init || s == last)
            && ProperRun(blank, c, init) && Proper(blank, After(blank, c, init), last)
            && After(blank, c, steps) == Next(blank, After(blank, c, init), last)
  {
    hide Proper, Next;
    LastIn(steps);
  }

  lemma {:induction false} HistoryHealthy(blank: char -> bool, c: Storage, steps: seq<Step>)
    requires Healthy(blank, c) && ProperRun(blank, c, steps)
    ensures Healthy(blank, After(blank, c, steps))
  {
    if steps != [] {
      RunLast(blank, c, steps);
      hide *;
      HistoryHealthy(blank, c, steps[..|steps|-1]);
      StepHealthy(blank, After(blank, c, steps[..|steps|-1]), steps[|steps|-1]);
    }
  }

  // Unless a manifest of a later schema stops every reconcile.
  lemma {:induction false} HistoryAccurate(blank: char -> bool, c: Storage, steps: seq<Step>)
    requires Healthy(blank, c) && Readable(c) && ProperRun(blank, c, steps)
    ensures Readable(After(blank, c, steps))
    ensures Accurate(blank, c) && (forall s :: s in steps ==> IndexWriteWorks(s)) ==> Accurate(blank, After(blank, c, steps))
  {
    if steps != [] {
      var init, last := steps[..|steps|-1], steps[|steps|-1];
      RunLast(blank, c, steps);
      hide *;
      HistoryAccurate(blank, c, init);
      HistoryHealthy(blank, c, init);
      StepHealthy(blank, After(blank, c, init), last);
      StepReadable(blank, After(blank, c, init), last);
    }
  }

  // With working index writes the table is at all times the one a rebuild
  // from nothing would give.
  lemma IncrementalIsRebuild(blank: char -> bool, c: Storage, steps: seq<Step>, listing: seq<Place>)
    requires Healthy(blank, c) && Readable(c) && Accurate(blank, c) && ProperRun(blank, c, steps)
    requires forall s :: s in steps ==> IndexWriteWorks(s)
    requires Walks(After(blank, c, steps), listing)
    ensures After(blank, c, steps).table == Reconcile(blank, After(blank, c, steps), listing, false).table
  {
    HistoryHealthy(blank, c, steps);
    HistoryAccurate(blank, c, steps);
    AccurateIsRebuilt(blank, After(blank, c, steps), listing);
  }

  // Whatever index writes failed on the way, one reconcile repairs the table.
  lemma ReconcileRepairs(blank: char -> bool, c: Storage, steps: seq<Step>, listing: seq<Place>)
    requires Healthy(blank, c) && Readable(c) && ProperRun(blank, c, steps) && Walks(After(blank, c, steps), listing)
    ensures Accurate(blank, Reconcile(blank, After(blank, c, steps), listing, true))
  {
    HistoryHealthy(blank, c, steps);
    HistoryAccurate(blank, c, steps);
    ReconcileHealthy(blank, After(blank, c, steps), listing);
  }

  predicate Deletes(step: Step, id: string) {
    step.DoDelete? && step.id == id
  }

  lemma UndeletedStays(blank: char -> bool, c: Storage, step: Step, p: Place)
    requires Healthy(blank, c) && Proper(blank, c, step) && p in c.artifacts && c.artifacts[p].file.Good?
    requires !Deletes(step, c.artifacts[p].file.manifest.id)
    ensures p in Next(blank, c, step).artifacts && Next(blank, c, step).artifacts[p] == c.artifacts[p]
  {
    hide Healthy, Next, Proper;
    StepKeepsPublished(blank, c, step, p);
  }

  // Until its own delete, what was published at a place stays there unchanged.
  lemma {:induction false} PublishedForever(blank: char -> bool, c: Storage, steps: seq<Step>, p: Place)
    requires Healthy(blank, c) && ProperRun(blank, c, steps) && p in c.artifacts && c.artifacts[p].file.Good?
    requires forall s :: s in steps ==> !Deletes(s, c.artifacts[p].file.manifest.id)
    ensures p in After(blank, c, steps).artifacts && After(blank, c, steps).artifacts[p] == c.artifacts[p]
  {
    if steps != [] {
      var init := steps[..|steps|-1];
      RunLast(blank, c, steps);
      hide *;
      PublishedForever(blank, c, init, p);
      HistoryHealthy(blank, c, init);
      UndeletedStays(blank, After(blank, c, init), steps[|steps|-1], p);
    }
  }

  // What publishing does, whatever was there: the five answers, the parents
  // it creates, the directory it stores and the one row it writes.
  predicate PublishDecided(blank: char -> bool, c: Storage, m: Manifest, mtime: int, size: nat, works: bool, d: Storage, outcome: Outcome) {
    if PlaceOf(blank, m.source).None? then d == c && outcome == BadPath
    else
      var p := PlaceOf(blank, m.source).value;
      && d.aliases == c.aliases && d.dirs == c.dirs + Parents(p)
      && if p !in c.artifacts && p !in c.dirs then
           && outcome == Done(false) && d.artifacts == c.artifacts[p := Stored(Good(m), mtime, size)]
           && d.table == (if works then c.table[m.id := RowOf(c, m, mtime, size)] else c.table)
           && (works ==> Find(blank, d, m.id) == Some(p))
         else if p !in c.artifacts || !c.artifacts[p].file.Good? then
           outcome == Unreadable && d.artifacts == c.artifacts && d.table == c.table
         else if c.artifacts[p].file.manifest.contentSha256 != m.contentSha256 then
           outcome == Collision && d.artifacts == c.artifacts && d.table == c.table
         else
           var held := c.artifacts[p].file.manifest;
           && outcome == Done(true) && d.artifacts == c.artifacts
           && d.table == (if works && PlaceOf(blank, held.source) == Some(p)
                          then c.table[held.id := RowOf(c, held, c.artifacts[p].mtime, c.artifacts[p].size)] else c.table)
  }

  // The row of a manifest under the registry's alias.
  function RowOf(c: Storage, m: Manifest, mtime: int, size: nat): Row {
    Row(m.id, m.source, m.details, if m.id in c.aliases then Some(c.aliases[m.id]) else None, mtime, size)
  }

  lemma NotItsParent(p: Place)
    ensures p !in Parents(p)
  {
  }

  lemma PublishDecides(blank: char -> bool, c: Storage, m: Manifest, mtime: int, size: nat, works: bool)
    ensures var (d, outcome) := Publish(blank, c, m, mtime, size, works);
            PublishDecided(blank, c, m, mtime, size, works, d, outcome)
  {
    hide PlaceOf, Parents;
    if PlaceOf(blank, m.source).Some? { NotItsParent(PlaceOf(blank, m.source).value); }
  }

  // Reconciling changes nothing but the table. A future schema version that
  // has to be read stops it; otherwise the table becomes what a rebuild gives.
  lemma ReconcileDecides(blank: char -> bool, c: Storage, listing: seq<Place>, readable: bool)
    requires Healthy(blank, c) && Walks(c, listing)
    ensures var b, d := if readable then c else c.(table := map[]), Reconcile(blank, c, listing, readable);
            && d == c.(table := d.table)
            && if exists p :: p in c.artifacts && Stops(blank, b, p) then d.table == b.table else Accurate(blank, d)
  {
    var b := if readable then c else c.(table := map[]);
    assert Walks(b, listing) && Reconcile(blank, c, listing, readable) == Reconcile(blank, b, listing, true);
    EmptiedHealthy(blank, c);
    ReconcileKeepsDisk(blank, b, listing);
    FaithfulIsTruthful(blank, b);
    hide Genuine, Faithful, Rooted, Accurate, Truthful, Stops;
    if p :| p in c.artifacts && Stops(blank, b, p) {
      WalksAll(b, listing);
      ScanStops(blank, b, listing, p);
    } else {
      hide Reconcile;
      assert Keyed(b.table) by { KeyedRows(blank, b); }
      ReconcileExact(blank, b, listing);
    }
  }

  lemma KeyedRows(blank: char -> bool, c: Storage)
    requires Faithful(blank, c)
    ensures Keyed(c.table)
  {
    hide Stale;
  }

  // A second publish to the same place is deduplicated by content or refused.
  lemma RepublishDecides(blank: char -> bool, c: Storage, m: Manifest, mtime: int, size: nat, works: bool)
    requires Healthy(blank, c) && Proper(blank, c, DoPublish(m, mtime, size, works))
    requires PlaceOf(blank, m.source).Some? && PlaceOf(blank, m.source).value in c.artifacts
    requires c.artifacts[PlaceOf(blank, m.source).value].file.Good?
    ensures var (d, outcome) := Publish(blank, c, m, mtime, size, works);
            var held := c.artifacts[PlaceOf(blank, m.source).value].file.manifest;
            && d.artifacts == c.artifacts && d.dirs == c.dirs
            && outcome == (if held.contentSha256 == m.contentSha256 then Done(true) else Collision)
            && (Plain(held.source) && Plain(m.source) ==> held.id == m.id)
  {
    var p := PlaceOf(blank, m.source).value;
    assert c.dirs + Parents(p) == c.dirs;
    var held := c.artifacts[p].file.manifest;
    SamePathSameIdentity(blank, held.source, m.source);
    hide Index, ArtifactIdentity, PlaceOf;
  }

  // Two sources that print the same path are the same, unless the revision of
  // one of them imitates a selection suffix or hides one behind a newline.
  lemma SamePathSameIdentity(blank: char -> bool, s: Source, t: Source)
    requires Wellformed(s) && Wellformed(t) && PlaceOf(blank, s).Some? && PlaceOf(blank, s) == PlaceOf(blank, t)
    ensures Plain(s) && Plain(t) ==> s == t
  {
    PlacePath(blank, s);
    PlacePath(blank, t);
    PrintedIsAccepted(blank, s);
    PrintedIsAccepted(blank, t);
    if Plain(s) && Plain(t) { IdentityInjective(s, t); }
  }
}
