// The index is what the disk and the alias registry say: reconciling makes it
// so, exactly when the fingerprints it trusts are truthful.
module CatalogIndexProofs {
  import opened TaskTypes
  import opened Identity
  import opened Sequences
  import opened Strings
  import opened CatalogModel

  // ---- the truth ---------------------------------------------------------------------

  predicate Named(p: Place) {
    p != [] && forall s :: s in p ==> IsComponent(s)
  }

  // Directory names, and manifests that say where they are.
  ghost predicate Genuine(blank: char -> bool, c: Storage) {
    forall p :: p in c.artifacts ==> Named(p) && (c.artifacts[p].file.Good? ==> Belongs(blank, p, c.artifacts[p].file.manifest))
  }

  predicate Belongs(blank: char -> bool, p: Place, m: Manifest) {
    m.id == ArtifactIdentity(m.source) && Wellformed(m.source) && PlaceOf(blank, m.source) == Some(p)
  }

  predicate Keyed(table: map<string, Row>) {
    forall id :: id in table ==> table[id].id == id
  }

  // The row an index rebuilt from nothing has for a published directory.
  function RowAt(blank: char -> bool, c: Storage, p: Place): Option<Row>
    requires p in c.artifacts
  {
    var s := c.artifacts[p];
    if !s.file.Good? then None else Summary(blank, p, s.file.manifest, s, c.aliases)
  }

  // The table has every row the disk and the registry call for, and no other.
  ghost predicate Accurate(blank: char -> bool, c: Storage) {
    && (forall p :: p in c.artifacts && RowAt(blank, c, p).Some? ==> HasRow(c.table, RowAt(blank, c, p).value))
    && (forall id :: id in c.table ==> Backed(blank, c, id))
  }

  ghost predicate Backed(blank: char -> bool, c: Storage, id: string)
    requires id in c.table
  {
    exists p :: p in c.artifacts && RowAt(blank, c, p) == Some(c.table[id]) && c.table[id].id == id
  }

  predicate HasRow(table: map<string, Row>, r: Row) {
    r.id in table && table[r.id] == r
  }

  // No row is found under the path's identity with the current fingerprint
  // unless it is the right one.
  ghost predicate Truthful(blank: char -> bool, c: Storage) {
    forall p :: p in c.artifacts && Trusted(blank, c, p) ==> RowAt(blank, c, p) == Some(c.table[Candidate(blank, p).value])
  }

  function Candidate(blank: char -> bool, p: Place): Option<string> {
    IdentityOfPath(blank, Join(p, '/'))
  }

  predicate Trusted(blank: char -> bool, c: Storage, p: Place)
    requires p in c.artifacts
  {
    Candidate(blank, p).Some? && FingerprintMatches(c.table, Candidate(blank, p).value, c.artifacts[p], c.aliases)
  }

  // ---- places and identities -----------------------------------------------------------

  lemma PlacePath(blank: char -> bool, s: Source)
    requires PlaceOf(blank, s).Some?
    ensures RelativePath(blank, s) == Some(Join(PlaceOf(blank, s).value, '/')) && Named(PlaceOf(blank, s).value)
  {
    PrintedParts(blank, s);
    UnescapeEscapeEach(blank, SourceValues(s));
    ProviderNames(s.provider);
    EscapedIsComponent(blank, RevisionSegment(s));
  }

  lemma CandidateOwns(blank: char -> bool, p: Place, s: Source)
    requires Named(p) && Wellformed(s) && Candidate(blank, p) == Some(ArtifactIdentity(s))
    ensures PlaceOf(blank, s) == Some(p)
  {
    PathsHaveOwnIdentity(blank, Join(p, '/'), s);
    PartsOfPath(p);
  }

  lemma CandidatesDiffer(blank: char -> bool, p: Place, q: Place)
    requires Named(p) && Named(q) && Candidate(blank, p).Some? && Candidate(blank, p) == Candidate(blank, q)
    ensures p == q
  {
    AcceptedPathsDiffer(blank, Join(p, '/'), Join(q, '/'));
    PartsOfPath(p);
    PartsOfPath(q);
  }

  lemma PrintedHasCandidate(blank: char -> bool, s: Source)
    requires Wellformed(s) && PlaceOf(blank, s).Some?
    ensures Candidate(blank, PlaceOf(blank, s).value).Some?
  {
    PlacePath(blank, s);
    PrintedIsAccepted(blank, s);
  }

  lemma SameIdSamePlace(blank: char -> bool, c: Storage, p: Place, q: Place)
    requires Genuine(blank, c) && p in c.artifacts && q in c.artifacts
    requires RowAt(blank, c, p).Some? && RowAt(blank, c, q).Some? && RowAt(blank, c, p).value.id == RowAt(blank, c, q).value.id
    ensures p == q
  {
    IdentityInjective(c.artifacts[p].file.manifest.source, c.artifacts[q].file.manifest.source);
  }

  // ---- what the scan collects ---------------------------------------------------------------

  // The id the scan keeps alive for a directory.
  function ValidId(blank: char -> bool, c: Storage, p: Place): Option<string>
    requires p in c.artifacts
  {
    if Candidate(blank, p).None? then None
    else if Trusted(blank, c, p) then Candidate(blank, p)
    else if RowAt(blank, c, p).Some? then Some(RowAt(blank, c, p).value.id) else None
  }

  // The row the scan reads again.
  function ReadRow(blank: char -> bool, c: Storage, p: Place): Option<Row>
    requires p in c.artifacts
  {
    if Candidate(blank, p).None? || Trusted(blank, c, p) then None else RowAt(blank, c, p)
  }

  predicate Stops(blank: char -> bool, c: Storage, p: Place)
    requires p in c.artifacts
  {
    Candidate(blank, p).Some? && !Trusted(blank, c, p) && c.artifacts[p].file.Future?
  }

  lemma ValidIdDiffers(blank: char -> bool, c: Storage, p: Place, q: Place)
    requires Genuine(blank, c) && p in c.artifacts && q in c.artifacts
    requires ValidId(blank, c, p).Some? && ValidId(blank, c, p) == ValidId(blank, c, q)
    ensures p == q
  {
    var a, b := Trusted(blank, c, p), Trusted(blank, c, q);
    hide Trusted, ArtifactIdentity, IdentityOfPath, Wellformed;
    if a && b {
      CandidatesDiffer(blank, p, q);
    } else if a {
      CandidateOwns(blank, p, c.artifacts[q].file.manifest.source);
    } else if b {
      CandidateOwns(blank, q, c.artifacts[p].file.manifest.source);
    } else {
      SameIdSamePlace(blank, c, p, q);
    }
  }

  // The scan of directories none of which stops it.
  ghost predicate Collected(blank: char -> bool, c: Storage, listing: seq<Place>, scan: Scan)
    requires forall p :: p in listing ==> p in c.artifacts
  {
    && !scan.future
    && (forall id :: id in scan.valid ==> exists p :: p in listing && ValidId(blank, c, p) == Some(id))
    && (forall p :: p in listing && ValidId(blank, c, p).Some? ==> ValidId(blank, c, p).value in scan.valid)
    && (forall r :: r in scan.changed ==> exists p :: p in listing && ReadRow(blank, c, p) == Some(r))
    && (forall p :: p in listing && ReadRow(blank, c, p).Some? ==> ReadRow(blank, c, p).value in scan.changed)
  }

  lemma ScanStep(blank: char -> bool, c: Storage, p: Place, scan: Scan)
    requires p in c.artifacts && !scan.future && !Stops(blank, c, p)
    ensures var t := ScanOne(blank, c, p, scan);
            && !t.future
            && t.valid == (if ValidId(blank, c, p).Some? then scan.valid + [ValidId(blank, c, p).value] else scan.valid)
            && t.changed == (if ReadRow(blank, c, p).Some? then scan.changed + [ReadRow(blank, c, p).value] else scan.changed)
  {
    hide IdentityOfPath, FingerprintMatches, Summary;
  }

  lemma ScanNext(blank: char -> bool, c: Storage, init: seq<Place>, last: Place, scan: Scan)
    requires Genuine(blank, c) && last in c.artifacts && last !in init && !Stops(blank, c, last)
    requires forall p :: p in init ==> p in c.artifacts
    requires Collected(blank, c, init, scan) && Distinct(scan.valid)
    ensures Collected(blank, c, init + [last], ScanOne(blank, c, last, scan)) && Distinct(ScanOne(blank, c, last, scan).valid)
  {
    assert !scan.future;
    hide ScanOne, ValidId, ReadRow, Stops, Genuine, Collected;
    ScanStep(blank, c, last, scan);
    FreshId(blank, c, init, last, scan);
    CollectsNext(blank, c, init, last, scan, ScanOne(blank, c, last, scan));
  }

  lemma {:induction false} ScanCollects(blank: char -> bool, c: Storage, listing: seq<Place>)
    requires Genuine(blank, c) && Distinct(listing) && forall p :: p in listing ==> p in c.artifacts && !Stops(blank, c, p)
    ensures Collected(blank, c, listing, ScanAll(blank, c, listing)) && Distinct(ScanAll(blank, c, listing).valid)
  {
    if listing != [] {
      var init, last := listing[..|listing|-1], listing[|listing|-1];
      assert init + [last] == listing && last !in init;
      assert ScanAll(blank, c, listing) == ScanOne(blank, c, last, ScanAll(blank, c, init));
      hide ScanAll, ScanOne, Stops, Genuine, Collected;
      ScanCollects(blank, c, init);
      ScanNext(blank, c, init, last, ScanAll(blank, c, init));
    }
  }

  lemma FreshId(blank: char -> bool, c: Storage, init: seq<Place>, last: Place, scan: Scan)
    requires Genuine(blank, c) && last in c.artifacts && last !in init && forall p :: p in init ==> p in c.artifacts
    requires Collected(blank, c, init, scan)
    ensures ValidId(blank, c, last).Some? ==> ValidId(blank, c, last).value !in scan.valid
  {
    hide ValidId, ReadRow, Genuine;
    var v := ValidId(blank, c, last);
    if v.Some? && v.value in scan.valid {
      var p :| p in init && ValidId(blank, c, p) == v;
      ValidIdDiffers(blank, c, p, last);
    }
  }

  lemma CollectsNext(blank: char -> bool, c: Storage, init: seq<Place>, last: Place, scan: Scan, t: Scan)
    requires last in c.artifacts && forall p :: p in init ==> p in c.artifacts
    requires Collected(blank, c, init, scan) && !t.future
    requires t.valid == (if ValidId(blank, c, last).Some? then scan.valid + [ValidId(blank, c, last).value] else scan.valid)
    requires t.changed == (if ReadRow(blank, c, last).Some? then scan.changed + [ReadRow(blank, c, last).value] else scan.changed)
    ensures Collected(blank, c, init + [last], t)
  {
    hide ValidId, ReadRow;
    forall id | id in t.valid ensures exists p :: p in init + [last] && ValidId(blank, c, p) == Some(id) {
      if id in scan.valid {
        var p :| p in init && ValidId(blank, c, p) == Some(id);
        assert p in init + [last];
      } else {
        assert last in init + [last];
      }
    }
    forall r | r in t.changed ensures exists p :: p in init + [last] && ReadRow(blank, c, p) == Some(r) {
      if r in scan.changed {
        var p :| p in init && ReadRow(blank, c, p) == Some(r);
        assert p in init + [last];
      } else {
        assert last in init + [last];
      }
    }
  }

  // ---- the table after the transaction --------------------------------------------------------

  lemma {:induction false} UpsertedRows(table: map<string, Row>, rows: seq<Row>)
    ensures var t := UpsertAll(table, rows);
            && (forall id :: id in t <==> id in table || exists r :: r in rows && r.id == id)
            && (forall id :: id in t && id in table && (forall r :: r in rows ==> r.id != id) ==> t[id] == table[id])
            && (forall id :: id in t && (exists r :: r in rows && r.id == id) ==> t[id] in rows && t[id].id == id)
  {
    if rows != [] {
      var init, last := rows[..|rows|-1], rows[|rows|-1];
      assert forall r :: r in rows <==> r in init || r == last;
      UpsertedRows(table, init);
      var t := UpsertAll(table, rows);
      forall id | id in t ensures id in table || exists r :: r in rows && r.id == id {
        if id == last.id { assert last in rows; }
      }
    }
  }

  // The reconciled table, directory by directory.
  ghost predicate Reconciled(blank: char -> bool, c: Storage, t: map<string, Row>) {
    && (forall p :: p in c.artifacts && ReadRow(blank, c, p).Some? ==> HasRow(t, ReadRow(blank, c, p).value))
    && (forall p :: p in c.artifacts && Trusted(blank, c, p) ==> Candidate(blank, p).value in t && t[Candidate(blank, p).value] == c.table[Candidate(blank, p).value])
    && (forall id :: id in t ==> exists p :: p in c.artifacts && ValidId(blank, c, p) == Some(id))
  }

  lemma ReadRowKept(blank: char -> bool, c: Storage, listing: seq<Place>, scan: Scan, p: Place)
    requires Genuine(blank, c) && Walks(c, listing) && Collected(blank, c, listing, scan)
    requires p in c.artifacts && ReadRow(blank, c, p).Some?
    ensures var r, t := ReadRow(blank, c, p).value, UpsertAll(c.table, scan.changed);
            r.id in scan.valid && HasRow(t, r)
  {
    hide Trusted, Candidate, RowAt, Genuine;
    var r, t := ReadRow(blank, c, p).value, UpsertAll(c.table, scan.changed);
    UpsertedRows(c.table, scan.changed);
    assert r in scan.changed && ValidId(blank, c, p) == Some(r.id);
    assert r.id in t && t[r.id] in scan.changed && t[r.id].id == r.id;
    var q :| q in listing && ReadRow(blank, c, q) == Some(t[r.id]);
    SameIdSamePlace(blank, c, p, q);
  }

  // No row that is read again has the identity of a trusted directory.
  lemma ReadElsewhere(blank: char -> bool, c: Storage, p: Place, q: Place)
    requires Genuine(blank, c) && p in c.artifacts && q in c.artifacts && Trusted(blank, c, p) && ReadRow(blank, c, q).Some?
    ensures ReadRow(blank, c, q).value.id != Candidate(blank, p).value
  {
    assert ValidId(blank, c, q) == Some(ReadRow(blank, c, q).value.id) && ValidId(blank, c, p) == Candidate(blank, p);
    assert p != q;
    if ReadRow(blank, c, q).value.id == Candidate(blank, p).value {
      hide Trusted, Candidate, RowAt, Genuine, ValidId, ReadRow;
      ValidIdDiffers(blank, c, p, q);
    }
  }

  lemma TrustedKept(blank: char -> bool, c: Storage, listing: seq<Place>, scan: Scan, p: Place)
    requires Genuine(blank, c) && Walks(c, listing) && Collected(blank, c, listing, scan)
    requires p in c.artifacts && Trusted(blank, c, p)
    ensures var id, t := Candidate(blank, p).value, UpsertAll(c.table, scan.changed);
            id in scan.valid && id in t && t[id] == c.table[id]
  {
    var id := Candidate(blank, p).value;
    assert id in c.table && p in listing;
    assert ValidId(blank, c, p) == Some(id);
    hide Trusted, Candidate, RowAt, Genuine, ValidId, ReadRow;
    UpsertedRows(c.table, scan.changed);
    forall r | r in scan.changed ensures r.id != id {
      var q :| q in listing && ReadRow(blank, c, q) == Some(r);
      ReadElsewhere(blank, c, p, q);
    }
  }

  lemma ReconcileShape(blank: char -> bool, c: Storage, listing: seq<Place>)
    requires Genuine(blank, c) && Walks(c, listing) && forall p :: p in c.artifacts ==> !Stops(blank, c, p)
    ensures var d := Reconcile(blank, c, listing, true); d == c.(table := d.table) && Reconciled(blank, c, d.table)
  {
    ScanCollects(blank, c, listing);
    var scan := ScanAll(blank, c, listing);
    var t := Reconcile(blank, c, listing, true).table;
    forall p | p in c.artifacts && ReadRow(blank, c, p).Some? ensures HasRow(t, ReadRow(blank, c, p).value) {
      ReadRowKept(blank, c, listing, scan, p);
    }
    forall p | p in c.artifacts && Trusted(blank, c, p)
      ensures Candidate(blank, p).value in t && t[Candidate(blank, p).value] == c.table[Candidate(blank, p).value]
    {
      TrustedKept(blank, c, listing, scan, p);
    }
    forall id | id in t ensures exists p :: p in c.artifacts && ValidId(blank, c, p) == Some(id) {
      var p :| p in listing && ValidId(blank, c, p) == Some(id);
    }
  }

  lemma RowHasCandidate(blank: char -> bool, c: Storage, p: Place)
    requires Genuine(blank, c) && p in c.artifacts && RowAt(blank, c, p).Some?
    ensures Candidate(blank, p).Some?
  {
    PrintedHasCandidate(blank, c.artifacts[p].file.manifest.source);
  }

  lemma RowsAppear(blank: char -> bool, c: Storage, t: map<string, Row>, p: Place)
    requires Genuine(blank, c) && Keyed(c.table) && Truthful(blank, c) && Reconciled(blank, c, t)
    requires p in c.artifacts && RowAt(blank, c, p).Some?
    ensures HasRow(t, RowAt(blank, c, p).value)
  {
    RowHasCandidate(blank, c, p);
    if Trusted(blank, c, p) { assert Candidate(blank, p).value in c.table; }
    hide RowAt, Trusted, Candidate, Genuine;
  }

  lemma RowsCome(blank: char -> bool, c: Storage, t: map<string, Row>, id: string)
    requires Keyed(c.table) && Truthful(blank, c) && Reconciled(blank, c, t) && id in t
    ensures exists p :: p in c.artifacts && RowAt(blank, c, p) == Some(t[id]) && t[id].id == id
  {
    var p :| p in c.artifacts && ValidId(blank, c, p) == Some(id);
    if Trusted(blank, c, p) { assert Candidate(blank, p).value in c.table; }
    hide RowAt, Trusted, Candidate;
    assert RowAt(blank, c, p) == Some(t[id]) && t[id].id == id;
  }

  lemma TruthfulReconciles(blank: char -> bool, c: Storage, d: Storage)
    requires Genuine(blank, c) && Keyed(c.table) && Truthful(blank, c) && d == c.(table := d.table) && Reconciled(blank, c, d.table)
    ensures Accurate(blank, d)
  {
    assert forall p :: p in c.artifacts ==> RowAt(blank, d, p) == RowAt(blank, c, p);
    hide RowAt, Genuine, Truthful, Reconciled, HasRow;
    forall p | p in c.artifacts && RowAt(blank, c, p).Some? ensures HasRow(d.table, RowAt(blank, c, p).value) {
      RowsAppear(blank, c, d.table, p);
    }
    forall id | id in d.table ensures exists p :: p in c.artifacts && RowAt(blank, c, p) == Some(d.table[id]) && d.table[id].id == id {
      RowsCome(blank, c, d.table, id);
    }
  }

  lemma AccurateNeedsTruth(blank: char -> bool, c: Storage, d: Storage)
    requires Genuine(blank, c) && d == c.(table := d.table) && Reconciled(blank, c, d.table) && Accurate(blank, d)
    ensures Truthful(blank, c)
  {
    forall p | p in c.artifacts && Trusted(blank, c, p) ensures RowAt(blank, c, p) == Some(c.table[Candidate(blank, p).value]) {
      var id := Candidate(blank, p).value;
      var q :| q in c.artifacts && RowAt(blank, d, q) == Some(d.table[id]) && d.table[id].id == id;
      hide Trusted, ArtifactIdentity, IdentityOfPath, Wellformed;
      CandidateOwns(blank, p, c.artifacts[q].file.manifest.source);
    }
  }

  // Reconciling gives the table a rebuild would give exactly when every
  // fingerprint it trusts is truthful.
  lemma ReconcileExact(blank: char -> bool, c: Storage, listing: seq<Place>)
    requires Genuine(blank, c) && Keyed(c.table) && Walks(c, listing)
    requires forall p :: p in c.artifacts ==> !Stops(blank, c, p)
    ensures Accurate(blank, Reconcile(blank, c, listing, true)) <==> Truthful(blank, c)
  {
    ReconcileShape(blank, c, listing);
    var d := Reconcile(blank, c, listing, true);
    hide Reconcile, Genuine, Truthful, Accurate, Reconciled;
    if Truthful(blank, c) { TruthfulReconciles(blank, c, d); }
    if Accurate(blank, d) { AccurateNeedsTruth(blank, c, d); }
  }

  // ---- rows that only lag behind the alias registry ----------------------------------------------

  // Every row is that of a published directory, with a possibly stale alias.
  ghost predicate Faithful(blank: char -> bool, c: Storage) {
    Keyed(c.table) && forall id :: id in c.table ==> exists p :: p in c.artifacts && Stale(blank, c, p, c.table[id])
  }

  predicate Stale(blank: char -> bool, c: Storage, p: Place, r: Row)
    requires p in c.artifacts
  {
    RowAt(blank, c, p).Some? && RowAt(blank, c, p).value.(alias := r.alias) == r
  }

  lemma FaithfulIsTruthful(blank: char -> bool, c: Storage)
    requires Genuine(blank, c) && Faithful(blank, c)
    ensures Truthful(blank, c)
  {
    forall p | p in c.artifacts && Trusted(blank, c, p) ensures RowAt(blank, c, p) == Some(c.table[Candidate(blank, p).value]) {
      var id := Candidate(blank, p).value;
      var q :| q in c.artifacts && Stale(blank, c, q, c.table[id]);
      hide ArtifactIdentity, IdentityOfPath, Wellformed;
      CandidateOwns(blank, p, c.artifacts[q].file.manifest.source);
    }
  }

  lemma AccurateIsFaithful(blank: char -> bool, c: Storage)
    requires Accurate(blank, c)
    ensures Faithful(blank, c)
  {
    forall id | id in c.table ensures c.table[id].id == id && exists p :: p in c.artifacts && Stale(blank, c, p, c.table[id]) {
      var p :| p in c.artifacts && RowAt(blank, c, p) == Some(c.table[id]) && c.table[id].id == id;
      assert Stale(blank, c, p, c.table[id]);
    }
  }

  // ---- a rebuild from nothing ------------------------------------------------------------------------

  ghost predicate Readable(c: Storage) {
    forall p :: p in c.artifacts ==> !c.artifacts[p].file.Future?
  }

  lemma AccurateAgree(blank: char -> bool, c: Storage, t: map<string, Row>, id: string)
    requires Genuine(blank, c) && Accurate(blank, c) && Accurate(blank, c.(table := t)) && id in c.table
    ensures id in t && t[id] == c.table[id]
  {
    var p :| p in c.artifacts && RowAt(blank, c, p) == Some(c.table[id]) && c.table[id].id == id;
    assert RowAt(blank, c.(table := t), p) == RowAt(blank, c, p);
    hide RowAt, Genuine;
  }

  lemma EmptyIsFaithful(blank: char -> bool, c: Storage)
    requires Genuine(blank, c) && c.table == map[]
    ensures Truthful(blank, c) && Keyed(c.table)
  {
  }

  lemma RebuildIsAccurate(blank: char -> bool, c: Storage, listing: seq<Place>)
    requires Genuine(blank, c) && Walks(c, listing) && Readable(c)
    ensures var d := Reconcile(blank, c, listing, false);
            Accurate(blank, d) && Genuine(blank, d) && d == c.(table := d.table)
  {
    var empty := c.(table := map[]);
    assert Genuine(blank, empty) && Walks(empty, listing);
    assert Reconcile(blank, c, listing, false) == Reconcile(blank, empty, listing, true);
    hide Reconcile, Genuine, Accurate, Truthful, Walks;
    EmptyIsFaithful(blank, empty);
    ReconcileExact(blank, empty, listing);
    ReconcileKeepsDisk(blank, empty, listing);
  }

  lemma ReconcileKeepsDisk(blank: char -> bool, c: Storage, listing: seq<Place>)
    requires Genuine(blank, c) && Walks(c, listing)
    ensures var d := Reconcile(blank, c, listing, true); d == c.(table := d.table) && Genuine(blank, d)
  {
    hide ScanAll, ReconcileRows;
  }

  // The table is accurate exactly when it is the one a rebuild would give.
  lemma AccurateIsRebuilt(blank: char -> bool, c: Storage, listing: seq<Place>)
    requires Genuine(blank, c) && Walks(c, listing) && Readable(c)
    ensures Accurate(blank, c) <==> c.table == Reconcile(blank, c, listing, false).table
  {
    RebuildIsAccurate(blank, c, listing);
    var d := Reconcile(blank, c, listing, false);
    hide Reconcile, Genuine, Accurate, Walks;
    if Accurate(blank, c) { AccurateUnique(blank, c, d); }
  }

  lemma AccurateUnique(blank: char -> bool, c: Storage, d: Storage)
    requires Genuine(blank, c) && Genuine(blank, d) && d == c.(table := d.table) && Accurate(blank, c) && Accurate(blank, d)
    ensures c.table == d.table
  {
    hide Accurate, Genuine;
    forall id | id in c.table ensures id in d.table && d.table[id] == c.table[id] { AccurateAgree(blank, c, d.table, id); }
    forall id | id in d.table ensures id in c.table { AccurateAgree(blank, d, c.table, id); }
  }
}
