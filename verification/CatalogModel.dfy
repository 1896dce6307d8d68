// The artifact catalog: directories and the alias registry are the truth, the
// index table is a disposable copy (catalog.py, catalog_index.py).
module CatalogModel {
  import opened TaskTypes
  import opened Identity
  import opened Sequences
  import opened Strings

  // Components of a path relative to the artifacts root.
  type Place = seq<string>

  datatype Details = Details(name: string, version: string, requestedRevision: string, totalSize: nat, fileCount: nat, createdAt: int)
  datatype Manifest = Manifest(id: string, source: Source, contentSha256: string, details: Details)

  // What reading a manifest file gives: a manifest, an error that is skipped,
  // or a schema version that stops everything.
  datatype ManifestFile = Good(manifest: Manifest) | Broken | Future

  // One published directory, with the stat of its manifest file.
  datatype Stored = Stored(file: ManifestFile, mtime: int, size: nat)

  // One row of the index.
  datatype Row = Row(id: string, source: Source, details: Details, alias: Option<string>, mtime: int, size: nat)

  datatype Storage = Storage(
    artifacts: map<Place, Stored>,
    dirs: set<Place>,
    aliases: map<string, string>,
    table: map<string, Row>)

  function PlaceOf(blank: char -> bool, s: Source): Option<Place> {
    var path := RelativePath(blank, s);
    if path.None? then None else Some(PathParts(path.value))
  }

  // ---- the index table --------------------------------------------------------------

  function AliasOf(aliases: map<string, string>, id: string): Option<string> {
    if id in aliases then Some(aliases[id]) else None
  }

  // `_summary`, with the stat of the manifest; None for its VerificationError.
  function Summary(blank: char -> bool, place: Place, m: Manifest, s: Stored, aliases: map<string, string>): Option<Row> {
    if PlaceOf(blank, m.source) != Some(place) then None
    else Some(Row(m.id, m.source, m.details, AliasOf(aliases, m.id), s.mtime, s.size))
  }

  function Upsert(table: map<string, Row>, r: Row): map<string, Row> {
    table[r.id := r]
  }

  function UpsertAll(table: map<string, Row>, rows: seq<Row>): map<string, Row> {
    if rows == [] then table else Upsert(UpsertAll(table, rows[..|rows|-1]), rows[|rows|-1])
  }

  // `CatalogIndex.reconcile`: None when a repeated id violates the primary key
  // of the temporary table.
  function ReconcileRows(table: map<string, Row>, changed: seq<Row>, valid: seq<string>): Option<map<string, Row>> {
    if !Distinct(valid) then None
    else
      var t := UpsertAll(table, changed);
      Some(map id | id in t && id in valid :: t[id])
  }

  // ---- reconcile_index -----------------------------------------------------------------

  datatype Scan = Scan(changed: seq<Row>, valid: seq<string>, future: bool)

  // `existing.get(candidate_id) == (mtime, size, alias)`
  predicate FingerprintMatches(table: map<string, Row>, id: string, s: Stored, aliases: map<string, string>) {
    id in table && table[id].mtime == s.mtime && table[id].size == s.size && table[id].alias == AliasOf(aliases, id)
  }

  function ScanOne(blank: char -> bool, c: Storage, place: Place, scan: Scan): Scan
    requires place in c.artifacts
  {
    var s := c.artifacts[place];
    var candidate := IdentityOfPath(blank, Join(place, '/'));
    if scan.future || candidate.None? then scan
    else if FingerprintMatches(c.table, candidate.value, s, c.aliases) then scan.(valid := scan.valid + [candidate.value])
    else if s.file.Future? then scan.(future := true)
    else if s.file.Broken? || Summary(blank, place, s.file.manifest, s, c.aliases).None? then scan
    else
      var r := Summary(blank, place, s.file.manifest, s, c.aliases).value;
      scan.(changed := scan.changed + [r], valid := scan.valid + [r.id])
  }

  function ScanAll(blank: char -> bool, c: Storage, listing: seq<Place>): Scan
    requires forall p :: p in listing ==> p in c.artifacts
  {
    if listing == [] then Scan([], [], false)
    else ScanOne(blank, c, listing[|listing|-1], ScanAll(blank, c, listing[..|listing|-1]))
  }

  // `os.walk` lists every published directory once, in some order.
  ghost predicate Walks(c: Storage, listing: seq<Place>) {
    Distinct(listing) && forall p :: p in listing <==> p in c.artifacts
  }

  // An unreadable table is set aside and rebuilt from nothing.
  function Reconcile(blank: char -> bool, c: Storage, listing: seq<Place>, readable: bool): Storage
    requires forall p :: p in listing ==> p in c.artifacts
  {
    var b := if readable then c else c.(table := map[]);
    var scan := ScanAll(blank, b, listing);
    var rows := ReconcileRows(b.table, scan.changed, scan.valid);
    if scan.future || rows.None? then b else b.(table := rows.value)
  }

  // ---- publish ---------------------------------------------------------------------------

  datatype Outcome = Done(deduplicated: bool) | Collision | Unreadable | BadPath | NotFound | Taken | Lost | RolledBack

  // Every directory strictly between the root and the place.
  function Parents(place: Place): set<Place> {
    set n | 0 < n < |place| :: place[..n]
  }

  // `_index_artifact`: errors are logged and forgotten.
  function Index(blank: char -> bool, c: Storage, place: Place, m: Manifest, works: bool): Storage
    requires place in c.artifacts
  {
    var r := Summary(blank, place, m, c.artifacts[place], c.aliases);
    if r.None? || !works then c else c.(table := Upsert(c.table, r.value))
  }

  function Publish(blank: char -> bool, c: Storage, m: Manifest, mtime: int, size: nat, indexWorks: bool): (Storage, Outcome) {
    if PlaceOf(blank, m.source).None? then (c, BadPath) else
    var place := PlaceOf(blank, m.source).value;
    var b := c.(dirs := c.dirs + Parents(place));
    if place in c.artifacts then
      var file := c.artifacts[place].file;
      if !file.Good? then (b, Unreadable)
      else if file.manifest.contentSha256 != m.contentSha256 then (b, Collision)
      else (Index(blank, b, place, file.manifest, indexWorks), Done(true))
    else if place in b.dirs then (b, Unreadable)
    else
      var d := b.(artifacts := b.artifacts[place := Stored(Good(m), mtime, size)]);
      (Index(blank, d, place, m, indexWorks), Done(false))
  }

  // ---- find, set_alias and delete ------------------------------------------------------------

  // The place the index names, if its manifest can be read there.
  function Find(blank: char -> bool, c: Storage, id: string): Option<Place> {
    if id !in c.table then None else
    var place := PlaceOf(blank, c.table[id].source);
    if place.None? || place.value !in c.artifacts || !c.artifacts[place.value].file.Good? then None else place
  }

  function Aliased(aliases: map<string, string>, id: string, alias: Option<string>): map<string, string> {
    if alias.None? then aliases - {id} else aliases[id := alias.value]
  }

  predicate Shows(c: Storage, id: string, alias: Option<string>) {
    id in c.table && c.table[id].alias == alias
  }

  // The registry with the new alias, and what became of the index row.
  function Realiased(blank: char -> bool, c: Storage, id: string, place: Place, alias: Option<string>, indexWorks: bool): Storage
    requires place in c.artifacts && c.artifacts[place].file.Good?
  {
    Index(blank, c.(aliases := Aliased(c.aliases, id, alias)), place, c.artifacts[place].file.manifest, indexWorks)
  }

  function SetAlias(blank: char -> bool, c: Storage, id: string, alias: Option<string>, indexWorks: bool, listing: seq<Place>): (Storage, Outcome)
    requires forall p :: p in listing ==> p in c.artifacts
  {
    var place := Find(blank, c, id);
    if place.None? then (c, NotFound)
    else if alias.Some? && exists other :: other in c.aliases && c.aliases[other] == alias.value && other != id then (c, Taken)
    else
      var e := Realiased(blank, c, id, place.value, alias, indexWorks);
      if Shows(e, id, alias) then (e, Done(false)) else
      var f := Reconcile(blank, e, listing, true);
      (f, if Shows(f, id, alias) then Done(false) else Lost)
  }

  predicate Below(p: Place, q: Place) {
    |q| < |p| && p[..|q|] == q
  }

  // Nothing is left in the directory.
  predicate Empty(artifacts: map<Place, Stored>, dirs: set<Place>, q: Place) {
    (forall p :: p in artifacts ==> !Below(p, q)) && (forall p :: p in dirs ==> !Below(p, q))
  }

  // The removal of empty parents, upwards from `q`, never the root.
  function Pruned(artifacts: map<Place, Stored>, dirs: set<Place>, q: Place): set<Place>
    decreases |q|
  {
    if q == [] || !Empty(artifacts, dirs, q) then dirs
    else Pruned(artifacts, dirs - {q}, Parent(q))
  }

  function Parent(q: Place): Place {
    if q == [] then [] else q[..|q|-1]
  }

  // A registry or index write that fails puts everything back.
  function Delete(blank: char -> bool, c: Storage, id: string, writesWork: bool): (Storage, Outcome) {
    var place := Find(blank, c, id);
    if place.None? then (c, NotFound)
    else if !writesWork then (c, RolledBack)
    else
      var artifacts := c.artifacts - {place.value};
      (Storage(artifacts, Pruned(artifacts, c.dirs, Parent(place.value)), c.aliases - {id}, c.table - {id}), Done(false))
  }

  // ---- histories -----------------------------------------------------------------------------

  datatype Step =
    | DoPublish(manifest: Manifest, mtime: int, size: nat, indexWorks: bool)
    | DoSetAlias(id: string, alias: Option<string>, indexWorks: bool, listing: seq<Place>)
    | DoDelete(id: string, writesWork: bool)
    | DoReconcile(listing: seq<Place>, readable: bool)

  // Manifests come from `create_manifest`, artifacts are not nested, and walks
  // are complete.
  ghost predicate Proper(blank: char -> bool, c: Storage, step: Step) {
    match step
    case DoPublish(m, _, _, _) =>
      && m.id == ArtifactIdentity(m.source) && Wellformed(m.source)
      && (PlaceOf(blank, m.source).Some? ==> forall p :: p in c.artifacts ==> !Below(PlaceOf(blank, m.source).value, p))
    case DoSetAlias(_, _, _, listing) => Walks(c, listing)
    case DoDelete(_, _) => true
    case DoReconcile(listing, _) => Walks(c, listing)
  }

  ghost function Next(blank: char -> bool, c: Storage, step: Step): Storage
    requires Proper(blank, c, step)
  {
    match step
    case DoPublish(m, mtime, size, works) => Publish(blank, c, m, mtime, size, works).0
    case DoSetAlias(id, alias, works, listing) => SetAlias(blank, c, id, alias, works, listing).0
    case DoDelete(id, works) => Delete(blank, c, id, works).0
    case DoReconcile(listing, readable) => Reconcile(blank, c, listing, readable)
  }
}
