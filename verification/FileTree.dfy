// A filesystem of names, inodes and contents, with the system calls the
// client uses to build and publish an artifact.
module FileTree {
  import opened TaskTypes

  type Place = seq<string>
  type Ino = nat
  type Content = string

  // Other stands for directories, symbolic links and special files.
  datatype Node = File(ino: Ino) | Other

  // Contents of inodes without names are kept: they only become unreachable.
  datatype Fs = Fs(names: map<Place, Node>, contents: map<Ino, Content>)

  predicate Under(p: Place, root: Place) {
    |root| <= |p| && p[..|root|] == root
  }

  // ---- system calls on one name ------------------------------------------------

  function Removed(fs: Fs, p: Place): Fs {
    fs.(names := fs.names - {p})
  }

  function WithName(fs: Fs, p: Place, n: Node): Fs {
    fs.(names := fs.names[p := n])
  }

  // `O_CREATE|O_EXCL`
  function Created(fs: Fs, p: Place, ino: Ino): Fs {
    Fs(fs.names[p := File(ino)], fs.contents[ino := ""])
  }

  function Appended(fs: Fs, ino: Ino, data: Content): Fs {
    fs.(contents := fs.contents[ino := (if ino in fs.contents then fs.contents[ino] else "") + data])
  }

  function Renamed(fs: Fs, from: Place, to: Place): Fs
    requires from in fs.names
  {
    fs.(names := (fs.names - {from})[to := fs.names[from]])
  }

  // ---- system calls on whole trees -----------------------------------------------

  function Rebase(p: Place, from: Place, to: Place): Place
    requires Under(p, from)
  {
    to + p[|from|..]
  }

  // Where the names under `from` go.
  function Moved(fs: Fs, from: Place, to: Place): set<Place> {
    set p | p in fs.names && Under(p, from) :: Rebase(p, from, to)
  }

  function RenamedTree(fs: Fs, from: Place, to: Place): Fs {
    var kept := set p | p in fs.names && !Under(p, from) && !Under(p, to);
    fs.(names := map p | p in Moved(fs, from, to) + kept :: if Under(p, to) then NodeOr(fs, Rebase(p, to, from)) else NodeOr(fs, p))
  }

  // `renameat2(RENAME_EXCHANGE)`
  function Exchanged(fs: Fs, a: Place, b: Place): Fs {
    var kept := set p | p in fs.names && !Under(p, a) && !Under(p, b);
    fs.(names := map p | p in Moved(fs, a, b) + Moved(fs, b, a) + kept ::
          if Under(p, a) then NodeOr(fs, Rebase(p, a, b)) else if Under(p, b) then NodeOr(fs, Rebase(p, b, a)) else NodeOr(fs, p))
  }

  function NodeOr(fs: Fs, p: Place): Node {
    if p in fs.names then fs.names[p] else Other
  }

  // ---- what can be seen of a tree ---------------------------------------------------

  function NodeAt(fs: Fs, p: Place): Option<Node> {
    if p in fs.names then Some(fs.names[p]) else None
  }

  // The content of the regular file at a place.
  function ContentAt(fs: Fs, p: Place): Option<Content> {
    if p in fs.names && fs.names[p].File? && fs.names[p].ino in fs.contents then Some(fs.contents[fs.names[p].ino]) else None
  }

  // Inodes are never rewritten.
  ghost predicate Preserves(fs: Fs, gs: Fs) {
    forall i :: i in fs.contents ==> i in gs.contents && gs.contents[i] == fs.contents[i]
  }

  // Nothing outside the tree gains, loses or changes a name.
  ghost predicate OnlyUnder(fs: Fs, gs: Fs, root: Place) {
    forall p :: !Under(p, root) ==> NodeAt(gs, p) == NodeAt(fs, p)
  }

  // Names lead to inodes that exist.
  ghost predicate Sane(fs: Fs) {
    forall p :: p in fs.names && fs.names[p].File? ==> fs.names[p].ino in fs.contents
  }

  predicate Apart(a: Place, b: Place) {
    !Under(a, b) && !Under(b, a)
  }

  lemma ApartTrees(a: Place, b: Place, p: Place)
    requires Apart(a, b) && Under(p, a)
    ensures !Under(p, b)
  {
    var n := if |a| <= |b| then |a| else |b|;
    assert p[..n] == a[..n];
  }

  lemma MovedContains(fs: Fs, from: Place, to: Place, p: Place)
    ensures p in Moved(fs, from, to) <==> Under(p, to) && Rebase(p, to, from) in fs.names
  {
    if p in Moved(fs, from, to) {
      var q :| q in fs.names && Under(q, from) && Rebase(q, from, to) == p;
      assert p[|to|..] == q[|from|..] && q == from + q[|from|..];
    }
    if Under(p, to) && Rebase(p, to, from) in fs.names {
      var q := Rebase(p, to, from);
      assert Under(q, from) && q[|from|..] == p[|to|..] && p == to + p[|to|..];
      assert Rebase(q, from, to) == p;
    }
  }

  // A renamed tree is the same tree at its new place, and nothing else moves.
  lemma RenamedTreeExact(fs: Fs, from: Place, to: Place, rel: Place, p: Place)
    requires Apart(from, to)
    ensures NodeAt(RenamedTree(fs, from, to), to + rel) == NodeAt(fs, from + rel)
    ensures NodeAt(RenamedTree(fs, from, to), from + rel) == None
    ensures !Under(p, from) && !Under(p, to) ==> NodeAt(RenamedTree(fs, from, to), p) == NodeAt(fs, p)
  {
    ApartTrees(from, to, from + rel);
    ApartTrees(to, from, to + rel);
    assert Rebase(to + rel, to, from) == from + rel;
    MovedContains(fs, from, to, to + rel);
    MovedContains(fs, from, to, from + rel);
    MovedContains(fs, from, to, p);
    hide Moved, Rebase, Under;
  }

  // An exchange swaps two trees in one step.
  lemma ExchangedExact(fs: Fs, a: Place, b: Place, rel: Place, p: Place)
    requires Apart(a, b)
    ensures NodeAt(Exchanged(fs, a, b), b + rel) == NodeAt(fs, a + rel)
    ensures NodeAt(Exchanged(fs, a, b), a + rel) == NodeAt(fs, b + rel)
    ensures !Under(p, a) && !Under(p, b) ==> NodeAt(Exchanged(fs, a, b), p) == NodeAt(fs, p)
  {
    ApartTrees(a, b, a + rel);
    ApartTrees(b, a, b + rel);
    assert Rebase(b + rel, b, a) == a + rel && Rebase(a + rel, a, b) == b + rel;
    MovedContains(fs, a, b, b + rel);
    MovedContains(fs, b, a, b + rel);
    MovedContains(fs, a, b, a + rel);
    MovedContains(fs, b, a, a + rel);
    MovedContains(fs, a, b, p);
    MovedContains(fs, b, a, p);
    hide Moved, Rebase, Under;
  }
}
