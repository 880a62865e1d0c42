/** The three storage engines. Each stands for a map; together they form the sum type `Engine`
    that takes the place of the source's trait parameter. */
module Storage {
  import opened Wrappers
  import opened Sets
  import opened Paths
  import opened Messages
  import opened KeyPaths
  import opened Disks
  import opened StoreDisks
  import Tries

  // ---- in memory ----

  class MemoryStorage {
    var storage: map<string, Bytes>

    constructor ()
      ensures storage == map[]
    {
      storage := map[];
    }

    method Put(key: string, data: Bytes)
      modifies this
      ensures storage == old(storage)[key := data]
    {
      storage := storage[key := data];
    }

    method Delete(key: string) returns (r: Result<(), IoError>)
      modifies this
      ensures r.Ok? <==> key in old(storage)
      ensures storage == old(storage) - {key}
    {
      if key in storage {
        storage := storage - {key};
        r := Ok(());
      } else {
        r := Err(Missing);
      }
    }

    method Get(key: string) returns (r: Bytes)
      ensures r == if key in storage then storage[key] else []
    {
      r := if key in storage then storage[key] else [];
    }

    /** The keys in the hash map's unspecified order. */
    method Keys() returns (r: seq<string>)
      ensures multiset(r) == multiset(storage.Keys)
    {
      r := [];
      var todo := storage.Keys;
      assert storage.Keys - todo == {};
      while todo != {}
        invariant todo <= storage.Keys
        invariant multiset(r) == multiset(storage.Keys - todo)
      {
        var k :| k in todo;
        TakeOne(storage.Keys, todo, k);
        r, todo := r + [k], todo - {k};
      }
      assert storage.Keys - todo == storage.Keys;
    }
  }

  // ---- on disk ----

  /** From position `n` on, every recorded disk is a working store that shows `a` or `b`. */
  ghost predicate SafeFrom(trail: seq<Disk>, n: nat, root: Path, a: map<string, Bytes>, b: map<string, Bytes>)
  {
    forall j :: n <= j < |trail| ==>
      Sound(trail[j], root) && (View(trail[j], Digest(root)) == a || View(trail[j], Digest(root)) == b)
  }

  lemma SafeSnoc(trail: seq<Disk>, n: nat, root: Path, a: map<string, Bytes>, b: map<string, Bytes>, d: Disk)
    requires SafeFrom(trail, n, root, a, b)
    requires Sound(d, root) && (View(d, Digest(root)) == a || View(d, Digest(root)) == b)
    ensures SafeFrom(trail + [d], n, root, a, b)
  {
  }

  /** `v` is `m` without some of the keys `gone`. */
  ghost predicate Within(v: map<string, Bytes>, m: map<string, Bytes>, gone: set<string>)
  {
    && (forall k :: k in v ==> k in m && v[k] == m[k])
    && (forall k :: k in m && k !in gone ==> k in v)
  }

  /** From position `n` on, every recorded disk is a working store that shows `m` less some of `gone`. */
  ghost predicate CutFrom(trail: seq<Disk>, n: nat, root: Path, m: map<string, Bytes>, gone: set<string>)
  {
    forall j :: n <= j < |trail| ==> Sound(trail[j], root) && Within(View(trail[j], Digest(root)), m, gone)
  }

  /** One more key goes. */
  lemma CutMore(was: seq<Disk>, trail: seq<Disk>, n: nat, root: Path, m: map<string, Bytes>, gone: set<string>,
                d: map<string, Bytes>, key: string)
    requires CutFrom(was, n, root, m, gone) && Within(d, m, gone) && n <= |was|
    requires was <= trail && SafeFrom(trail, |was|, root, d, d - {key})
    ensures CutFrom(trail, n, root, m, gone + {key}) && Within(d - {key}, m, gone + {key})
  {
    forall j | n <= j < |trail|
      ensures Sound(trail[j], root) && Within(View(trail[j], Digest(root)), m, gone + {key})
    {
      if j < |was| {
        assert trail[j] == was[j];
      }
    }
  }

  class FileStorage {
    const fs: FileSystem
    const root: Path

    ghost predicate Valid()
      reads fs
    {
      Sound(fs.disk, root)
    }

    ghost function Map(): map<string, Bytes>
      reads fs
    {
      View(fs.disk, Digest(root))
    }

    constructor (fs: FileSystem, root: Path)
      ensures this.fs == fs && this.root == root
    {
      this.fs := fs;
      this.root := root;
    }

    /** `FileStorage::new`: drops what an earlier run left in the ingest directory, keeps the rest. */
    static method Open(fs: FileSystem, root: Path) returns (r: Result<FileStorage, IoError>)
      requires TreeDisk(fs.disk)
      modifies fs
      ensures r.Err? <==> !old(fs.IsDir(root)) || old(fs.IsFile(Ingest(root))) || old(fs.IsFile(Digest(root)))
      ensures r.Ok? ==> fresh(r.value) && r.value.fs == fs && r.value.root == root
      ensures r.Ok? && old(StoreDisk(fs.disk, root)) ==>
        r.value.Valid() && r.value.Map() == old(View(fs.disk, Digest(root)))
      ensures r.Ok? ==> fs.IsDir(Ingest(root)) && forall p :: Ingest(root) < p ==> p !in fs.disk
      ensures r.Ok? ==> fs.disk == Opened(old(fs.disk), root)
    {
      if !fs.IsDir(root) {
        return Err(NotADirectory);
      }
      IngestDropped(fs.disk, root);
      OpenedInSteps(fs.disk, root);
      Siblings(root, Digest(root));
      if fs.IsDir(Ingest(root)) {  // `exists()`: the path ends in a slash, so a plain file does not count
        var gone := fs.RemoveDirAll(Ingest(root));
        assert gone.Ok? && fs.disk == WithoutSubtree(old(fs.disk), Ingest(root));
      }
      if !fs.IsDir(Digest(root)) {
        var made := MakeDir(fs, root, "digest");
        if made.Err? {
          return Err(made.error);
        }
      }
      ghost var d := fs.disk;
      assert d == d[Digest(root) := Dir];
      var made := MakeDir(fs, root, "ingest");
      if made.Err? {
        return Err(made.error);
      }
      assert fs.disk == d[Ingest(root) := Dir];
      var store := new FileStorage(fs, root);
      r := Ok(store);
    }

    /** `fs::create_dir_all` on a path whose parent exists: fails where there is a plain file. */
    static method MakeDir(fs: FileSystem, root: Path, s: string) returns (r: Result<(), IoError>)
      requires TreeDisk(fs.disk) && fs.IsDir(root)
      modifies fs
      ensures TreeDisk(fs.disk) && (r.Err? <==> old(fs.IsFile(Child(root, s))))
      ensures fs.disk == if old(fs.Exists(Child(root, s))) then old(fs.disk) else old(fs.disk)[Child(root, s) := Dir]
      ensures old(StoreDisk(fs.disk, root)) ==>
        StoreDisk(fs.disk, root) && View(fs.disk, Digest(root)) == old(View(fs.disk, Digest(root)))
    {
      if fs.IsFile(Child(root, s)) {
        return Err(NotADirectory);
      }
      OneDir(fs.disk, root, s);
      if !fs.Exists(Child(root, s)) { DirAdded(fs.disk, root, s); }
      fs.CreateDirAll(Child(root, s));
      r := Ok(());
    }

    /** The path of a key's file. */
    function PathOf(key: string): Path
    {
      FileOf(Digest(root), key)
    }

    method Put(key: string, data: Bytes)
      requires Valid() && Acceptable(key)
      modifies fs
      ensures Valid() && Map() == old(Map())[key := data]
      ensures old(fs.trail) <= fs.trail && SafeFrom(fs.trail, |old(fs.trail)|, root, old(Map()), Map())
    {
      AtomicWrite(key, data);
    }

    /** `atomic_write`: a scratch file beside the two directories, filled in as many writes as it
        takes, then renamed onto the key's file. */
    method AtomicWrite(key: string, data: Bytes)
      requires Valid() && Acceptable(key)
      modifies fs
      ensures Valid() && Map() == old(Map())[key := data]
      ensures old(fs.trail) <= fs.trail && SafeFrom(fs.trail, |old(fs.trail)|, root, old(Map()), Map())
    {
      ghost var was, n := Map(), |fs.trail|;
      var name := Scratch(key, data);
      MakeWay(key);
      RenameIsSound(fs.disk, root, name, key);
      RenameLands(fs.disk, root, name, key);
      ghost var trail := fs.trail;
      fs.Rename(Child(root, name), PathOf(key));
      assert SafeFrom(trail, n, root, was, Map());
      SafeSnoc(trail, n, root, was, Map(), fs.disk);
    }

    /** Creates the scratch file under a free name and writes all the data to it. */
    method Scratch(key: string, data: Bytes) returns (name: string)
      requires Valid()
      modifies fs
      ensures Valid() && Map() == old(Map())
      ensures Child(root, name) in fs.disk && fs.disk[Child(root, name)] == File(data)
      ensures old(fs.trail) <= fs.trail && SafeFrom(fs.trail, |old(fs.trail)|, root, old(Map()), old(Map()))
    {
      ghost var was, n := Map(), |fs.trail|;
      name := FreeName();
      ScratchIsInvisible(fs.disk, root, name, []);
      var tmp := fs.CreateTemp(root, name);
      var i := 0;
      while i < |data|
        invariant 0 <= i <= |data| && Valid() && Map() == was
        invariant tmp in fs.disk && fs.disk[tmp] == File(data[..i])
        invariant old(fs.trail) <= fs.trail && SafeFrom(fs.trail, n, root, was, was)
      {
        var k :| i < k <= |data|;
        ScratchIsInvisible(fs.disk, root, name, data[..i] + data[i..k]);
        ghost var trail := fs.trail;
        fs.Append(tmp, data[i..k]);
        SafeSnoc(trail, n, root, was, was, fs.disk);
        assert data[..i] + data[i..k] == data[..k];
        i := k;
      }
      assert data[..i] == data;
    }

    /** A name nobody uses in the root directory; which one is the temp-file library's choice. */
    method FreeName() returns (name: string)
      ensures Child(root, name) !in fs.disk && TEMP_PREFIX <= name
    {
      ghost var used := set p | p in fs.disk && p != [] :: Last(p);
      ghost var free := Unused(used);
      assert Last(Child(root, free)) == free;
      name :| Child(root, name) !in fs.disk && TEMP_PREFIX <= name;
    }

    /** `fs::create_dir_all(filename.parent())` */
    method MakeWay(key: string)
      requires Valid() && Acceptable(key)
      modifies fs
      ensures Valid() && Map() == old(Map()) && Parent(PathOf(key)) in fs.disk
      ensures forall p :: p in old(fs.disk) ==> p in fs.disk && fs.disk[p] == old(fs.disk)[p]
      ensures old(fs.trail) <= fs.trail && SafeFrom(fs.trail, |old(fs.trail)|, root, old(Map()), old(Map()))
    {
      ghost var d := fs.disk;
      var way := Parent(PathOf(key));
      forall i | 0 <= i <= |way| && way[..i] in d ensures d[way[..i]].Dir? {
        assert way[..i] == PathOf(key)[..i];
        WayIsClear(d, root, key, way[..i]);
      }
      forall n | 0 <= n <= |way|
        ensures Sound(WithDirs(d, way, n), root) && View(WithDirs(d, way, n), Digest(root)) == View(d, Digest(root))
      {
        DirsAreInvisible(d, root, key, n);
      }
      WithDirsAdds(d, way, |way|);
      assert way[..|way|] == way;
      forall j | 0 <= j < |NewDisks(d, way, |way|)|
        ensures var e := NewDisks(d, way, |way|)[j];
                Sound(e, root) && View(e, Digest(root)) == View(d, Digest(root))
      {
        NewDisksOnly(d, way, |way|, j);
      }
      fs.CreateDirAll(way);
    }

    method Delete(key: string) returns (r: Result<(), IoError>)
      requires Valid() && Acceptable(key)
      modifies fs
      ensures Valid() && Map() == old(Map()) - {key}
      ensures r.Ok? <==> key in old(Map())
      ensures old(fs.trail) <= fs.trail && SafeFrom(fs.trail, |old(fs.trail)|, root, Map(), Map())
    {
      ViewAt(fs.disk, Digest(root), key);
      if fs.IsFile(PathOf(key)) { RemovalLands(fs.disk, root, key); }
      r := fs.RemoveFile(PathOf(key));
    }

    method Get(key: string) returns (r: Bytes)
      requires Valid() && Acceptable(key)
      ensures r == if key in Map() then Map()[key] else []
    {
      ViewAt(fs.disk, Digest(root), key);
      var data := fs.Read(PathOf(key));
      r := if data.Ok? then data.value else [];
    }

    /** Every stored key exactly once, in the directories' unspecified order. */
    method Keys() returns (r: seq<string>)
      requires Valid()
      ensures multiset(r) == multiset(Map().Keys)
    {
      ghost var ps;
      r, ps := IterateFolders(Digest(root));
      FilesAreKeys(fs.disk, Digest(root), ps, r);
    }

    /** `iterate_folders`: pushes the keys of the files at or below `cur`; empty directories add nothing. */
    method IterateFolders(cur: Path) returns (r: seq<string>, ghost ps: seq<Path>)
      requires Valid() && cur in fs.disk && Digest(root) <= cur
      ensures KeysOfFiles(r, ps, Digest(root)) && multiset(ps) == multiset(FilesUnder(fs.disk, cur))
      decreases |Tries.Under(fs.disk.Keys, cur)|, 1
    {
      r, ps := [], [];
      ghost var d := fs.disk;
      var dig := Digest(root);
      if fs.IsFile(cur) {
        var key := PathToKey(cur[|dig|..]);
        LoneFile(d, root, cur);
        FileInView(d, dig, cur);
        if key != "" { r, ps := [key], [cur]; }
      } else if fs.IsDir(cur) {
        r, ps := IterateEntries(cur);
      }
    }

    /** The loop over one directory. */
    method IterateEntries(cur: Path) returns (r: seq<string>, ghost ps: seq<Path>)
      requires Valid() && fs.IsDir(cur) && Digest(root) <= cur
      ensures KeysOfFiles(r, ps, Digest(root)) && multiset(ps) == multiset(FilesUnder(fs.disk, cur))
      decreases |Tries.Under(fs.disk.Keys, cur)|, 0
    {
      r, ps := [], [];
      ghost var d, dig := fs.disk, Digest(root);
      var names := fs.Entries(cur);
      var todo := names;
      NoneVia(d, cur);
      assert names - todo == {};
      while todo != {}
        invariant todo <= names
        invariant KeysOfFiles(r, ps, dig) && multiset(ps) == multiset(Tries.Via(FilesUnder(d, cur), cur, names - todo))
      {
        var s :| s in todo;
        Tries.SubtreeShrinks(d.Keys, cur, s);
        var sub, qs := IterateFolders(Child(cur, s));
        TakeOne(names, todo, s);
        FilesVia(d, cur, names - todo, s);
        FilesConcat(r, ps, sub, qs, dig);
        r, ps := r + sub, ps + qs;
        todo := todo - {s};
      }
      assert names - todo == names;
      AllVia(d, cur, names);
    }
  }

  /** `r` holds the keys of the files `ps`. */
  ghost predicate KeysOfFiles(r: seq<string>, ps: seq<Path>, dig: Path)
  {
    && |r| == |ps|
    && forall i :: 0 <= i < |ps| ==> dig < ps[i] && r[i] == PathToKey(ps[i][|dig|..])
  }

  lemma FilesConcat(r: seq<string>, ps: seq<Path>, u: seq<string>, qs: seq<Path>, dig: Path)
    requires KeysOfFiles(r, ps, dig) && KeysOfFiles(u, qs, dig)
    ensures KeysOfFiles(r + u, ps + qs, dig)
  {
  }

  lemma Unused(used: set<string>) returns (s: string)
    ensures s !in used && TEMP_PREFIX <= s
  {
    var n := Longer(used);
    s := TEMP_PREFIX + seq(n, _ => 'x');
  }

  lemma Longer(used: set<string>) returns (n: nat)
    ensures forall x :: x in used ==> |x| < n
  {
    if used == {} {
      n := 0;
    } else {
      var x :| x in used;
      var m := Longer(used - {x});
      n := m + |x| + 1;
    }
  }

  lemma LoneFile(d: Disk, root: Path, p: Path)
    requires Sound(d, root) && FileAt(d, p) && Digest(root) <= p
    ensures FilesUnder(d, p) == {p} && Digest(root) < p
  {
    forall q | q in d && p <= q ensures q == p {
      if q != p {
        ChildOfParent(q);
        assert p <= Parent(q);
        DirsAbove(d, p, Parent(q));
      }
    }
  }

  lemma FilesVia(d: Disk, cur: Path, done: set<string>, s: string)
    requires s !in done
    ensures var fs := FilesUnder(d, cur);
            multiset(Tries.Via(fs, cur, done + {s})) ==
            multiset(Tries.Via(fs, cur, done)) + multiset(FilesUnder(d, Child(cur, s)))
  {
    var fs := FilesUnder(d, cur);
    Tries.ViaStep(fs, cur, done, s);
    assert Tries.Under(fs, Child(cur, s)) == FilesUnder(d, Child(cur, s));
  }

  lemma NoneVia(d: Disk, cur: Path)
    requires cur in d && d[cur].Dir?
    ensures Tries.Via(FilesUnder(d, cur), cur, {}) == {}
  {
  }

  lemma AllVia(d: Disk, cur: Path, done: set<string>)
    requires TreeDisk(d) && cur in d && d[cur].Dir?
    requires forall s :: Child(cur, s) in d ==> s in done
    ensures Tries.Via(FilesUnder(d, cur), cur, done) == FilesUnder(d, cur)
  {
    forall q | q in d && cur < q ensures q[|cur|] in done { FirstStep(d, cur, q); }
  }

  lemma {:induction false} FirstStep(d: Disk, p: Path, q: Path)
    requires TreeDisk(d) && q in d && p < q
    ensures Child(p, q[|p|]) in d
    decreases |q|
  {
    ChildOfParent(q);
    if p != Parent(q) {
      assert p < Parent(q) && Parent(q)[|p|] == q[|p|];
      FirstStep(d, p, Parent(q));
    }
  }

  ghost function KeysOfSet(files: set<Path>, dig: Path): set<string>
  {
    set p | p in files && dig < p :: PathToKey(p[|dig|..])
  }

  /** One file per key: listing files without repetition lists keys without repetition. */
  lemma {:induction false} DistinctKeys(d: Disk, dig: Path, files: set<Path>, ps: seq<Path>, r: seq<string>)
    requires Tended(d, dig) && files <= FilesUnder(d, dig) && dig !in files
    requires KeysOfFiles(r, ps, dig) && multiset(ps) == multiset(files)
    ensures multiset(r) == multiset(KeysOfSet(files, dig))
  {
    hide PathToKey;
    hide FileRel;
    hide DirRel;
    if ps == [] {
      NoneLeft(files);
    } else {
      var n := |ps| - 1;
      assert ps == ps[..n] + [ps[n]] && r == r[..n] + [r[n]];
      OneLess(ps, files);
      DistinctKeys(d, dig, files - {ps[n]}, ps[..n], r[..n]);
      KeysOfOneMore(d, dig, files, ps[n]);
    }
  }

  lemma KeysOfOneMore(d: Disk, dig: Path, files: set<Path>, p: Path)
    requires Tended(d, dig) && files <= FilesUnder(d, dig) && dig !in files && p in files
    ensures var key := PathToKey(p[|dig|..]);
            && key !in KeysOfSet(files - {p}, dig)
            && KeysOfSet(files, dig) == KeysOfSet(files - {p}, dig) + {key}
  {
    var key := PathToKey(p[|dig|..]);
    forall q | q in files && PathToKey(q[|dig|..]) == key ensures q == p {
      FileInView(d, dig, p);
      FileInView(d, dig, q);
    }
    hide PathToKey;
    BelowOrAt(dig, p);
    var some, all := KeysOfSet(files - {p}, dig), KeysOfSet(files, dig);
    forall k ensures k in all <==> k in some + {key} {
      if k in all {
        var q :| q in files && dig < q && PathToKey(q[|dig|..]) == k;
        if q != p { assert q in files - {p}; }
      }
      if k in some {
        var q :| q in files - {p} && dig < q && PathToKey(q[|dig|..]) == k;
        assert q in files;
      }
    }
  }

  /** Listing all files lists all keys. */
  lemma FilesAreKeys(d: Disk, dig: Path, ps: seq<Path>, r: seq<string>)
    requires Tended(d, dig) && dig in d && d[dig].Dir?
    requires KeysOfFiles(r, ps, dig) && multiset(ps) == multiset(FilesUnder(d, dig))
    ensures multiset(r) == multiset(View(d, dig).Keys)
  {
    var files := FilesUnder(d, dig);
    DistinctKeys(d, dig, files, ps, r);
    forall k ensures k in KeysOfSet(files, dig) <==> k in View(d, dig) {
      if k in KeysOfSet(files, dig) {
        var p :| p in files && dig < p && PathToKey(p[|dig|..]) == k;
        FileInView(d, dig, p);
      }
    }
  }
}
