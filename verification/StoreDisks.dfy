/** Which disks are stores, the map such a disk stands for, and what each step of a write does to it. */
module StoreDisks {
  import opened Paths
  import opened Messages
  import opened KeyPaths
  import opened Disks

  function Digest(root: Path): Path
  {
    Child(root, "digest")
  }

  /** How the temp-file library names its files. */
  const TEMP_PREFIX := ".tmp"

  function Ingest(root: Path): Path
  {
    Child(root, "ingest")
  }

  function FileOf(dig: Path, key: string): Path
  {
    dig + KeyPath(key)
  }

  /** Below the digest directory: files of keys, and directories on the way to them. */
  ghost predicate Tended(d: Disk, dig: Path)
  {
    forall p :: p in d && dig < p ==> if d[p].File? then FileRel(p[|dig|..]) else DirRel(p[|dig|..])
  }

  ghost predicate StoreDisk(d: Disk, root: Path)
  {
    && TreeDisk(d) && root in d && d[root].Dir?
    && (Digest(root) in d ==> d[Digest(root)].Dir?)
    && (Ingest(root) in d ==> d[Ingest(root)].Dir?)
    && Tended(d, Digest(root))
  }

  /** A disk that an open store runs on. */
  ghost predicate Sound(d: Disk, root: Path)
  {
    StoreDisk(d, root) && Digest(root) in d
  }

  ghost predicate FileAt(d: Disk, p: Path)
  {
    p in d && d[p].File?
  }

  /** Files at or below `p`. */
  ghost function FilesUnder(d: Disk, p: Path): set<Path>
  {
    set q | q in d && p <= q && d[q].File?
  }

  ghost function KeysOn(d: Disk, dig: Path): set<string>
  {
    set p | p in FilesUnder(d, dig) && dig < p :: PathToKey(p[|dig|..])
  }

  /** The map the disk stands for. */
  ghost function View(d: Disk, dig: Path): map<string, Bytes>
  {
    map k | k in KeysOn(d, dig) && FileAt(d, FileOf(dig, k)) :: d[FileOf(dig, k)].data
  }

  lemma ViewAt(d: Disk, dig: Path, key: string)
    requires Tended(d, dig)
    ensures key in View(d, dig) <==> Acceptable(key) && FileAt(d, FileOf(dig, key))
    ensures key in View(d, dig) ==> View(d, dig)[key] == d[FileOf(dig, key)].data
  {
    if key in View(d, dig) {
      var p :| p in FilesUnder(d, dig) && dig < p && PathToKey(p[|dig|..]) == key;
      FileHasKey(p[|dig|..]);
    }
    if Acceptable(key) && FileAt(d, FileOf(dig, key)) {
      KeyHasFile(key);
      assert FileOf(dig, key)[|dig|..] == KeyPath(key);
      assert dig < FileOf(dig, key);
    }
  }

  /** A file below the digest directory is the file of a key of the view. */
  lemma FileInView(d: Disk, dig: Path, p: Path)
    requires Tended(d, dig) && p in FilesUnder(d, dig) && p != dig
    ensures var key := PathToKey(p[|dig|..]);
            key != "" && key in View(d, dig) && FileOf(dig, key) == p
  {
    var rel := p[|dig|..];
    assert p == dig + rel;
    FileHasKey(rel);
    ViewAt(d, dig, PathToKey(rel));
  }

  /** `m` holds under each acceptable key what its file holds. */
  ghost predicate Shows(d: Disk, dig: Path, m: map<string, Bytes>)
  {
    forall k :: (k in m <==> Acceptable(k) && FileAt(d, FileOf(dig, k))) && (k in m ==> m[k] == d[FileOf(dig, k)].data)
  }

  lemma ViewIsWhatShows(d: Disk, dig: Path, m: map<string, Bytes>)
    requires Tended(d, dig)
    ensures Shows(d, dig, View(d, dig))
    ensures Shows(d, dig, m) ==> m == View(d, dig)
  {
    var v := View(d, dig);
    forall k
      ensures (k in v <==> Acceptable(k) && FileAt(d, FileOf(dig, k))) && (k in v ==> v[k] == d[FileOf(dig, k)].data)
    {
      ViewAt(d, dig, k);
    }
  }

  lemma SameView(d: Disk, e: Disk, dig: Path)
    requires Tended(d, dig) && Tended(e, dig)
    requires forall p :: dig < p ==> (FileAt(d, p) <==> FileAt(e, p)) && (FileAt(d, p) ==> d[p] == e[p])
    ensures View(d, dig) == View(e, dig)
  {
    ViewIsWhatShows(d, dig, map[]);
    forall k | Acceptable(k) ensures dig < FileOf(dig, k) { FilesDiffer(dig, k, k); }
    ViewIsWhatShows(e, dig, View(d, dig));
  }

  lemma {:induction false} DirsAbove(d: Disk, p: Path, q: Path)
    requires TreeDisk(d) && q in d && d[q].Dir? && p <= q
    ensures p in d && d[p].Dir?
    decreases |q|
  {
    if p != q {
      ChildOfParent(q);
      assert p <= Parent(q);
      DirsAbove(d, p, Parent(q));
    }
  }

  lemma FileAdded(d: Disk, p: Path, s: string, data: Bytes)
    requires TreeDisk(d) && p in d && d[p].Dir? && (Child(p, s) in d ==> d[Child(p, s)].File?)
    ensures TreeDisk(d[Child(p, s) := File(data)])
  {
    var e := d[Child(p, s) := File(data)];
    forall q, t | Child(q, t) in e ensures q in e && e[q].Dir? {
      if Child(q, t) == Child(p, s) { ChildInjective(q, t, p, s); }
    }
  }

  lemma FileDropped(d: Disk, p: Path)
    requires TreeDisk(d) && FileAt(d, p)
    ensures TreeDisk(d - {p})
  {
    forall q, t | Child(q, t) in d - {p} ensures q in d - {p} && (d - {p})[q].Dir? { }
  }

  /** A scratch file next to the digest directory changes nothing that counts. */
  lemma ScratchIsInvisible(d: Disk, root: Path, name: string, data: Bytes)
    requires Sound(d, root) && TEMP_PREFIX <= name && (Child(root, name) in d ==> d[Child(root, name)].File?)
    ensures var e := d[Child(root, name) := File(data)];
            Sound(e, root) && View(e, Digest(root)) == View(d, Digest(root))
  {
    var tmp := Child(root, name);
    var e := d[tmp := File(data)];
    assert |tmp| == |Digest(root)|;
    assert Last(tmp)[0] == '.' && Last(Ingest(root))[0] == 'i';
    FileAdded(d, root, name, data);
    SameView(d, e, Digest(root));
  }

  /** Directories on the way to a key's file are free or directories. */
  lemma WayIsClear(d: Disk, root: Path, key: string, q: Path)
    requires Sound(d, root) && Acceptable(key) && q < FileOf(Digest(root), key)
    ensures q in d ==> d[q].Dir?
    ensures q <= Digest(root) ==> q in d
    ensures Digest(root) < q ==> DirRel(q[|Digest(root)|..])
  {
    hide KeyPath;
    var dig := Digest(root);
    KeyHasFile(key);
    PrefixesCompare(q, dig, FileOf(dig, key));
    if q <= dig {
      DirsAbove(d, q, dig);
    } else {
      var rel := q[|dig|..];
      assert rel == KeyPath(key)[..|rel|];
      DirOnTheWay(rel, KeyPath(key));
      if FileRel(rel) { FileIsNotDir(rel); }
    }
  }

  /** So are half-made directories on the way to a key's file. */
  lemma DirsAreInvisible(d: Disk, root: Path, key: string, n: nat)
    requires Sound(d, root) && Acceptable(key) && n <= |FileOf(Digest(root), key)| - 1
    ensures var e := WithDirs(d, Parent(FileOf(Digest(root), key)), n);
            Sound(e, root) && View(e, Digest(root)) == View(d, Digest(root))
  {
    var dig, fp := Digest(root), FileOf(Digest(root), key);
    var e := WithDirs(d, Parent(fp), n);
    WithDirsAdds(d, Parent(fp), n);
    forall q | q in e && q !in d ensures dig < q && DirRel(q[|dig|..]) && e[q].Dir? {
      NewDirIsBelow(d, root, key, n, q);
    }
    forall p, s | Child(p, s) in e ensures p in e && e[p].Dir? {
      if Child(p, s) !in d { NewDirHasParent(d, root, key, n, p, s); }
    }
    SameView(d, e, dig);
  }

  lemma NewDirIsBelow(d: Disk, root: Path, key: string, n: nat, q: Path)
    requires Sound(d, root) && Acceptable(key) && n <= |FileOf(Digest(root), key)| - 1
    requires q in WithDirs(d, Parent(FileOf(Digest(root), key)), n) && q !in d
    ensures Digest(root) < q && DirRel(q[|Digest(root)|..])
    ensures WithDirs(d, Parent(FileOf(Digest(root), key)), n)[q].Dir?
  {
    var dig, fp := Digest(root), FileOf(Digest(root), key);
    WithDirsAdds(d, Parent(fp), n);
    assert q == fp[..|q|];
    WayIsClear(d, root, key, q);
    PrefixesCompare(q, dig, fp);
  }

  lemma NewDirHasParent(d: Disk, root: Path, key: string, n: nat, p: Path, s: string)
    requires Sound(d, root) && Acceptable(key) && n <= |FileOf(Digest(root), key)| - 1
    requires Child(p, s) in WithDirs(d, Parent(FileOf(Digest(root), key)), n) && Child(p, s) !in d
    ensures var e := WithDirs(d, Parent(FileOf(Digest(root), key)), n);
            p in e && e[p].Dir?
  {
    hide Sound;
    var fp, c := FileOf(Digest(root), key), Child(p, s);
    WithDirsAdds(d, Parent(fp), n);
    assert c == Parent(fp)[..|c|] && p == c[..|p|];
    assert p == Parent(fp)[..|p|];
    WayIsClear(d, root, key, p);
  }

  /** Two keys share a file only if they are the same key. */
  lemma FilesDiffer(dig: Path, a: string, b: string)
    requires Acceptable(a) && Acceptable(b)
    ensures FileOf(dig, a) == FileOf(dig, b) <==> a == b
    ensures dig < FileOf(dig, a)
  {
    KeyHasFile(a);
    KeyHasFile(b);
    assert FileOf(dig, a)[|dig|..] == KeyPath(a) && FileOf(dig, b)[|dig|..] == KeyPath(b);
  }

  lemma RenameIsSound(d: Disk, root: Path, name: string, key: string)
    requires Sound(d, root) && Acceptable(key)
    requires Child(root, name) in d && d[Child(root, name)].File?
    requires Parent(FileOf(Digest(root), key)) in d
    ensures var tmp, fp := Child(root, name), FileOf(Digest(root), key);
            && tmp != fp && (fp in d ==> d[fp].File?) && d[Parent(fp)].Dir?
            && Sound((d - {tmp})[fp := d[tmp]], root)
  {
    var dig, tmp, fp := Digest(root), Child(root, name), FileOf(Digest(root), key);
    var e := (d - {tmp})[fp := d[tmp]];
    KeyHasFile(key);
    assert |tmp| == |dig| < |fp| && fp[|dig|..] == KeyPath(key);
    assert Parent(fp) < fp;
    WayIsClear(d, root, key, Parent(fp));
    FileIsNotDir(KeyPath(key));
    ChildOfParent(fp);
    FileDropped(d, tmp);
    assert Parent(fp) != tmp;
    FileAdded(d - {tmp}, Parent(fp), Last(fp), d[tmp].data);
  }

  /** The rename is the moment at which the write happens. */
  lemma RenameLands(d: Disk, root: Path, name: string, key: string)
    requires Sound(d, root) && Acceptable(key)
    requires Child(root, name) in d && d[Child(root, name)].File?
    requires Parent(FileOf(Digest(root), key)) in d
    ensures var dig, tmp, fp := Digest(root), Child(root, name), FileOf(Digest(root), key);
            View((d - {tmp})[fp := d[tmp]], dig) == View(d, dig)[key := d[tmp].data]
  {
    var dig, tmp, fp := Digest(root), Child(root, name), FileOf(Digest(root), key);
    RenameIsSound(d, root, name, key);
    ViewIsWhatShows(d, dig, map[]);
    LandingShows(d, dig, tmp, key, View(d, dig));
    ViewIsWhatShows((d - {tmp})[fp := d[tmp]], dig, View(d, dig)[key := d[tmp].data]);
  }

  lemma LandingShows(d: Disk, dig: Path, tmp: Path, key: string, m: map<string, Bytes>)
    requires Shows(d, dig, m) && Acceptable(key) && FileAt(d, tmp) && |tmp| == |dig|
    ensures Shows((d - {tmp})[FileOf(dig, key) := d[tmp]], dig, m[key := d[tmp].data])
  {
    forall k | Acceptable(k)
      ensures FileOf(dig, k) == FileOf(dig, key) <==> k == key
      ensures FileOf(dig, k) != tmp
    {
      FilesDiffer(dig, k, key);
    }
  }

  lemma RemovalLands(d: Disk, root: Path, key: string)
    requires Sound(d, root) && Acceptable(key) && FileAt(d, FileOf(Digest(root), key))
    ensures var e := d - {FileOf(Digest(root), key)};
            Sound(e, root) && View(e, Digest(root)) == View(d, Digest(root)) - {key}
  {
    var dig, fp := Digest(root), FileOf(Digest(root), key);
    FilesDiffer(dig, key, key);
    FileDropped(d, fp);
    ViewIsWhatShows(d, dig, map[]);
    RemovalShows(d, dig, key, View(d, dig));
    ViewIsWhatShows(d - {fp}, dig, View(d, dig) - {key});
  }

  lemma RemovalShows(d: Disk, dig: Path, key: string, m: map<string, Bytes>)
    requires Shows(d, dig, m) && Acceptable(key)
    ensures Shows(d - {FileOf(dig, key)}, dig, m - {key})
  {
    forall k | Acceptable(k) ensures FileOf(dig, k) == FileOf(dig, key) <==> k == key { FilesDiffer(dig, k, key); }
  }

  // ---- opening ----

  lemma {:induction false} WithOneDir(d: Disk, root: Path, s: string, n: nat)
    requires TreeDisk(d) && root in d && d[root].Dir? && n <= |root|
    ensures WithDirs(d, Child(root, s), n) == d
    ensures Child(root, s)[..n] in d && d[Child(root, s)[..n]].Dir?
  {
    assert Child(root, s)[..n] == root[..n];
    DirsAbove(d, root[..n], root);
    if n > 0 { WithOneDir(d, root, s, n - 1); }
  }

  /** Making a directory in an existing one is a single step. */
  lemma OneDir(d: Disk, root: Path, s: string)
    requires TreeDisk(d) && root in d && d[root].Dir? && (Child(root, s) in d ==> d[Child(root, s)].Dir?)
    ensures forall i :: 0 <= i <= |root| + 1 && Child(root, s)[..i] in d ==> d[Child(root, s)[..i]].Dir?
    ensures WithDirs(d, Child(root, s), |root| + 1) == if Child(root, s) in d then d else d[Child(root, s) := Dir]
  {
    var c := Child(root, s);
    forall i | 0 <= i <= |root| ensures c[..i] in d && d[c[..i]].Dir? { WithOneDir(d, root, s, i); }
    assert c[..|root| + 1] == c;
    WithOneDir(d, root, s, |root|);
  }

  lemma DirAdded(d: Disk, root: Path, s: string)
    requires TreeDisk(d) && root in d && d[root].Dir? && Child(root, s) !in d
    ensures var e := d[Child(root, s) := Dir];
            TreeDisk(e) && (StoreDisk(d, root) ==> StoreDisk(e, root) && View(e, Digest(root)) == View(d, Digest(root)))
  {
    var e := d[Child(root, s) := Dir];
    assert |Child(root, s)| == |Digest(root)|;
    forall q, t | Child(q, t) in e ensures q in e && e[q].Dir? {
      if Child(q, t) == Child(root, s) { ChildInjective(q, t, root, s); }
    }
    if StoreDisk(d, root) { SameView(d, e, Digest(root)); }
  }

  ghost function WithoutSubtree(d: Disk, p: Path): Disk
  {
    map q | q in d && !(p <= q) :: d[q]
  }

  lemma IngestDropped(d: Disk, root: Path)
    requires TreeDisk(d) && root in d && d[root].Dir?
    ensures var e := WithoutSubtree(d, Ingest(root));
            && TreeDisk(e) && root in e && e[root].Dir? && Ingest(root) !in e
            && (Digest(root) in e <==> Digest(root) in d)
            && (StoreDisk(d, root) ==> StoreDisk(e, root) && View(e, Digest(root)) == View(d, Digest(root)))
  {
    var e := WithoutSubtree(d, Ingest(root));
    forall q, t | Child(q, t) in e ensures q in e && e[q].Dir? {
      assert Ingest(root) <= q ==> Ingest(root) <= Child(q, t);
    }
    forall q | q in d && Digest(root) <= q ensures !(Ingest(root) <= q) { Siblings(root, q); }
    if StoreDisk(d, root) { SameView(d, e, Digest(root)); }
  }

  /** The disk that opening leaves: the two directories are there, the second one is empty, and
      everything else is as it was. */
  ghost function Opened(d: Disk, root: Path): Disk
  {
    (map p | p in d && !(Child(root, "ingest") < p) :: d[p])[Child(root, "digest") := Dir][Child(root, "ingest") := Dir]
  }

  lemma NothingBelow(d: Disk, p: Path, q: Path)
    requires TreeDisk(d) && !(p in d && d[p].Dir?) && p < q
    ensures q !in d
  {
    if q in d {
      ChildOfParent(q);
      assert p <= Parent(q);
      DirsAbove(d, p, Parent(q));
    }
  }

  lemma OpenedInSteps(d: Disk, root: Path)
    requires TreeDisk(d)
    ensures WithoutSubtree(d, Ingest(root))[Digest(root) := Dir][Ingest(root) := Dir] == Opened(d, root)
    ensures Ingest(root) !in d ==> WithoutSubtree(d, Ingest(root)) == d
    ensures Ingest(root) in Opened(d, root) && forall p :: Ingest(root) < p ==> p !in Opened(d, root)
  {
    var ing := Ingest(root);
    forall p | p in d && ing <= p ensures p == ing || ing < p { BelowOrAt(ing, p); }
    if ing !in d {
      forall p | p in d ensures !(ing < p) { if ing < p { NothingBelow(d, ing, p); } }
    }
  }

  lemma BelowOrAt(p: Path, q: Path)
    requires p <= q
    ensures p == q || p < q
  {
    if |p| == |q| { assert p == q[..|p|]; }
  }

  lemma Siblings(root: Path, q: Path)
    ensures !(Digest(root) <= q && Ingest(root) <= q)
  {
    assert Digest(root)[|root|] == "digest" && Ingest(root)[|root|] == "ingest";
  }
}
