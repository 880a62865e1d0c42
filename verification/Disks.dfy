/** The file system as the storage uses it: a tree of entries, changed in primitive steps. Every
    primitive leaves its result in `trail`, so each point where a crash can fall is on record. */
module Disks {
  import opened Wrappers
  import opened Paths
  import opened Messages

  datatype Entry = Dir | File(data: Bytes)

  type Disk = map<Path, Entry>

  datatype IoError = Missing | NotADirectory | NotAFile | Other

  /** Every entry sits in a directory. */
  ghost predicate TreeDisk(d: Disk)
  {
    && [] in d && d[[]].Dir?
    && forall p, s {:trigger Child(p, s) in d} :: Child(p, s) in d ==> p in d && d[p].Dir?
  }

  /** `d` with the missing directories among the first `n` steps towards `p`. */
  ghost function WithDirs(d: Disk, p: Path, n: nat): Disk
    requires n <= |p|
  {
    if n == 0 then d else
    var a := WithDirs(d, p, n - 1);
    if p[..n] in a then a else a[p[..n] := Dir]
  }

  lemma {:induction false} WithDirsAdds(d: Disk, p: Path, n: nat)
    requires n <= |p|
    ensures forall q :: q in d ==> q in WithDirs(d, p, n) && WithDirs(d, p, n)[q] == d[q]
    ensures forall q :: q in WithDirs(d, p, n) && q !in d ==>
      WithDirs(d, p, n)[q].Dir? && 0 < |q| <= n && q == p[..|q|]
    ensures forall i :: 0 < i <= n ==> p[..i] in WithDirs(d, p, n)
  {
    if n > 0 {
      WithDirsAdds(d, p, n - 1);
      forall i | 0 < i <= n ensures p[..i] in WithDirs(d, p, n) {
        assert i < n ==> p[..i] in WithDirs(d, p, n - 1);
      }
    }
  }

  /** The disks on the way there, one for each directory made. */
  ghost function NewDisks(d: Disk, p: Path, n: nat): seq<Disk>
    requires n <= |p|
  {
    if n == 0 then [] else
    NewDisks(d, p, n - 1) + if p[..n] in WithDirs(d, p, n - 1) then [] else [WithDirs(d, p, n)]
  }

  lemma {:induction false} NewDisksOnly(d: Disk, p: Path, n: nat, j: nat)
    requires n <= |p| && j < |NewDisks(d, p, n)|
    ensures exists k :: 0 <= k <= n && NewDisks(d, p, n)[j] == WithDirs(d, p, k)
  {
    if j < |NewDisks(d, p, n - 1)| {
      NewDisksOnly(d, p, n - 1, j);
    }
  }

  class FileSystem {
    var disk: Disk
    var trail: seq<Disk>

    constructor (disk: Disk)
      ensures this.disk == disk && trail == []
    {
      this.disk := disk;
      trail := [];
    }

    predicate IsDir(p: Path)
      reads this
    {
      p in disk && disk[p].Dir?
    }

    predicate IsFile(p: Path)
      reads this
    {
      p in disk && disk[p].File?
    }

    predicate Exists(p: Path)
      reads this
    {
      p in disk
    }

    /** The names that `read_dir` yields. */
    function Entries(p: Path): (r: set<string>)
      reads this
      ensures forall s :: s in r <==> Child(p, s) in disk
    {
      var r := set q | q in disk && q != [] && Parent(q) == p :: Last(q);
      assert forall s :: Child(p, s) in disk ==> s in r by {
        forall s | Child(p, s) in disk ensures s in r { assert Parent(Child(p, s)) == p && Last(Child(p, s)) == s; }
      }
      assert forall q :: q in disk && q != [] && Parent(q) == p ==> Child(p, Last(q)) == q;
      r
    }

    method Change(d: Disk)
      modifies this
      ensures disk == d && trail == old(trail) + [d]
    {
      disk := d;
      trail := trail + [d];
    }

    /** An empty temporary file under a name that is not in use. */
    method CreateTemp(dir: Path, name: string) returns (p: Path)
      requires IsDir(dir) && Child(dir, name) !in disk
      modifies this
      ensures p == Child(dir, name)
      ensures disk == old(disk)[p := File([])] && trail == old(trail) + [disk]
    {
      p := Child(dir, name);
      Change(disk[p := File([])]);
    }

    /** One write call: it may take fewer bytes than it is given. */
    method Append(p: Path, chunk: Bytes)
      requires IsFile(p)
      modifies this
      ensures disk == old(disk)[p := File(old(disk)[p].data + chunk)] && trail == old(trail) + [disk]
    {
      Change(disk[p := File(disk[p].data + chunk)]);
    }

    /** Missing directories appear one after the other, parents first. */
    method CreateDirAll(p: Path)
      requires [] in disk
      requires forall i :: 0 <= i <= |p| && p[..i] in disk ==> disk[p[..i]].Dir?
      modifies this
      ensures disk == WithDirs(old(disk), p, |p|)
      ensures trail == old(trail) + NewDisks(old(disk), p, |p|)
    {
      ghost var was := disk;
      var i := 0;
      assert WithDirs(was, p, 0) == was;
      while i < |p|
        invariant 0 <= i <= |p| && disk == WithDirs(was, p, i)
        invariant trail == old(trail) + NewDisks(was, p, i)
      {
        i := i + 1;
        assert WithDirs(was, p, i) == if p[..i] in disk then disk else disk[p[..i] := Dir];
        if p[..i] !in disk {
          Change(disk[p[..i] := Dir]);
        }
      }
    }

    /** Replaces whatever file the target names, in one step. */
    method Rename(src: Path, dst: Path)
      requires IsFile(src) && !IsDir(dst) && dst != [] && IsDir(Parent(dst)) && src != dst
      modifies this
      ensures disk == (old(disk) - {src})[dst := old(disk)[src]] && trail == old(trail) + [disk]
    {
      Change((disk - {src})[dst := disk[src]]);
    }

    method RemoveFile(p: Path) returns (r: Result<(), IoError>)
      modifies this
      ensures old(IsFile(p)) ==> r == Ok(()) && disk == old(disk) - {p} && trail == old(trail) + [disk]
      ensures !old(IsFile(p)) ==> r.Err? && disk == old(disk) && trail == old(trail)
    {
      if !Exists(p) { return Err(Missing); }
      if !IsFile(p) { return Err(NotAFile); }
      Change(disk - {p});
      r := Ok(());
    }

    method RemoveDirAll(p: Path) returns (r: Result<(), IoError>)
      modifies this
      ensures old(IsDir(p)) ==>
        r == Ok(()) && disk == (map q | q in old(disk) && !(p <= q) :: old(disk)[q]) && trail == old(trail) + [disk]
      ensures !old(IsDir(p)) ==> r.Err? && disk == old(disk) && trail == old(trail)
    {
      if !Exists(p) { return Err(Missing); }
      if !IsDir(p) { return Err(NotADirectory); }
      Change(map q | q in disk && !(p <= q) :: disk[q]);
      r := Ok(());
    }

    method Read(p: Path) returns (r: Result<Bytes, IoError>)
      ensures IsFile(p) ==> r == Ok(disk[p].data)
      ensures !IsFile(p) ==> r.Err?
    {
      if IsFile(p) { return Ok(disk[p].data); }
      r := Err(Missing);
    }
  }
}
