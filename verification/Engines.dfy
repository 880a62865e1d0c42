/** The routing engine, and the sum of all engines that the core runs on. */
module Engines {
  import opened Wrappers
  import opened Paths
  import opened Messages
  import opened KeyPaths
  import opened Disks
  import opened StoreDisks
  import opened Storage

  const RUNTIME_ROUTE := "runtime"

  /** `key.starts_with("runtime")` */
  predicate IsRuntime(key: string)
  {
    RUNTIME_ROUTE <= key
  }

  /** The part of a store that a restart with fresh memory keeps. */
  ghost function Persistent(m: map<string, Bytes>): map<string, Bytes>
  {
    map k | k in m && !IsRuntime(k) :: m[k]
  }

  /** Changing one half of a disjoint pair of maps changes their sum. */
  lemma HalfChanged<K, V>(a: map<K, V>, b: map<K, V>, k: K, v: V)
    ensures a + b[k := v] == (a + b)[k := v]
    ensures k !in a ==> a + (b - {k}) == (a + b) - {k}
    ensures k !in b ==> a[k := v] + b == (a + b)[k := v]
    ensures k !in b ==> (a - {k}) + b == (a + b) - {k}
  {
  }

  lemma SumKeys<K, V>(a: map<K, V>, b: map<K, V>)
    requires a.Keys !! b.Keys
    ensures multiset((a + b).Keys) == multiset(a.Keys) + multiset(b.Keys)
  {
    assert (a + b).Keys == a.Keys + b.Keys;
  }

  class RouterStorage {
    const mem: MemoryStorage
    const file: FileStorage

    /** The two halves never share a key. */
    ghost predicate Valid()
      reads mem, file.fs
    {
      && file.Valid()
      && (forall k :: k in mem.storage ==> IsRuntime(k))
      && (forall k :: k in file.Map() ==> !IsRuntime(k))
    }

    ghost function Map(): map<string, Bytes>
      reads mem, file.fs
    {
      mem.storage + file.Map()
    }

    constructor (mem: MemoryStorage, file: FileStorage)
      ensures this.mem == mem && this.file == file
    {
      this.mem := mem;
      this.file := file;
    }

    method Put(key: string, data: Bytes)
      requires Valid() && (IsRuntime(key) || Acceptable(key))
      modifies mem, file.fs
      ensures Valid() && Map() == old(Map())[key := data]
      ensures if "runtime" <= key then mem.storage == old(mem.storage)[key := data] && file.Map() == old(file.Map())
              else mem.storage == old(mem.storage) && file.Map() == old(file.Map())[key := data]
      ensures old(file.fs.trail) <= file.fs.trail
      ensures SafeFrom(file.fs.trail, |old(file.fs.trail)|, file.root, old(file.Map()), file.Map())
    {
      HalfChanged(mem.storage, file.Map(), key, data);
      if IsRuntime(key) {
        mem.Put(key, data);
      } else {
        file.Put(key, data);
      }
    }

    method Delete(key: string) returns (r: Result<(), IoError>)
      requires Valid() && (IsRuntime(key) || Acceptable(key))
      modifies mem, file.fs
      ensures Valid() && Map() == old(Map()) - {key} && file.Map() == old(file.Map()) - {key}
      ensures if "runtime" <= key then file.Map() == old(file.Map()) else mem.storage == old(mem.storage)
      ensures r.Ok? <==> key in old(Map())
      ensures old(file.fs.trail) <= file.fs.trail
      ensures SafeFrom(file.fs.trail, |old(file.fs.trail)|, file.root, old(file.Map()), file.Map())
    {
      HalfChanged(mem.storage, file.Map(), key, []);
      if IsRuntime(key) {
        r := mem.Delete(key);
      } else {
        r := file.Delete(key);
      }
    }

    method Get(key: string) returns (r: Bytes)
      requires Valid() && (IsRuntime(key) || Acceptable(key))
      ensures r == if key in Map() then Map()[key] else []
    {
      if IsRuntime(key) {
        r := mem.Get(key);
      } else {
        r := file.Get(key);
      }
    }

    method Keys() returns (r: seq<string>)
      requires Valid()
      ensures multiset(r) == multiset(Map().Keys)
    {
      var a := mem.Keys();
      var b := file.Keys();
      r := a + b;
      SumKeys(mem.storage, file.Map());
    }

    /** Only what is on disk is persistent, and all of it is: the keys that do not begin with `runtime`. */
    lemma DiskIsPersistent()
      requires Valid()
      ensures file.Map() == Persistent(Map())
      ensures forall k :: k in Map() ==>
        (k in mem.storage <==> "runtime" <= k) && (k in file.Map() <==> !("runtime" <= k))
    {
    }
  }

  /** The source's `P: StorageEngine`, as the sum of its three implementations. */
  datatype Engine = Memory(mem: MemoryStorage) | Files(file: FileStorage) | Routed(router: RouterStorage)
  {
    function Repr(): set<object>
    {
      match this
      case Memory(mem) => {mem}
      case Files(file) => {file, file.fs}
      case Routed(router) => {router, router.mem, router.file, router.file.fs}
    }

    ghost predicate Valid()
      reads Repr()
    {
      match this
      case Memory(mem) => true
      case Files(file) => file.Valid()
      case Routed(router) => router.Valid()
    }

    /** The map the engine stands for. */
    ghost function Map(): map<string, Bytes>
      reads Repr()
    {
      match this
      case Memory(mem) => mem.storage
      case Files(file) => file.Map()
      case Routed(router) => router.Map()
    }

    /** What is left of it when only the disk is. */
    ghost function Durable(): map<string, Bytes>
      reads Repr()
    {
      match this
      case Memory(mem) => map[]
      case Files(file) => file.Map()
      case Routed(router) => router.file.Map()
    }

    /** Keys the engine can hold. */
    predicate Accepts(key: string)
    {
      match this
      case Memory(mem) => true
      case Files(file) => Acceptable(key)
      case Routed(router) => IsRuntime(key) || Acceptable(key)
    }

    /** Every disk on record since the file system was set up. */
    function Trail(): seq<Disk>
      reads Repr()
    {
      match this
      case Memory(mem) => []
      case Files(file) => file.fs.trail
      case Routed(router) => router.file.fs.trail
    }

    /** What the disk looks like now. */
    function Disk(): Disk
      reads Repr()
    {
      match this
      case Memory(mem) => map[]
      case Files(file) => file.fs.disk
      case Routed(router) => router.file.fs.disk
    }

    /** The disk under an engine is a working store that shows what is durable. */
    lemma DiskShows()
      requires Valid() && !Memory?
      ensures Sound(Disk(), Root()) && View(Disk(), Digest(Root())) == Durable()
      ensures Durable() == if Files? then Map() else Persistent(Map())
    {
      if Routed? { router.DiskIsPersistent(); }
    }

    function Root(): Path
    {
      match this
      case Memory(mem) => []
      case Files(file) => file.root
      case Routed(router) => router.file.root
    }

    /** Wherever a crash cuts in, the disk shows what was durable before or what is durable now. */
    twostate predicate CrashSafe()
      reads Repr()
    {
      && old(Trail()) <= Trail()
      && SafeFrom(Trail(), |old(Trail())|, Root(), old(Durable()), Durable())
    }

    /** Wherever a crash cuts in, the disk shows what was durable before, less some of `gone`. */
    twostate predicate CutSafe(gone: set<string>)
      reads Repr()
    {
      && old(Trail()) <= Trail()
      && CutFrom(Trail(), |old(Trail())|, Root(), old(Durable()), gone)
      && Within(Durable(), old(Durable()), gone)
    }

    /** The disk and its record have not changed. */
    twostate predicate Still()
      reads Repr()
    {
      Trail() == old(Trail()) && Durable() == old(Durable())
    }

    /** Nothing the engine owns has changed, so nothing it stands for has. */
    twostate lemma Unmoved(all: set<object>)
      requires old(Valid()) && Repr() <= all && unchanged(all)
      ensures Valid() && Map() == old(Map()) && Durable() == old(Durable()) && Trail() == old(Trail())
    {
      match this
      case Memory(mem) =>
      case Files(file) =>
      case Routed(router) =>
    }

    lemma HeldIsAccepted(key: string)
      requires Valid() && key in Map()
      ensures Accepts(key)
    {
      match this
      case Memory(mem) =>
      case Files(file) => ViewAt(file.fs.disk, Digest(file.root), key);
      case Routed(router) => ViewAt(router.file.fs.disk, Digest(router.file.root), key);
    }

    /** Storing never fails here, and wherever a crash cuts in, the disk shows the store before or after. */
    method Put(key: string, data: Bytes)
      requires Valid() && Accepts(key)
      modifies Repr()
      ensures Valid() && Map() == old(Map())[key := data]
      ensures CrashSafe()
    {
      match this
      case Memory(mem) => mem.Put(key, data);
      case Files(file) => file.Put(key, data);
      case Routed(router) => router.Put(key, data);
    }

    /** Deleting fails exactly when the key is not there. */
    method Delete(key: string) returns (r: Result<(), IoError>)
      requires Valid() && Accepts(key)
      modifies Repr()
      ensures Valid() && Map() == old(Map()) - {key} && Durable() == old(Durable()) - {key}
      ensures r.Ok? <==> key in old(Map())
      ensures CrashSafe()
    {
      match this
      case Memory(mem) => r := mem.Delete(key);
      case Files(file) => r := file.Delete(key);
      case Routed(router) => r := router.Delete(key);
    }

    method Get(key: string) returns (r: Bytes)
      requires Valid() && Accepts(key)
      ensures r == if key in Map() then Map()[key] else []
    {
      match this
      case Memory(mem) => r := mem.Get(key);
      case Files(file) => r := file.Get(key);
      case Routed(router) => r := router.Get(key);
    }

    /** Every key exactly once, in an order of the engine's own. */
    method Keys() returns (r: seq<string>)
      requires Valid()
      ensures multiset(r) == multiset(Map().Keys)
    {
      match this
      case Memory(mem) => r := mem.Keys();
      case Files(file) => r := file.Keys();
      case Routed(router) => r := router.Keys();
    }
  }
}
