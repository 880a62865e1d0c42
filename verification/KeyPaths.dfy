/** How `FileStorage` names the file of a key, and how it reads the key back from the file name. */
module KeyPaths {
  import opened Text
  import opened Paths

  const SUFFIX := ".json"

  function KeyToPath(key: string): string
  {
    Replace(key, '.', '/') + SUFFIX
  }

  /** `path_to_key` on the part of a path below the digest directory. */
  function PathToKey(rel: Path): string
  {
    var text := JoinWith(rel, '/');
    if EndsWith(text, SUFFIX) then Replace(TrimEndMatches(text, SUFFIX), '/', '.') else ""
  }

  /** The path components that the operating system sees. */
  function KeyPath(key: string): Path
  {
    SplitOn(KeyToPath(key), '/')
  }

  /** A name a directory of the store can have. */
  predicate Plain(seg: string)
  {
    seg != "" && '.' !in seg && '/' !in seg
  }

  /** Keys a file system can hold: no slash, no empty segment. */
  predicate Acceptable(key: string)
  {
    forall i :: 0 <= i < |Split(key)| ==> Plain(Split(key)[i])
  }

  predicate DirRel(rel: Path)
  {
    forall i :: 0 <= i < |rel| ==> Plain(rel[i])
  }

  predicate FileRel(rel: Path)
  {
    && rel != [] && DirRel(Parent(rel))
    && EndsWith(Last(rel), SUFFIX) && Plain(Stem(Last(rel)))
  }

  function Stem(name: string): string
    requires EndsWith(name, SUFFIX)
  {
    name[..|name| - |SUFFIX|]
  }

  lemma {:induction false} ReplaceSplit(s: string)
    requires '/' !in s
    ensures SplitOn(Replace(s, '.', '/'), '/') == SplitOn(s, '.')
  {
    if s != "" {
      assert s == [s[0]] + s[1..];
      ReplaceSplit(s[1..]);
      assert Replace(s, '.', '/')[1..] == Replace(s[1..], '.', '/');
    }
  }

  /** Only the last segment gets the suffix. */
  lemma KeyPathShape(key: string)
    requires '/' !in key
    ensures KeyPath(key) == Parent(Split(key)) + [Last(Split(key)) + SUFFIX]
  {
    ReplaceSplit(key);
    SplitAppend(Replace(key, '.', '/'), SUFFIX, '/');
  }

  /** The same in plain words: dots become directories, and the last segment gets `.json`. */
  lemma KeyPathExactly(key: string)
    requires '/' !in key
    ensures KeyPath(key) == Parent(Split(key)) + [Last(Split(key)) + ".json"]
  {
    KeyPathShape(key);
  }

  /** A file system can hold exactly the keys without slashes and without empty segments. */
  lemma AcceptableExactly(key: string)
    ensures Acceptable(key) <==> '/' !in key && "" !in Split(key)
  {
    var p := SplitOn(key, '.');
    assert p == Split(key);
    SplitMembers(key, '.', '/');
    JoinSplit(key, '.');
    if '/' !in key && "" !in p {
      forall i | 0 <= i < |p| ensures Plain(p[i]) { assert p[i] in p; }
    }
    if Acceptable(key) {
      AcceptableIsSlashFree(key);
      forall i | 0 <= i < |p| ensures p[i] != "" { assert Plain(Split(key)[i]); }
    }
  }

  /** Reading back: the suffix is trimmed as often as it is there, which is once, since what is
      left has no dot. */
  lemma KeyRoundTrip(key: string)
    requires '/' !in key
    ensures PathToKey(KeyPath(key)) == key
  {
    var text := KeyToPath(key);
    JoinSplit(text, '/');
    var bare := Replace(key, '.', '/');
    assert text[|text| - |SUFFIX|..] == SUFFIX && text[..|text| - |SUFFIX|] == bare;
    SuffixHasDot(bare);
    assert TrimEndMatches(bare, SUFFIX) == bare;
    assert Replace(bare, '/', '.') == key;
  }

  lemma SuffixHasDot(s: string)
    ensures EndsWith(s, SUFFIX) ==> '.' in s
  {
    if EndsWith(s, SUFFIX) {
      assert s[|s| - |SUFFIX|..][0] == '.';
    }
  }

  lemma AcceptableIsSlashFree(key: string)
    requires Acceptable(key)
    ensures '/' !in key
  {
    SplitMembers(key, '.', '/');
    var p := SplitOn(key, '.');
    assert p == Split(key);
    assert forall i :: 0 <= i < |p| ==> '/' !in p[i] by {
      forall i | 0 <= i < |p| ensures '/' !in p[i] { assert Plain(Split(key)[i]); }
    }
  }

  /** An acceptable key names a file of the store, whose name reads back as the key. */
  lemma KeyHasFile(key: string)
    requires Acceptable(key)
    ensures FileRel(KeyPath(key)) && PathToKey(KeyPath(key)) == key
  {
    AcceptableIsSlashFree(key);
    KeyRoundTrip(key);
    KeyPathShape(key);
    var p, rel := Split(key), KeyPath(key);
    assert Parent(rel) == Parent(p) && Last(rel) == Last(p) + SUFFIX;
    assert Stem(Last(rel)) == Last(p);
  }

  /** Every file of the store is the file of the key read from its name. */
  lemma FileHasKey(rel: Path)
    requires FileRel(rel)
    ensures Acceptable(PathToKey(rel)) && KeyPath(PathToKey(rel)) == rel && PathToKey(rel) != ""
  {
    var p := Parent(rel) + [Stem(Last(rel))];
    var key := Dotted(p);
    DottedSplit(p);
    KeyHasFile(key);
    AcceptableIsSlashFree(key);
    KeyPathShape(key);
    assert Parent(p) == Parent(rel) && Last(p) + SUFFIX == Last(rel);
    ChildOfParent(rel);
    assert Split(key)[0] != "" && Split("") == [""];
  }

  /** No key's file is a directory on the way to another key's file. */
  lemma NoFileIsADirectory(a: string, b: string)
    requires Acceptable(a) && Acceptable(b)
    ensures !(KeyPath(a) < KeyPath(b))
  {
    KeyHasFile(a);
    KeyHasFile(b);
    FileIsNotDir(KeyPath(a));
    DirOnTheWay(KeyPath(a), KeyPath(b));
  }

  lemma DirOnTheWay(a: Path, b: Path)
    requires FileRel(b)
    ensures a < b ==> DirRel(a)
  {
    if a < b {
      forall i | 0 <= i < |a| ensures Plain(a[i]) { assert a[i] == Parent(b)[i]; }
    }
  }

  lemma FileIsNotDir(rel: Path)
    requires FileRel(rel)
    ensures !DirRel(rel)
  {
    SuffixHasDot(Last(rel));
  }
}
