/** The file-system helpers of be/fs/fs_util.h over an abstract file system: a map from full paths
    to contents, with atomic delete and rename. */
module FsUtil {
  import opened Wrappers

  /** What a reverse iterator reads after `i` steps. */
  function FromEnd(s: string, i: nat): char
    requires i < |s|
  {
    s[|s| - 1 - i]
  }

  /** `std::equal` over reverse iterators, guarded by the length test. */
  predicate EndsWith(value: string, ending: string) {
    |ending| <= |value| && forall i: nat | i < |ending| :: FromEnd(ending, i) == FromEnd(value, i)
  }

  lemma EndsWithIsSuffix(value: string, ending: string)
    ensures EndsWith(value, ending)
       <==> (|ending| <= |value| && value == value[..|value| - |ending|] + ending)
  {
    if EndsWith(value, ending) {
      var cut := |value| - |ending|;
      forall k | cut <= k < |value|
        ensures value[k] == ending[k - cut]
      {
        assert FromEnd(ending, |value| - 1 - k) == FromEnd(value, |value| - 1 - k);
      }
    }
  }

  lemma EndsWithAppended(stem: string, ending: string)
    ensures EndsWith(stem + ending, ending)
  {
    var value := stem + ending;
    assert value[..|value| - |ending|] == stem;
    EndsWithIsSuffix(value, ending);
  }

  function PathOf(dir: string, base: string): string {
    dir + "/" + base
  }

  /** `path` names an entry directly inside `dir`. */
  predicate IsChild(dir: string, path: string) {
    |path| > |dir| + 1 && path[..|dir| + 1] == dir + "/" && '/' !in path[|dir| + 1..]
  }

  function BaseOf(dir: string, path: string): string
    requires IsChild(dir, path)
  {
    path[|dir| + 1..]
  }

  /** The names `directory_iterator` visits, in no particular order. */
  ghost function Listed(paths: set<string>, dir: string): set<string> {
    set p | p in paths && IsChild(dir, p) :: BaseOf(dir, p)
  }

  ghost predicate NoDuplicates<T>(s: seq<T>) {
    forall i, j | 0 <= i < j < |s| :: s[i] != s[j]
  }

  /** `listing` visits every entry of `dir` exactly once. */
  ghost predicate IsListing(listing: seq<string>, paths: set<string>, dir: string) {
    && NoDuplicates(listing)
    && (forall f :: f in listing <==> f in Listed(paths, dir))
  }

  lemma ListedIff(paths: set<string>, dir: string, base: string)
    ensures base in Listed(paths, dir) <==> base != [] && '/' !in base && PathOf(dir, base) in paths
  {
    var p := PathOf(dir, base);
    assert p[..|dir| + 1] == dir + "/" && p[|dir| + 1..] == base;
    if base in Listed(paths, dir) {
      var q :| q in paths && IsChild(dir, q) && BaseOf(dir, q) == base;
      assert q == q[..|dir| + 1] + base == p;
    }
    if base != [] && '/' !in base && p in paths {
      assert IsChild(dir, p) && BaseOf(dir, p) == base;
    }
  }

  lemma PathOfInjective(dir: string, a: string, b: string)
    ensures PathOf(dir, a) == PathOf(dir, b) <==> a == b
  {
    assert PathOf(dir, a)[|dir| + 1..] == a;
    assert PathOf(dir, b)[|dir| + 1..] == b;
  }

  class FileSystem {
    var files: map<string, Bytes>
    var dirs: set<string>

    constructor ()
      ensures files == map[] && dirs == {}
    {
      files, dirs := map[], {};
    }

    /** Throws when nothing was removed; callers here always name an existing file. */
    method DeleteFile(path: string)
      requires path in files
      modifies this`files
      ensures files == old(files) - {path}
    {
      files := files - {path};
    }

    method CreateDirectory(dir: string)
      requires dir !in dirs
      modifies this`dirs
      ensures dirs == old(dirs) + {dir}
    {
      dirs := dirs + {dir};
    }

    /** Collects the iterated names in whatever order the iteration gives them. */
    method ListDirectory(dir: string) returns (entries: seq<string>)
      requires dir in dirs
      ensures IsListing(entries, files.Keys, dir)
    {
      entries := [];
      var left := set p | p in files && IsChild(dir, p);
      while left != {}
        invariant left <= files.Keys && forall p | p in left :: IsChild(dir, p)
        invariant NoDuplicates(entries)
        invariant forall f :: f in entries <==> f in Listed(files.Keys - left, dir)
        decreases left
      {
        var p :| p in left;
        var base := BaseOf(dir, p);
        ghost var seen, now := files.Keys - left, files.Keys - (left - {p});
        assert now == seen + {p};
        forall f
          ensures f in Listed(now, dir) <==> f in Listed(seen, dir) || f == base
        {
          ListedIff(now, dir, f);
          ListedIff(seen, dir, f);
          assert p == PathOf(dir, base);
          PathOfInjective(dir, f, base);
        }
        assert base !in Listed(seen, dir) by {
          ListedIff(seen, dir, base);
          assert p == PathOf(dir, base);
        }
        entries := entries + [base];
        left := left - {p};
      }
      assert files.Keys - left == files.Keys;
    }
  }
}
