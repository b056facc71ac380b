/** Directories of files of keys, and what listing one yields. */
module Directories {
  import opened Keys

  /** Different files of the directory. */
  predicate AllThere(names: seq<string>, dir: map<string, seq<Key>>) {
    && (forall i, j :: 0 <= i < j < |names| ==> names[i] != names[j])
    && (forall name :: name in names ==> name in dir)
  }

  /** All of them, in any order. */
  predicate IsListing(names: seq<string>, dir: map<string, seq<Key>>) {
    AllThere(names, dir) && forall name :: name in dir ==> name in names
  }

  lemma ListingNext(names: seq<string>, dir: map<string, seq<Key>>)
    requires names != [] && IsListing(names, dir)
    ensures names[0] in dir && IsListing(names[1..], dir - {names[0]})
  {
    assert names == [names[0]] + names[1..];
    assert names[0] in names;
    forall name | name in names[1..]
      ensures name in dir && name != names[0]
    {
      var i :| 0 <= i < |names[1..]| && names[1..][i] == name;
      assert names[i + 1] == name;
    }
  }

  /** What the listed files hold. */
  function FilesOf(names: seq<string>, dir: map<string, seq<Key>>): (files: seq<seq<Key>>)
    requires AllThere(names, dir)
    ensures |files| == |names| && forall k :: 0 <= k < |names| ==> files[k] == dir[names[k]]
  {
    seq(|names|, k requires 0 <= k < |names| => dir[names[k]])
  }
}
