/**
 * The `clean` sub-generator's `cleanMe` step: walk the entries of the
 * working directory in listing order, remove every directory whose real
 * path does not mention `node_modules`, and collect the real paths of the
 * non-directory entries into `cfiles`.
 */
module Clean {
  import opened Wrappers
  import opened JsString

  /** A directory entry: its real path and whether `stat` calls it a directory. */
  datatype Entry = Entry(path: string, isDirectory: bool)

  /** `pathFile.indexOf('node_modules') !== -1`: such a directory is kept. */
  predicate Protected(path: string) {
    Contains(path, "node_modules")
  }

  /** The paths the loop removes, in listing order. */
  function RemovedPaths(entries: seq<Entry>): (r: seq<string>)
    ensures |r| <= |entries|
    ensures forall i :: 0 <= i < |r| ==> !Protected(r[i])
  {
    if entries == [] then []
    else
      var last := entries[|entries| - 1];
      RemovedPaths(entries[..|entries| - 1])
        + (if last.isDirectory && !Protected(last.path) then [last.path] else [])
  }

  /** The paths the loop pushes onto `cfiles`, in listing order. */
  function FilePaths(entries: seq<Entry>): (r: seq<string>)
    ensures |r| <= |entries|
  {
    if entries == [] then []
    else
      var last := entries[|entries| - 1];
      FilePaths(entries[..|entries| - 1]) + (if last.isDirectory then [] else [last.path])
  }

  /**
   * `cleanMe`'s loop over the listing `fs.readdir` delivered (None when it
   * is undefined): returns the directories removed, in the order `rimraf`
   * ran on them, and `cfiles`.
   */
  method CleanMe(listing: Option<seq<Entry>>) returns (removed: seq<string>, cfiles: seq<string>)
    ensures listing.None? ==> removed == [] && cfiles == []
    ensures listing.Some? ==> removed == RemovedPaths(listing.value) && cfiles == FilePaths(listing.value)
  {
    removed, cfiles := [], [];
    if listing.Some? && |listing.value| != 0 {
      var files := listing.value;
      var i := 0;
      while i < |files|
        invariant 0 <= i <= |files|
        invariant removed == RemovedPaths(files[..i])
        invariant cfiles == FilePaths(files[..i])
      {
        var file := files[i];
        assert files[..i + 1][..i] == files[..i];
        if file.isDirectory {
          if !Contains(file.path, "node_modules") {
            removed := removed + [file.path];
          }
        } else {
          cfiles := cfiles + [file.path];
        }
        i := i + 1;
      }
      assert files[..|files|] == files;
    }
  }

  /** A path is removed exactly when some listed directory with that path is not protected. */
  lemma {:induction false} RemovedPathsMembers(entries: seq<Entry>, p: string)
    ensures p in RemovedPaths(entries) <==>
            exists k :: 0 <= k < |entries| && entries[k].isDirectory && !Protected(entries[k].path)
                        && entries[k].path == p
  {
    if entries != [] {
      var init := entries[..|entries| - 1];
      RemovedPathsMembers(init, p);
      if p in RemovedPaths(init) {
        var k :| 0 <= k < |init| && init[k].isDirectory && !Protected(init[k].path) && init[k].path == p;
        assert entries[k] == init[k];
      }
      if exists k :: 0 <= k < |entries| && entries[k].isDirectory && !Protected(entries[k].path)
                     && entries[k].path == p {
        var k :| 0 <= k < |entries| && entries[k].isDirectory && !Protected(entries[k].path)
                 && entries[k].path == p;
        if k < |init| {
          assert init[k] == entries[k];
        }
      }
    }
  }

  /** A path is collected into `cfiles` exactly when some listed non-directory has that path. */
  lemma {:induction false} FilePathsMembers(entries: seq<Entry>, p: string)
    ensures p in FilePaths(entries) <==>
            exists k :: 0 <= k < |entries| && !entries[k].isDirectory && entries[k].path == p
  {
    if entries != [] {
      var init := entries[..|entries| - 1];
      FilePathsMembers(init, p);
      if p in FilePaths(init) {
        var k :| 0 <= k < |init| && !init[k].isDirectory && init[k].path == p;
        assert entries[k] == init[k];
      }
      if exists k :: 0 <= k < |entries| && !entries[k].isDirectory && entries[k].path == p {
        var k :| 0 <= k < |entries| && !entries[k].isDirectory && entries[k].path == p;
        if k < |init| {
          assert init[k] == entries[k];
        }
      }
    }
  }

  /** A directory whose real path contains `node_modules` is never removed. */
  lemma ProtectedNeverRemoved(entries: seq<Entry>, p: string)
    requires Protected(p)
    ensures p !in RemovedPaths(entries)
  {
    RemovedPathsMembers(entries, p);
  }

  /** A non-directory entry is never removed, since no directory can share its real path. */
  lemma FileNeverRemoved(entries: seq<Entry>, k: int)
    requires 0 <= k < |entries| && !entries[k].isDirectory
    requires forall i, j :: 0 <= i < |entries| && 0 <= j < |entries| && entries[i].path == entries[j].path ==>
               entries[i].isDirectory == entries[j].isDirectory
    ensures entries[k].path !in RemovedPaths(entries)
  {
    RemovedPathsMembers(entries, entries[k].path);
  }

  /**
   * Every entry is accounted for once: a collected file, a removed
   * directory, or a kept `node_modules` directory.
   */
  lemma {:induction false} EntriesPartitioned(entries: seq<Entry>)
    ensures |FilePaths(entries)| + |RemovedPaths(entries)| + KeptCount(entries) == |entries|
  {
    if entries != [] {
      EntriesPartitioned(entries[..|entries| - 1]);
    }
  }

  /** How many listed directories are kept because their path contains `node_modules`. */
  function KeptCount(entries: seq<Entry>): nat {
    if entries == [] then 0
    else
      var last := entries[|entries| - 1];
      KeptCount(entries[..|entries| - 1]) + (if last.isDirectory && Protected(last.path) then 1 else 0)
  }

  /** Collecting is done entry by entry in listing order: a split listing collects each part in turn. */
  lemma {:induction false} FilePathsAppend(a: seq<Entry>, b: seq<Entry>)
    ensures FilePaths(a + b) == FilePaths(a) + FilePaths(b)
  {
    if b != [] {
      assert (a + b)[..|a + b| - 1] == a + b[..|b| - 1];
      FilePathsAppend(a, b[..|b| - 1]);
    } else {
      assert a + b == a;
    }
  }
}
