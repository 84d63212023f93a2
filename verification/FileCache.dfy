/**
 * The toolkit's file cache (internal/githubtools/tools.go): reads of one ref, cached within a byte budget. What GitHub
 * has for a path at that ref is a parameter; a request may fail, which is never cached.
 */
module FileCache {
  import opened Collections

  const MAX_FILE_BYTES: nat := 2 * 1024 * 1024
  const MAX_TOTAL_BYTES: nat := 16 * 1024 * 1024

  /** Bytes of the cached files, in the order they were stored. */
  function TotalBytes(files: map<string, string>, paths: seq<string>): nat
    requires forall path <- paths :: path in files
  {
    if |paths| == 0 then 0 else TotalBytes(files, paths[..|paths| - 1]) + |files[paths[|paths| - 1]]|
  }

  /** Storing a new path leaves the others' bytes alone. */
  lemma {:induction false} TotalBytesStored(files: map<string, string>, paths: seq<string>, path: string, content: string)
    requires (forall p <- paths :: p in files) && path !in paths
    ensures forall p <- paths :: p in files[path := content]
    ensures TotalBytes(files[path := content], paths) == TotalBytes(files, paths)
  {
    if |paths| > 0 {
      TotalBytesStored(files, paths[..|paths| - 1], path, content);
    }
  }

  lemma TotalBytesAppend(files: map<string, string>, paths: seq<string>, path: string, content: string)
    requires (forall p <- paths :: p in files) && path !in paths
    ensures forall p <- paths + [path] :: p in files[path := content]
    ensures TotalBytes(files[path := content], paths + [path]) == TotalBytes(files, paths) + |content|
  {
    TotalBytesStored(files, paths, path, content);
    assert (paths + [path])[..|paths|] == paths;
  }

  class Toolkit {
    /** What GitHub has at the ref. */
    const remote: string -> string
    var fileCache: map<string, string>
    var fileCacheBytes: nat
    ghost var paths: seq<string>

    constructor (remote: string -> string)
      ensures Valid() && this.remote == remote && fileCache == map[]
    {
      this.remote := remote;
      fileCache, fileCacheBytes, paths := map[], 0, [];
    }

    /** Cached contents are the remote ones, each small enough, and together they are counted and within the budget. */
    ghost predicate Valid()
      reads this
    {
      && (forall path <- fileCache :: fileCache[path] == remote(path) && 0 < |fileCache[path]| <= MAX_FILE_BYTES)
      && (forall path :: path in paths <==> path in fileCache)
      && (forall i, j | 0 <= i < j < |paths| :: paths[i] != paths[j])
      && fileCacheBytes == TotalBytes(fileCache, paths) <= MAX_TOTAL_BYTES
    }

    /** The cache changes no answer: every read that succeeds gives the remote content, and cached ones always succeed. */
    method CachedFileContent(path: string, reachable: bool) returns (content: Option<string>)
      requires Valid()
      modifies this
      ensures Valid()
      ensures content == if reachable || path in old(fileCache) then Some(remote(path)) else None
      ensures forall p <- old(fileCache) :: p in fileCache && fileCache[p] == old(fileCache)[p]
      ensures reachable && 0 < |remote(path)| <= MAX_FILE_BYTES && old(fileCacheBytes) + |remote(path)| <= MAX_TOTAL_BYTES ==>
                path in fileCache
    {
      if path in fileCache {
        return Some(fileCache[path]);
      }
      if !reachable {
        return None;
      }
      StoreFileCache(path, remote(path));
      return Some(remote(path));
    }

    method StoreFileCache(path: string, content: string)
      requires Valid() && content == remote(path)
      modifies this
      ensures Valid()
      ensures fileCache == if 0 < |content| <= MAX_FILE_BYTES && path !in old(fileCache) &&
                              old(fileCacheBytes) + |content| <= MAX_TOTAL_BYTES
                           then old(fileCache)[path := content] else old(fileCache)
    {
      if |content| == 0 || |content| > MAX_FILE_BYTES {
        return;
      }
      if path in fileCache {
        return;
      }
      if fileCacheBytes + |content| > MAX_TOTAL_BYTES {
        return;
      }
      hide TotalBytes;
      TotalBytesAppend(fileCache, paths, path, content);
      fileCache := fileCache[path := content];
      fileCacheBytes := fileCacheBytes + |content|;
      paths := paths + [path];
    }
  }
}
