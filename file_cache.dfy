/** The client-side FileCache: three maps keyed by path, for the cached
    content, the modified flag and the mode. */
module Cache {
  import opened Wrappers

  class FileCache {
    var cache: map<string, string>
    var modified: map<string, bool>
    var mode: map<string, string>

    /** Every operation sets or removes the content and the flag of a path
        together, so the two maps always have the same paths. */
    ghost predicate Valid()
      reads this
    {
      modified.Keys == cache.Keys
    }

    constructor ()
      ensures Valid() && cache == map[] && modified == map[] && mode == map[]
    {
      cache := map[];
      modified := map[];
      mode := map[];
    }

    function IsCached(filePath: string): bool
      reads this
    {
      filePath in cache
    }

    /** read: the cached content, or nothing (null) when the path is not
        cached. */
    function Read(filePath: string): (content: Option<string>)
      reads this
      ensures content.Some? <==> IsCached(filePath)
    {
      if filePath in cache then Some(cache[filePath]) else None
    }

    /** isModified: getOrDefault(filePath, false). Only a cached path can be
        modified. */
    function IsModified(filePath: string): (b: bool)
      reads this
      requires Valid()
      ensures b ==> IsCached(filePath)
    {
      filePath in modified && modified[filePath]
    }

    method CacheFile(filePath: string, content: string)
      requires Valid()
      modifies this
      ensures Valid()
      ensures cache == old(cache)[filePath := content]
      ensures modified == old(modified)[filePath := false]
      ensures mode == old(mode)
      ensures Read(filePath) == Some(content) && IsCached(filePath) && !IsModified(filePath)
    {
      cache := cache[filePath := content];
      modified := modified[filePath := false];
    }

    method SetFileMode(filePath: string, m: string)
      modifies this
      ensures mode == old(mode)[filePath := m]
      ensures cache == old(cache) && modified == old(modified)
    {
      mode := mode[filePath := m];
    }

    method Write(filePath: string, content: string)
      requires Valid()
      modifies this
      ensures Valid()
      ensures cache == old(cache)[filePath := content]
      ensures modified == old(modified)[filePath := true]
      ensures mode == old(mode)
      ensures Read(filePath) == Some(content) && IsCached(filePath) && IsModified(filePath)
    {
      cache := cache[filePath := content];
      modified := modified[filePath := true];
    }

    method Remove(filePath: string)
      requires Valid()
      modifies this
      ensures Valid()
      ensures cache == old(cache) - {filePath}
      ensures modified == old(modified) - {filePath}
      ensures mode == old(mode) - {filePath}
      ensures Read(filePath) == None && !IsCached(filePath) && !IsModified(filePath) && filePath !in mode
    {
      cache := cache - {filePath};
      modified := modified - {filePath};
      mode := mode - {filePath};
    }
  }

  /** A client of the cache that applies every mutating operation to one
      path p: whatever it does to p, every other path keeps its content, its
      flag and its mode, and the flag reports a write only until the next
      cacheFile or remove of p. */
  method OtherPathsUntouched(c: FileCache, p: string, q: string, x: string, y: string, m: string)
    requires c.Valid() && p != q
    modifies c
    ensures c.Valid()
    ensures c.cache - {p} == old(c.cache) - {p}
    ensures c.modified - {p} == old(c.modified) - {p}
    ensures c.mode - {p} == old(c.mode) - {p}
    ensures c.Read(q) == old(c.Read(q)) && c.IsModified(q) == old(c.IsModified(q))
    ensures (q in c.mode) == old(q in c.mode) && (q in c.mode ==> c.mode[q] == old(c.mode)[q])
    ensures !c.IsCached(p) && !c.IsModified(p) && p !in c.mode
  {
    ghost var cache0, modified0, mode0 := c.cache, c.modified, c.mode;
    c.Write(p, x);
    assert c.IsModified(p);
    ghost var cache1, modified1 := c.cache, c.modified;
    c.CacheFile(p, y);
    assert c.Read(p) == Some(y) && !c.IsModified(p);
    ghost var cache2, modified2 := c.cache, c.modified;
    c.Write(p, x);
    c.SetFileMode(p, m);
    assert c.IsModified(p) && c.mode[p] == m;
    c.Remove(p);
    UpdateThenRemove(cache2, p, x);
    UpdateThenRemove(cache1, p, y);
    UpdateThenRemove(cache0, p, x);
    UpdateThenRemove(modified2, p, true);
    UpdateThenRemove(modified1, p, false);
    UpdateThenRemove(modified0, p, true);
    UpdateThenRemove(mode0, p, m);
    KeptApart(c.cache, cache0, p, q);
    KeptApart(c.modified, modified0, p, q);
    KeptApart(c.mode, mode0, p, q);
  }

  /** Two maps that agree away from p agree on q. */
  lemma KeptApart<V>(s: map<string, V>, t: map<string, V>, p: string, q: string)
    requires s - {p} == t - {p} && p != q
    ensures (q in s) == (q in t) && (q in s ==> s[q] == t[q])
  {
    assert (q in s) == (q in s - {p});
    assert (q in t) == (q in t - {p});
    if q in s {
      assert s[q] == (s - {p})[q];
    }
  }

  /** Removing a path undoes any earlier update of it. */
  lemma UpdateThenRemove<V>(s: map<string, V>, p: string, v: V)
    ensures s[p := v] - {p} == s - {p}
  {
  }
}
