/** Resolving an import's module path to workspace files through an index keyed
    by the last path segment, with the nearest file preferred where several
    match. */
module ModulePaths {
  import opened Prelude
  import opened Ordering
  import opened CallGraphs

  type Segments = seq<string>

  /** An indexed file with its extension-less path segments. */
  datatype Entry = Entry(file: FileId, path: Segments)

  type TailIndex = map<string, seq<Entry>>

  // ------------------------------------------------------------- plain scan

  predicate EndsWith(path: Segments, tail: Segments) {
    |tail| <= |path| && path[|path| - |tail|..] == tail
  }

  /** How many leading segments two paths share. */
  function Shared(a: Segments, b: Segments): nat {
    if a == [] || b == [] || a[0] != b[0] then 0 else 1 + Shared(a[1..], b[1..])
  }

  /** A path ends with a tail if and only if something stands before it. */
  lemma EndsWithMeans(path: Segments, tail: Segments)
    ensures EndsWith(path, tail) <==> exists head :: path == head + tail
  {
    if EndsWith(path, tail) {
      assert path == path[..|path| - |tail|] + tail;
    }
  }

  /** Two paths share `n` segments if and only if their first `n` agree. */
  lemma {:induction false} SharedMeans(path: Segments, other: Segments, n: nat)
    requires n <= |path| && n <= |other|
    ensures n <= Shared(path, other) <==> path[..n] == other[..n]
    ensures Shared(path, other) <= |path| && Shared(path, other) <= |other|
    decreases |path|
  {
    if path != [] && other != [] {
      SharedMeans(path[1..], other[1..], if n > 0 then n - 1 else 0);
      if n > 0 {
        assert path[..n] == [path[0]] + path[1..][..n - 1] && other[..n] == [other[0]] + other[1..][..n - 1];
        assert path[..n][0] == path[0] && other[..n][0] == other[0];
        assert path[..n][1..] == path[1..][..n - 1] && other[..n][1..] == other[1..][..n - 1];
      }
    }
  }

  /** The files whose path ends with `tail`. */
  ghost function Matching(paths: map<FileId, Segments>, tail: Segments): set<FileId> {
    set f | f in paths && EndsWith(paths[f], tail)
  }

  /** Among those, the ones nearest to the importing file. */
  ghost function Nearest(paths: map<FileId, Segments>, tail: Segments, importing: Segments): set<FileId> {
    set f | f in Matching(paths, tail) &&
            forall g :: g in Matching(paths, tail) ==> Shared(paths[g], importing) <= Shared(paths[f], importing)
  }

  /** `n` is the length of the longest prefix of the module path that some file
      ends with. */
  ghost predicate LongestPrefix(paths: map<FileId, Segments>, segments: Segments, n: nat) {
    && 0 < n <= |segments| && Matching(paths, segments[..n]) != {}
    && forall m :: n < m <= |segments| ==> Matching(paths, segments[..m]) == {}
  }

  // ------------------------------------------------------------------ index

  /** The bucket of a tail holds exactly the files whose path ends there. */
  ghost predicate IndexOf(index: TailIndex, paths: map<FileId, Segments>) {
    forall tail, e ::
      (tail in index && e in index[tail]) <==>
      (e.file in paths && paths[e.file] == e.path && e.path != [] && e.path[|e.path| - 1] == tail)
  }

  ghost predicate Bucketed(index: TailIndex, paths: map<FileId, Segments>, seen: set<FileId>) {
    forall tail, e ::
      (tail in index && e in index[tail]) <==>
      (e.file in seen && e.file in paths && paths[e.file] == e.path && e.path != [] && e.path[|e.path| - 1] == tail)
  }

  method BuildIndex(paths: map<FileId, Segments>) returns (index: TailIndex)
    ensures IndexOf(index, paths)
    ensures forall tail, i, j :: tail in index && 0 <= i < j < |index[tail]| ==>
              index[tail][i].file <= index[tail][j].file
  {
    index := map[];
    var files := paths.Keys;
    while files != {}
      invariant files <= paths.Keys && Bucketed(index, paths, paths.Keys - files)
      decreases files
    {
      var file :| file in files;
      var path := paths[file];
      if path != [] {
        var tail := path[|path| - 1];
        var bucket := if tail in index then index[tail] else [];
        assert forall e :: e in bucket + [Entry(file, path)] <==> e in bucket || e == Entry(file, path);
        index := index[tail := bucket + [Entry(file, path)]];
      }
      files := files - {file};
    }
    index := SortBuckets(index);
  }

  method SortBuckets(index: TailIndex) returns (sorted: TailIndex)
    ensures sorted.Keys == index.Keys
    ensures forall tail, e :: tail in index ==> (e in sorted[tail] <==> e in index[tail])
    ensures forall tail, i, j :: tail in sorted && 0 <= i < j < |sorted[tail]| ==>
              sorted[tail][i].file <= sorted[tail][j].file
  {
    sorted := map[];
    var tails := index.Keys;
    while tails != {}
      invariant tails <= index.Keys && sorted.Keys == index.Keys - tails
      invariant forall tail, e :: tail in sorted ==> (e in sorted[tail] <==> e in index[tail])
      invariant forall tail, i, j :: tail in sorted && 0 <= i < j < |sorted[tail]| ==>
                  sorted[tail][i].file <= sorted[tail][j].file
      decreases tails
    {
      var tail :| tail in tails;
      var bucket := SortBucket(index[tail]);
      sorted, tails := sorted[tail := bucket], tails - {tail};
    }
  }

  method SortBucket(bucket: seq<Entry>) returns (sorted: seq<Entry>)
    ensures forall e :: e in sorted <==> e in bucket
    ensures forall i, j :: 0 <= i < j < |sorted| ==> sorted[i].file <= sorted[j].file
  {
    ghost var any := (a: Entry, b: Entry) => true;
    sorted := StableSort(bucket, (a: Entry, b: Entry) => a.file <= b.file, any);
    forall e: Entry
      ensures e in sorted <==> e in bucket
    {
      assert e in sorted <==> e in multiset(sorted);
      assert e in bucket <==> e in multiset(bucket);
    }
  }

  // ---------------------------------------------------------------- resolve

  method RankOf(path: Segments, importing: Segments) returns (n: nat)
    ensures n == Shared(path, importing)
  {
    n := 0;
    while n < |path| && n < |importing| && path[n] == importing[n]
      invariant n <= |path| && n <= |importing|
      invariant Shared(path, importing) == n + Shared(path[n..], importing[n..])
    {
      assert path[n..][1..] == path[n + 1..] && importing[n..][1..] == importing[n + 1..];
      n := n + 1;
    }
  }

  /** The indexed candidates are exactly the files of the plain scan. */
  method Candidates(index: TailIndex, ghost paths: map<FileId, Segments>, tail: Segments) returns (found: seq<Entry>)
    requires IndexOf(index, paths) && tail != []
    ensures forall e :: e in found <==> e.file in Matching(paths, tail) && e.path == paths[e.file]
  {
    found := [];
    var last := tail[|tail| - 1];
    if last in index {
      for k := 0 to |index[last]|
        invariant forall e :: e in found <==> e in index[last][..k] && EndsWith(e.path, tail)
      {
        assert index[last][..k + 1] == index[last][..k] + [index[last][k]];
        if EndsWith(index[last][k].path, tail) {
          found := found + [index[last][k]];
        }
      }
      assert index[last][..|index[last]|] == index[last];
    }
    forall e: Entry
      ensures e in found <==> e.file in Matching(paths, tail) && e.path == paths[e.file]
    {
      if e.file in Matching(paths, tail) && e.path == paths[e.file] {
        assert last in index && e in index[last];
      }
    }
  }

  /** Keep the candidates that share the longest prefix with the importer. */
  method KeepNearest(found: seq<Entry>, importing: Segments) returns (files: seq<FileId>)
    ensures forall f :: f in files <==>
      exists e :: e in found && e.file == f &&
                  forall g :: g in found ==> Shared(g.path, importing) <= Shared(e.path, importing)
  {
    var best := 0;
    for k := 0 to |found|
      invariant forall i :: 0 <= i < k ==> Shared(found[i].path, importing) <= best
      invariant k > 0 ==> exists i :: 0 <= i < k && Shared(found[i].path, importing) == best
    {
      var rank := RankOf(found[k].path, importing);
      if k == 0 || rank > best {
        best := rank;
      }
    }
    files := [];
    for k := 0 to |found|
      invariant forall f :: f in files <==>
        exists i :: 0 <= i < k && found[i].file == f && Shared(found[i].path, importing) == best
    {
      var rank := RankOf(found[k].path, importing);
      if rank == best {
        files := files + [found[k].file];
      }
    }
  }

  /** Resolve a module path: the longest matching prefix, and within it exactly
      the nearest files, in id order. */
  method Resolve(index: TailIndex, ghost paths: map<FileId, Segments>, segments: Segments, importing: Segments)
    returns (files: seq<FileId>)
    requires IndexOf(index, paths)
    ensures forall n: nat :: LongestPrefix(paths, segments, n) ==>
              Elements(files) == Nearest(paths, segments[..n], importing) && files != []
    ensures files == [] <==> forall n :: 0 < n <= |segments| ==> Matching(paths, segments[..n]) == {}
    ensures forall i, j :: 0 <= i < j < |files| ==> files[i] < files[j]
  {
    var n := |segments|;
    while n > 0
      invariant 0 <= n <= |segments|
      invariant forall m :: n < m <= |segments| ==> Matching(paths, segments[..m]) == {}
    {
      var found := Candidates(index, paths, segments[..n]);
      if found != [] {
        var near := KeepNearest(found, importing);
        files := SortDedup(near);
        assert found[0] in found;
        NearestFiles(paths, segments[..n], importing, found, near);
        assert LongestPrefix(paths, segments, n);
        return;
      }
      assert forall f :: f in Matching(paths, segments[..n]) ==> Entry(f, paths[f]) in found;
      n := n - 1;
    }
    files := [];
  }

  lemma NearestFiles(
      paths: map<FileId, Segments>, tail: Segments, importing: Segments, found: seq<Entry>, near: seq<FileId>)
    requires forall e :: e in found <==> e.file in Matching(paths, tail) && e.path == paths[e.file]
    requires forall f :: f in near <==>
      exists e :: e in found && e.file == f &&
                  forall g :: g in found ==> Shared(g.path, importing) <= Shared(e.path, importing)
    ensures Elements(near) == Nearest(paths, tail, importing)
    ensures Matching(paths, tail) != {} ==> Nearest(paths, tail, importing) != {}
  {
    forall f | f in Nearest(paths, tail, importing)
      ensures f in near
    {
      var e := Entry(f, paths[f]);
      assert e in found && forall g :: g in found ==> g.file in Matching(paths, tail);
    }
    forall f | f in near
      ensures f in Nearest(paths, tail, importing)
    {
      var e :| e in found && e.file == f &&
               forall g :: g in found ==> Shared(g.path, importing) <= Shared(e.path, importing);
      forall g | g in Matching(paths, tail)
        ensures Shared(paths[g], importing) <= Shared(paths[f], importing)
      {
        assert Entry(g, paths[g]) in found;
      }
    }
    if Matching(paths, tail) != {} {
      var f := Farthest(paths, Matching(paths, tail), importing);
      assert f in Nearest(paths, tail, importing);
    }
  }

  lemma {:induction false} Farthest(paths: map<FileId, Segments>, files: set<FileId>, importing: Segments)
    returns (f: FileId)
    requires files != {} && files <= paths.Keys
    ensures f in files && forall g :: g in files ==> Shared(paths[g], importing) <= Shared(paths[f], importing)
    decreases files
  {
    f :| f in files;
    var first, rest := f, files - {f};
    assert files == rest + {first};
    if rest != {} {
      var other := Farthest(paths, rest, importing);
      if Shared(paths[f], importing) < Shared(paths[other], importing) {
        f := other;
      }
    }
  }
}
