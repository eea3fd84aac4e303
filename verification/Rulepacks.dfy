/** The rulepacks the build collects, and exactly when the archive of one is the
    archive of another. */
module Rulepacks {
  import opened Prelude
  import opened Archive

  // "VERSION", "metadata.yml", "langs/", ".yml" and ".yaml"
  const VERSION: Bytes := [0x56, 0x45, 0x52, 0x53, 0x49, 0x4F, 0x4E]
  const METADATA: Bytes := [0x6D, 0x65, 0x74, 0x61, 0x64, 0x61, 0x74, 0x61, 0x2E, 0x79, 0x6D, 0x6C]
  const LANGS: Bytes := [0x6C, 0x61, 0x6E, 0x67, 0x73, 0x2F]
  const YML: Bytes := [0x2E, 0x79, 0x6D, 0x6C]
  const YAML: Bytes := [0x2E, 0x79, 0x61, 0x6D, 0x6C]
  const DOT: byte := 0x2E

  // ---------------------------------------------------------------- path order

  /** A path as its components, the names between slashes. */
  function Components(path: Bytes): (names: seq<Bytes>)
    ensures names != []
  {
    if path == [] then [[]]
    else
      var rest := Components(path[1..]);
      if path[0] == SLASH then [[]] + rest else [[path[0]] + rest[0]] + rest[1..]
  }

  predicate NameLess(a: Bytes, b: Bytes) {
    if b == [] then false
    else if a == [] then true
    else a[0] < b[0] || (a[0] == b[0] && NameLess(a[1..], b[1..]))
  }

  /** Paths compare component by component. */
  predicate ComponentsLess(a: seq<Bytes>, b: seq<Bytes>) {
    if b == [] then false
    else if a == [] then true
    else NameLess(a[0], b[0]) || (a[0] == b[0] && ComponentsLess(a[1..], b[1..]))
  }

  /** The same order on the bytes: a slash comes before every other byte. */
  predicate PathLess(p: Bytes, q: Bytes) {
    if q == [] then false
    else if p == [] then true
    else if p[0] == q[0] then PathLess(p[1..], q[1..])
    else p[0] == SLASH || (q[0] != SLASH && p[0] < q[0])
  }

  lemma {:induction false} PathsCompareByComponents(p: Bytes, q: Bytes)
    ensures PathLess(p, q) <==> ComponentsLess(Components(p), Components(q))
    ensures Components(p) == Components(q) <==> p == q
    decreases |p|
  {
    var a, b := Components(p), Components(q);
    if p != [] && q != [] {
      PathsCompareByComponents(p[1..], q[1..]);
      assert p == [p[0]] + p[1..] && q == [q[0]] + q[1..];
      var c, d := Components(p[1..]), Components(q[1..]);
      if p[0] == q[0] == SLASH {
        assert a[1..] == c && b[1..] == d && a[0] == [] == b[0];
      } else if p[0] == SLASH {
        assert a[0] == [] && b[0] == [q[0]] + d[0] && b[0][0] == q[0];
      } else if q[0] == SLASH {
        assert b[0] == [] && a[0] == [p[0]] + c[0] && a[0][0] == p[0];
      } else {
        assert a[0] == [p[0]] + c[0] && b[0] == [q[0]] + d[0] && a[1..] == c[1..] && b[1..] == d[1..];
        assert a[0][0] == p[0] && b[0][0] == q[0] && a[0][1..] == c[0] && b[0][1..] == d[0];
        assert a[0] == b[0] <==> p[0] == q[0] && c[0] == d[0];
        assert c == [c[0]] + c[1..] && d == [d[0]] + d[1..];
      }
    } else if p == [] && q != [] {
      assert b[0] == [] ==> q[0] == SLASH && |b| > 1;
    } else if p != [] {
      assert a[0] == [] ==> p[0] == SLASH && |a| > 1;
    }
  }

  lemma {:induction false} PathLessIsTotal(p: Bytes, q: Bytes)
    ensures p == q || PathLess(p, q) || PathLess(q, p)
    ensures !(PathLess(p, q) && PathLess(q, p)) && !(p == q && PathLess(p, q))
    decreases |p|
  {
    if p != [] && q != [] {
      PathLessIsTotal(p[1..], q[1..]);
      assert p == [p[0]] + p[1..] && q == [q[0]] + q[1..];
    }
  }

  lemma {:induction false} PathLessIsTransitive(p: Bytes, q: Bytes, r: Bytes)
    requires PathLess(p, q) && PathLess(q, r)
    ensures PathLess(p, r)
    decreases |p|
  {
    if p != [] && p[0] == q[0] && q[0] == r[0] {
      PathLessIsTransitive(p[1..], q[1..], r[1..]);
    }
  }

  /** `q` lies below `p` taken as a directory. */
  predicate Under(q: Bytes, p: Bytes) {
    p + [SLASH] <= q
  }

  /** `p` sorts before `q`, and the two can be files of one tree. */
  predicate Ahead(p: Bytes, q: Bytes) {
    PathLess(p, q) && !Under(q, p)
  }

  /** What sorts between a name and a path below it lies below it too. */
  lemma {:induction false} BetweenIsUnder(p: Bytes, s: Bytes, r: Bytes)
    requires PathLess(p, s) && PathLess(s, r) && Under(r, p)
    ensures Under(s, p)
    decreases |p|
  {
    if p == [] {
      assert r[0] == SLASH;
      assert s[..1] == [SLASH];
    } else {
      assert r[0] == p[0] && s[0] == p[0];
      assert (p + [SLASH])[1..] == p[1..] + [SLASH];
      assert r[1..][..|p|] == r[..|p| + 1][1..];
      BetweenIsUnder(p[1..], s[1..], r[1..]);
      assert s == [s[0]] + s[1..] && p == [p[0]] + p[1..];
    }
  }

  lemma AheadOfLater(p: Bytes, s: Bytes, r: Bytes)
    requires Ahead(p, s) && (s == r || PathLess(s, r))
    ensures Ahead(p, r)
  {
    if s != r {
      PathLessIsTransitive(p, s, r);
      if Under(r, p) {
        BetweenIsUnder(p, s, r);
      }
    }
  }

  lemma EarlierIsAhead(p: Bytes, s: Bytes, r: Bytes)
    requires PathLess(p, s) && |p| == |s| && Ahead(s, r)
    ensures Ahead(p, r)
  {
    PathLessIsTransitive(p, s, r);
    if Under(r, p) {
      BetweenIsUnder(p, s, r);
    }
  }

  // --------------------------------------------------------------- collection

  predicate EndsWith(name: Bytes, suffix: Bytes) {
    |suffix| < |name| && name[|name| - |suffix|..] == suffix
  }

  /** A name a directory can list. */
  predicate EntryName(name: Bytes) {
    name != [] && name != [DOT] && name != [DOT, DOT]
  }

  /** The paths the build accepts: the two fixed files, and rule files below
      `langs`. */
  predicate Collectable(path: Bytes) {
    || path == VERSION || path == METADATA
    || (&& LANGS <= path
        && var names := Components(path[|LANGS|..]);
           && (forall k :: 0 <= k < |names| ==> EntryName(names[k]))
           && (EndsWith(names[|names| - 1], YML) || EndsWith(names[|names| - 1], YAML)))
  }

  ghost predicate Listed(files: seq<RuleFile>, path: Bytes) {
    exists f :: f in files && f.path == path
  }

  /** A rulepack as the build collects it, sorted by path. */
  ghost predicate Collected(files: seq<RuleFile>) {
    && Fits(files) && Listed(files, VERSION) && Listed(files, METADATA)
    && Acceptable(files) && Treelike(files)
  }

  ghost predicate Acceptable(files: seq<RuleFile>) {
    forall f :: f in files ==> Collectable(f.path)
  }

  /** Sorted by path, as files of one tree. */
  ghost predicate Treelike(files: seq<RuleFile>) {
    forall i, j :: 0 <= i < j < |files| ==> Ahead(files[i].path, files[j].path)
  }

  // ---------------------------------------------------------------- ambiguity

  /** Another spelling of one path, with other separators, that the build would
      collect at the same place. */
  ghost predicate Respelled(files: seq<RuleFile>, i: nat, path: Bytes) {
    && i < |files| && path != files[i].path && Slashed(path) == Slashed(files[i].path) && Collectable(path)
    && (i > 0 ==> Ahead(files[i - 1].path, path))
    && (i + 1 < |files| ==> Ahead(path, files[i + 1].path))
  }

  lemma RespellingCollects(a: seq<RuleFile>, i: nat, path: Bytes)
    requires Collected(a) && Respelled(a, i, path)
    ensures var b := a[i := RuleFile(path, a[i].content)];
            Collected(b) && b != a && Normalized(b) == Normalized(a)
  {
    hide Collectable, Ahead, Fits, Listed, Normalized, Slashed;
    var b := a[i := RuleFile(path, a[i].content)];
    assert b[i] != a[i];
    RespellingFits(a, i, path);
    FixedIsSpelledOnce(path, a[i].path);
    StillListed(a, i, path, VERSION);
    StillListed(a, i, path, METADATA);
    forall f | f in b
      ensures Collectable(f.path)
    {
      assert f == RuleFile(path, a[i].content) || f in a;
    }
    forall j, k | 0 <= j < k < |b|
      ensures Ahead(b[j].path, b[k].path)
    {
      RespellingSorts(a, i, path, j, k);
    }
  }

  lemma RespellingFits(a: seq<RuleFile>, i: nat, path: Bytes)
    requires Fits(a) && i < |a| && Slashed(path) == Slashed(a[i].path)
    ensures var b := a[i := RuleFile(path, a[i].content)]; Fits(b) && Normalized(b) == Normalized(a)
  {
    hide Slashed, Normalized, Power256;
    var b := a[i := RuleFile(path, a[i].content)];
    assert |path| == |Slashed(path)| == |a[i].path|;
    forall f | f in b
      ensures RecordFits(f)
    {
      assert RecordFits(a[i]);
      assert f == RuleFile(path, a[i].content) || f in a;
    }
    assert forall k :: 0 <= k < |b| ==> Normalized(b)[k] == Normalized(a)[k];
    assert Normalized(b) == Normalized(a);
  }

  lemma StillListed(a: seq<RuleFile>, i: nat, path: Bytes, name: Bytes)
    requires i < |a| && Listed(a, name) && a[i].path != name
    ensures Listed(a[i := RuleFile(path, a[i].content)], name)
  {
    var f :| f in a && f.path == name;
    var k :| 0 <= k < |a| && a[k] == f;
    assert a[i := RuleFile(path, a[i].content)][k] == f;
  }

  /** A path that can be spelled otherwise has a separator, which the two fixed
      files do not. */
  lemma FixedIsSpelledOnce(p: Bytes, q: Bytes)
    requires p != q && Slashed(p) == Slashed(q)
    ensures q != VERSION && q != METADATA
  {
    assert SLASH !in VERSION && BACKSLASH !in VERSION && SLASH !in METADATA && BACKSLASH !in METADATA;
    if q == VERSION || q == METADATA {
      SpelledOnce(p, q);
      assert false;
    }
  }

  lemma SpelledOnce(p: Bytes, q: Bytes)
    requires Slashed(p) == Slashed(q) && SLASH !in q && BACKSLASH !in q
    ensures p == q
  {
    hide Slashed;
    assert |p| == |Slashed(p)| == |Slashed(q)| == |q|;
    forall k | 0 <= k < |q|
      ensures p[k] == q[k]
    {
      assert q[k] in q && Slashed(p)[k] == Slashed(q)[k];
    }
  }

  lemma RespellingSorts(a: seq<RuleFile>, i: nat, path: Bytes, j: nat, k: nat)
    requires Treelike(a) && Respelled(a, i, path) && j < k < |a|
    ensures var b := a[i := RuleFile(path, a[i].content)]; Ahead(b[j].path, b[k].path)
  {
    hide Collectable, Under, PathLess, Fits, Listed, Slashed;
    if k == i && j < i - 1 {
      AheadOfLater(a[j].path, a[i - 1].path, path);
    } else if j == i && k > i + 1 {
      AheadOfLater(path, a[i + 1].path, a[k].path);
    }
  }

  /** Two collected rulepacks with one archive differ by a spelling. */
  lemma TwinIsRespelling(a: seq<RuleFile>, b: seq<RuleFile>) returns (i: nat)
    requires Treelike(a) && Treelike(b) && Acceptable(b) && a != b && Normalized(a) == Normalized(b)
    ensures i < |a| && i < |b| && Respelled(a, i, b[i].path)
  {
    hide Collectable, Under, PathLess, Fits, Listed, Slashed, Ahead;
    i :| 0 <= i < |a| && a[i].path != b[i].path;
    if exists k :: 0 <= k < |a| && PathLess(a[k].path, b[k].path) {
      var k :| 0 <= k < |a| && PathLess(a[k].path, b[k].path);
      i := LastRaised(a, b, k);
      LastRaisedFits(a, b, i);
    } else {
      i := FirstChanged(a, b, i);
      FirstChangedFits(a, b, i);
    }
  }

  lemma LastRaised(a: seq<RuleFile>, b: seq<RuleFile>, k: nat) returns (i: nat)
    requires k < |a| == |b| && PathLess(a[k].path, b[k].path)
    ensures k <= i < |a| && PathLess(a[i].path, b[i].path)
    ensures i + 1 < |a| ==> !PathLess(a[i + 1].path, b[i + 1].path)
    decreases |a| - k
  {
    i := k;
    if k + 1 < |a| && PathLess(a[k + 1].path, b[k + 1].path) {
      i := LastRaised(a, b, k + 1);
    }
  }

  lemma FirstChanged(a: seq<RuleFile>, b: seq<RuleFile>, k: nat) returns (i: nat)
    requires k < |a| == |b| && a[k].path != b[k].path
    ensures i <= k && a[i].path != b[i].path && (i > 0 ==> a[i - 1].path == b[i - 1].path)
    decreases k
  {
    i := k;
    if k > 0 && a[k - 1].path != b[k - 1].path {
      i := FirstChanged(a, b, k - 1);
    }
  }

  lemma LastRaisedFits(a: seq<RuleFile>, b: seq<RuleFile>, i: nat)
    requires Treelike(a) && Treelike(b) && Acceptable(b)
    requires i < |a| == |b| && Slashed(a[i].path) == Slashed(b[i].path)
    requires PathLess(a[i].path, b[i].path)
    requires i + 1 < |a| ==> !PathLess(a[i + 1].path, b[i + 1].path)
    ensures Respelled(a, i, b[i].path)
  {
    hide Collectable, Under, PathLess, Fits, Listed, Slashed;
    PathLessIsTotal(a[i].path, b[i].path);
    assert b[i] in b;
    if i > 0 {
      AheadOfLater(a[i - 1].path, a[i].path, b[i].path);
    }
    if i + 1 < |a| {
      PathLessIsTotal(b[i + 1].path, a[i + 1].path);
      AheadOfLater(b[i].path, b[i + 1].path, a[i + 1].path);
    }
  }

  lemma FirstChangedFits(a: seq<RuleFile>, b: seq<RuleFile>, i: nat)
    requires Treelike(a) && Treelike(b) && Acceptable(b)
    requires i < |a| == |b| && Slashed(a[i].path) == Slashed(b[i].path)
    requires |a[i].path| == |b[i].path|
    requires a[i].path != b[i].path && !PathLess(a[i].path, b[i].path)
    requires i > 0 ==> a[i - 1].path == b[i - 1].path
    ensures Respelled(a, i, b[i].path)
  {
    hide Collectable, Under, PathLess, Fits, Listed, Slashed;
    PathLessIsTotal(a[i].path, b[i].path);
    assert b[i] in b;
    if i + 1 < |a| {
      EarlierIsAhead(b[i].path, a[i].path, a[i + 1].path);
    }
  }

  /** Another rulepack the build can collect, with the same archive. */
  ghost predicate Twin(a: seq<RuleFile>, b: seq<RuleFile>) {
    Collected(b) && b != a && Encode(Normalized(b)) == Encode(Normalized(a))
  }

  /** Among the rulepacks the build can collect, another one has the same archive
      if and only if one path of this one can be spelled otherwise at its
      place. */
  lemma ArchiveIsAmbiguousExactlyWhen(a: seq<RuleFile>)
    requires Collected(a)
    ensures (exists b :: Twin(a, b)) <==> (exists i, path :: Respelled(a, i, path))
  {
    hide Collected, Respelled, Twin;
    if exists b :: Twin(a, b) {
      var b :| Twin(a, b);
      var i := TwinRespells(a, b);
    }
    if exists i: nat, path :: Respelled(a, i, path) {
      var i: nat, path :| Respelled(a, i, path);
      var b := RespellingIsTwin(a, i, path);
    }
  }

  lemma TwinRespells(a: seq<RuleFile>, b: seq<RuleFile>) returns (i: nat)
    requires Collected(a) && Twin(a, b)
    ensures i < |b| && Respelled(a, i, b[i].path)
  {
    hide Collectable, Ahead, Listed, Fits, Respelled, Encode, Normalized;
    ArchiveIsIdentity(b, a);
    i := TwinIsRespelling(a, b);
  }

  lemma RespellingIsTwin(a: seq<RuleFile>, i: nat, path: Bytes) returns (b: seq<RuleFile>)
    requires Collected(a) && Respelled(a, i, path)
    ensures Twin(a, b)
  {
    hide Collectable, Ahead, Listed, Fits, Slashed, Encode, Normalized;
    b := a[i := RuleFile(path, a[i].content)];
    RespellingCollects(a, i, path);
    ArchiveIsIdentity(b, a);
  }

  // ------------------------------------------------------- ordinary rulepacks

  /** A path with a directory below `langs`. */
  predicate Nested(path: Bytes) {
    LANGS <= path && SLASH in path[|LANGS|..]
  }

  function LastSlash(path: Bytes): (k: nat)
    requires SLASH in path
    ensures k < |path| && path[k] == SLASH && SLASH !in path[k + 1..]
  {
    var n := |path| - 1;
    if path[n] == SLASH then n
    else
      assert path == path[..n] + [path[n]];
      var k := LastSlash(path[..n]);
      assert path[k + 1..] == path[..n][k + 1..] + [path[n]];
      k
  }

  /** The path with its last directory joined to the file name. */
  function Joined(path: Bytes): Bytes
    requires Nested(path)
  {
    assert forall c :: c in path[|LANGS|..] ==> c in path;
    path[LastSlash(path) := BACKSLASH]
  }

  lemma {:induction false} ComponentsAround(x: Bytes, y: Bytes)
    requires SLASH !in y
    ensures Components(x + [SLASH] + y) == Components(x) + [y]
    decreases |x|
  {
    ComponentsPlain(y);
    if x == [] {
      assert [] + [SLASH] + y == [SLASH] + y && ([SLASH] + y)[1..] == y;
    } else {
      ComponentsAround(x[1..], y);
      assert (x + [SLASH] + y)[1..] == x[1..] + [SLASH] + y && (x + [SLASH] + y)[0] == x[0];
    }
  }

  /** The names with `tail` appended to the last. */
  function Extended(names: seq<Bytes>, tail: Bytes): (r: seq<Bytes>)
    requires names != []
    ensures |r| == |names|
  {
    names[..|names| - 1] + [names[|names| - 1] + tail]
  }

  lemma {:induction false} ComponentsJoined(x: Bytes, tail: Bytes)
    requires SLASH !in tail
    ensures Components(x + tail) == Extended(Components(x), tail)
    decreases |x|
  {
    if x == [] {
      assert [] + tail == tail;
      ComponentsPlain(tail);
    } else {
      ComponentsJoined(x[1..], tail);
      assert (x + tail)[1..] == x[1..] + tail && (x + tail)[0] == x[0];
      ExtendedBelow(Components(x[1..]), x[0], tail);
    }
  }

  lemma ExtendedBelow(names: seq<Bytes>, c: byte, tail: Bytes)
    requires names != []
    ensures [[]] + Extended(names, tail) == Extended([[]] + names, tail)
    ensures var e := Extended(names, tail);
            [[c] + e[0]] + e[1..] == Extended([[c] + names[0]] + names[1..], tail)
  {
    var e, all := Extended(names, tail), [[c] + names[0]] + names[1..];
    assert |names| == 1 ==> [c] + (names[0] + tail) == [c] + names[0] + tail;
    assert forall k :: 0 <= k < |names| ==> ([[c] + e[0]] + e[1..])[k] == Extended(all, tail)[k];
  }

  lemma {:induction false} ComponentsPlain(y: Bytes)
    requires SLASH !in y
    ensures Components(y) == [y]
    decreases |y|
  {
    if y != [] {
      assert y[0] in y && forall c :: c in y[1..] ==> c in y;
      ComponentsPlain(y[1..]);
      assert y == [y[0]] + y[1..];
    }
  }

  lemma JoinedIsCollectable(path: Bytes)
    requires Collectable(path) && Nested(path)
    ensures Collectable(Joined(path))
  {
    var x, y := NestedParts(path);
    ComponentsAround(x, y);
    ComponentsJoined(x, [BACKSLASH] + y);
    hide Components, EntryName, EndsWith;
    assert x + [BACKSLASH] + y == x + ([BACKSLASH] + y);
    assert (Components(x) + [y])[|Components(x)|] == y;
    JoinedNames(Components(x), y);
  }

  lemma NestedParts(path: Bytes) returns (x: Bytes, y: Bytes)
    requires Nested(path)
    ensures SLASH !in y && path != VERSION && path != METADATA
    ensures path[|LANGS|..] == x + [SLASH] + y
    ensures LANGS <= Joined(path) && Joined(path)[|LANGS|..] == x + [BACKSLASH] + y
  {
    assert path[0] == LANGS[0];
    assert forall c :: c in path[|LANGS|..] ==> c in path;
    var k := LastSlash(path);
    var j :| 0 <= j < |path[|LANGS|..]| && path[|LANGS|..][j] == SLASH;
    x, y := path[|LANGS|..k], path[k + 1..];
    SplitsAt(path, |LANGS|, k);
    SplitsAt(Joined(path), |LANGS|, k);
  }

  lemma SplitsAt(path: Bytes, from: nat, k: nat)
    requires from <= k < |path|
    ensures path[from..] == path[from..k] + [path[k]] + path[k + 1..]
  {
  }

  lemma JoinedNames(names: seq<Bytes>, y: Bytes)
    requires names != [] && forall k :: 0 <= k < |names| + 1 ==> EntryName((names + [y])[k])
    requires EndsWith(y, YML) || EndsWith(y, YAML)
    ensures var joined := Extended(names, [BACKSLASH] + y);
            && (forall k :: 0 <= k < |joined| ==> EntryName(joined[k]))
            && (EndsWith(joined[|joined| - 1], YML) || EndsWith(joined[|joined| - 1], YAML))
  {
    var init := names[|names| - 1];
    assert forall k :: 0 <= k < |names| ==> (names + [y])[k] == names[k];
    assert (names + [y])[|names|] == y;
    assert |init + ([BACKSLASH] + y)| > 2;
    assert init + ([BACKSLASH] + y) == (init + [BACKSLASH]) + y;
    hide EndsWith;
  }

  /** Bytes decide at the first difference. */
  lemma {:induction false} DecidesAt(p: Bytes, q: Bytes, k: nat)
    requires k < |p| && k < |q| && p[..k] == q[..k] && p[k] == SLASH && q[k] != SLASH
    ensures PathLess(p, q)
    decreases k
  {
    if k > 0 {
      assert p[0] == p[..k][0] == q[..k][0] == q[0];
      assert p[1..][..k - 1] == p[..k][1..] && q[1..][..k - 1] == q[..k][1..];
      DecidesAt(p[1..], q[1..], k - 1);
    }
  }

  /** Every other spelling of a path without backslashes sorts no earlier than
      the joined one. */
  lemma JoinedIsNearest(p: Bytes, q: Bytes)
    requires BACKSLASH !in p && p != q && Slashed(p) == Slashed(q) && LANGS <= p && LANGS <= q
    ensures Nested(p) && (Joined(p) == q || PathLess(Joined(p), q)) && |Joined(p)| == |q|
  {
    hide Slashed, PathLess;
    assert |p| == |Slashed(p)| == |Slashed(q)| == |q|;
    forall k | 0 <= k < |p|
      ensures p[k] != q[k] ==> p[k] == SLASH && q[k] == BACKSLASH && k >= |LANGS|
    {
      assert p[k] in p && Slashed(p)[k] == Slashed(q)[k];
      assert k < |LANGS| ==> p[k] == LANGS[k] == q[k];
    }
    var k := FirstDifference(p, q);
    assert p[|LANGS|..][k - |LANGS|] == SLASH;
    assert SLASH in p;
    var t := LastSlash(p);
    forall j | t < j < |p|
      ensures p[j] != SLASH && p[j] == q[j]
    {
      assert p[t + 1..][j - t - 1] == p[j];
    }
    var joined := Joined(p);
    if k < t {
      assert joined[..k] == p[..k];
      DecidesAt(joined, q, k);
    } else {
      assert forall j :: 0 <= j < t ==> p[j] == p[..t][j] == q[..t][j] == q[j];
      assert joined == q;
    }
  }

  lemma FirstDifference(p: Bytes, q: Bytes) returns (k: nat)
    requires |p| == |q| && p != q
    ensures k < |p| && p[..k] == q[..k] && p[k] != q[k]
  {
    k := 0;
    assert p[0..] == p && q[0..] == q;
    while p[k] == q[k]
      invariant k < |p| && p[..k] == q[..k] && p[k..] != q[k..]
      decreases |p| - k
    {
      assert p[..k + 1] == q[..k + 1];
      assert p[k..] == [p[k]] + p[k + 1..] && q[k..] == [q[k]] + q[k + 1..];
      k := k + 1;
    }
  }

  /** Joining the last directory of file `i` to its name keeps the order. */
  predicate Joinable(files: seq<RuleFile>, i: nat) {
    i < |files| && Nested(files[i].path) &&
    (i + 1 < |files| ==> PathLess(Joined(files[i].path), files[i + 1].path))
  }

  /** For a rulepack without backslashes one comparison per nested file decides
      whether its archive is ambiguous. */
  lemma OrdinaryIsAmbiguousExactlyWhen(a: seq<RuleFile>)
    requires Collected(a) && forall f :: f in a ==> BACKSLASH !in f.path
    ensures (exists b :: Twin(a, b)) <==> (exists i :: Joinable(a, i))
  {
    hide Acceptable, Treelike, Fits, Listed, Respelled, Joinable, Twin;
    ArchiveIsAmbiguousExactlyWhen(a);
    if exists i: nat, path :: Respelled(a, i, path) {
      var i: nat, path :| Respelled(a, i, path);
      RespelledIsJoinable(a, i, path);
    }
    if exists i: nat :: Joinable(a, i) {
      var i: nat :| Joinable(a, i);
      JoinableIsRespelled(a, i);
    }
  }

  lemma RespelledIsJoinable(a: seq<RuleFile>, i: nat, path: Bytes)
    requires Acceptable(a) && (forall f :: f in a ==> BACKSLASH !in f.path) && Respelled(a, i, path)
    ensures Joinable(a, i)
  {
    hide PathLess, Under, Slashed, Fits, Listed;
    var p := a[i].path;
    assert a[i] in a;
    FixedIsSpelledOnce(path, p);
    FixedIsSpelledOnce(p, path);
    JoinedIsNearest(p, path);
    if i + 1 < |a| && Joined(p) != path {
      EarlierIsAhead(Joined(p), path, a[i + 1].path);
    }
  }

  lemma JoinableIsRespelled(a: seq<RuleFile>, i: nat)
    requires Acceptable(a) && Treelike(a) && (forall f :: f in a ==> BACKSLASH !in f.path) && Joinable(a, i)
    ensures Respelled(a, i, Joined(a[i].path))
  {
    hide PathLess, Slashed, Fits, Listed, Collectable;
    var p, q := a[i].path, Joined(a[i].path);
    assert a[i] in a;
    assert forall c :: c in p[|LANGS|..] ==> c in p;
    var t := LastSlash(p);
    assert q[t] == BACKSLASH && p[t] == SLASH;
    JoinedIsCollectable(p);
    forall k | 0 <= k < |p|
      ensures Slashed(p)[k] == Slashed(q)[k]
    {
    }
    assert Slashed(p) == Slashed(q);
    DecidesAt(p, q, t);
    if i > 0 {
      AheadOfLater(a[i - 1].path, p, q);
    }
    if i + 1 < |a| {
      var r := a[i + 1].path;
      assert a[i + 1] in a;
      if Under(r, q) {
        UnderHolds(r, q, t);
        assert false;
      }
    }
  }

  lemma UnderHolds(r: Bytes, q: Bytes, t: nat)
    requires Under(r, q) && t < |q|
    ensures q[t] in r
  {
    assert r[t] == (q + [SLASH])[t];
  }

  // "langs/a/b.yml" and "langs/a\\b.yml"
  const SLASHED_RULE: Bytes := LANGS + [0x61, 0x2F, 0x62, 0x2E, 0x79, 0x6D, 0x6C]
  const BACKSLASHED_RULE: Bytes := LANGS + [0x61, 0x5C, 0x62, 0x2E, 0x79, 0x6D, 0x6C]

  function WithRule(path: Bytes): seq<RuleFile> {
    [RuleFile(VERSION, []), RuleFile(path, []), RuleFile(METADATA, [])]
  }

  /** The build collects both spellings of a rule, and archives them alike. */
  lemma BackslashesCollide()
    ensures var a, b := WithRule(SLASHED_RULE), WithRule(BACKSLASHED_RULE);
            Collected(a) && Twin(a, b)
  {
    hide Slashed, Normalized, Encode, Collected;
    var a, b := WithRule(SLASHED_RULE), WithRule(BACKSLASHED_RULE);
    assert SLASHED_RULE[7] != BACKSLASHED_RULE[7];
    assert a[1].path != b[1].path;
    SlashedRuleIsCollected();
    BackslashedRuleIsCollected();
    assert forall k :: 0 <= k < 3 ==> Normalized(a)[k] == Normalized(b)[k];
    assert Normalized(a) == Normalized(b);
  }

  lemma SlashedRuleIsCollected()
    ensures Collected(WithRule(SLASHED_RULE))
  {
    var x, y := [0x61], [0x62, 0x2E, 0x79, 0x6D, 0x6C];
    ComponentsPlain(x);
    ComponentsAround(x, y);
    assert SLASHED_RULE[|LANGS|..] == x + [SLASH] + y;
    hide Components, Collected;
    RuleIsCollected(SLASHED_RULE, [x, y]);
  }

  lemma BackslashedRuleIsCollected()
    ensures Collected(WithRule(BACKSLASHED_RULE))
  {
    var name := [0x61, 0x5C, 0x62, 0x2E, 0x79, 0x6D, 0x6C];
    ComponentsPlain(name);
    assert BACKSLASHED_RULE[|LANGS|..] == name;
    hide Components, Collected;
    RuleIsCollected(BACKSLASHED_RULE, [name]);
  }

  lemma RuleIsCollected(path: Bytes, names: seq<Bytes>)
    requires LANGS <= path && |path| < 100 && Components(path[|LANGS|..]) == names
    requires forall k :: 0 <= k < |names| ==> EntryName(names[k])
    requires EndsWith(names[|names| - 1], YML)
    ensures Collected(WithRule(path))
  {
    var a := WithRule(path);
    assert a[0] in a && a[2] in a;
    assert Power256(4) > 100 && Power256(8) > 100;
    assert Listed(a, VERSION) && Listed(a, METADATA);
    assert PathLess(VERSION, path) && PathLess(path, METADATA) && PathLess(VERSION, METADATA);
    assert path[0] == LANGS[0] && VERSION[0] != path[0] && METADATA[0] != path[0];
  }

  // "a/z.yml" and "a.yml"
  const NESTED: Bytes := [0x61, 0x2F, 0x7A, 0x2E, 0x79, 0x6D, 0x6C]
  const SIBLING: Bytes := [0x61, 0x2E, 0x79, 0x6D, 0x6C]

  /** A directory alone does not make an archive ambiguous: before
      `langs/a.yml`, the rule `langs/a/z.yml` has no other place to go. */
  lemma SiblingKeepsTheSpelling()
    ensures var p, q := LANGS + NESTED, LANGS + SIBLING;
            Nested(p) && Ahead(p, q) && !PathLess(Joined(p), q)
  {
    var p, q := LANGS + NESTED, LANGS + SIBLING;
    assert p[|LANGS|..] == NESTED && NESTED[1] == SLASH && p[7] == SLASH;
    var joined := Joined(p);
    assert joined[..7] == q[..7] && joined[7] == BACKSLASH && q[7] == DOT;
    assert p[..7] == q[..7];
    DecidesAt(p, q, 7);
    LaterByte(joined, q, 7);
  }

  lemma {:induction false} LaterByte(p: Bytes, q: Bytes, k: nat)
    requires k < |p| && k < |q| && p[..k] == q[..k] && SLASH != p[k] && p[k] > q[k]
    ensures !PathLess(p, q)
    decreases k
  {
    if k > 0 {
      assert p[0] == p[..k][0] == q[..k][0] == q[0];
      assert p[1..][..k - 1] == p[..k][1..] && q[1..][..k - 1] == q[..k][1..];
      LaterByte(p[1..], q[1..], k - 1);
    }
  }
}
