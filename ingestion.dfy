/**
 * The bounded directory traversal of `gitingest/ingestion.py`.
 *
 * The directory on disk is a finite `Entry` value; a symlink is a leaf of it, so the walk
 * cannot follow a link. The glob matcher behind `_should_exclude` / `_should_include` is the
 * pair of predicates in `Glob`. The traversal is specified by `WalkDir` over node values and
 * counters; `ProcessNode` and its helpers, which update `Node` objects and `Stats` in place,
 * are proved to compute exactly that.
 */
module Ingestion {
  import opened Wrappers
  import opened Sorting
  import opened FileSystem
  import opened Config
  import opened Query
  import opened Strings
  import opened OutputFormatter

  /** A directory entry as `iterdir()` reports it. */
  datatype Entry =
    | FileEntry(name: string, data: FileData)
    | SymlinkEntry(name: string, target: string)
    | DirEntry(name: string, entries: seq<Entry>)
    | OtherEntry(name: string)

  /** The glob matcher: given the entry's path relative to the root, the entry and a pattern set. */
  datatype Glob = Glob(
    shouldExclude: (seq<string>, Entry, set<string>) -> bool,
    shouldInclude: (seq<string>, Entry, set<string>) -> bool)

  /** `limit_exceeded`. */
  predicate LimitExceeded(c: Counters, depth: nat)
  {
    depth > MAX_DIRECTORY_DEPTH || c.totalFiles >= MAX_FILES || c.totalSize >= MAX_TOTAL_SIZE_BYTES
  }

  /** `query.ignore_patterns and _should_exclude(...)`: an empty ignore set excludes nothing. */
  predicate Excluded(q: IngestionQuery, g: Glob, path: seq<string>, e: Entry)
  {
    |q.ignorePatterns| > 0 && g.shouldExclude(path, e, q.ignorePatterns)
  }

  /** `query.include_patterns and not _should_include(...)`: an absent or empty include set keeps everything. */
  predicate NotIncluded(q: IngestionQuery, g: Glob, path: seq<string>, e: Entry)
  {
    q.includePatterns.Some? && |q.includePatterns.value| > 0 && !g.shouldInclude(path, e, q.includePatterns.value)
  }

  /** A freshly constructed child node of `t`. */
  function NewChild(t: Tree, name: string, kind: NodeType, data: FileData, size: nat, fileCount: nat): Tree
  {
    Tree(name, kind, t.relPath + [name], data, size, fileCount, 0, t.depth + 1, [], None)
  }

  /** `_process_symlink`: one SYMLINK leaf, one more file for the parent and the counters, no size. */
  function SymlinkStep(t: Tree, name: string, target: string, c: Counters): (Tree, Counters)
  {
    (t.(children := t.children + [NewChild(t, name, Symlink, NO_DATA.(linkTarget := target), 0, 0)],
        fileCount := t.fileCount + 1),
     c.(totalFiles := c.totalFiles + 1))
  }

  /** The three refusals of `_process_file`: file count, total size, and more than a tenth of the total budget. */
  predicate RejectsFile(c: Counters, size: nat)
  {
    c.totalFiles + 1 > MAX_FILES || c.totalSize + size > MAX_TOTAL_SIZE_BYTES || size * 10 > MAX_TOTAL_SIZE_BYTES
  }

  /** `parent_node.children[:-10]`: how many leading children lose their caches. */
  function EvictionBound(n: nat): nat
  {
    if n > 10 then n - 10 else 0
  }

  /** The FILE children before position `bound` have their caches cleared; nothing else changes. */
  function EvictBefore(t: Tree, bound: nat): Tree
  {
    t.(children := seq(|t.children|, k requires 0 <= k < |t.children| =>
          if k < bound && t.children[k].kind == File then ClearAll(t.children[k]) else t.children[k]))
  }

  /** The periodic cache eviction of `_process_file`: all but the 10 most recent children. */
  function Evict(t: Tree): Tree
  {
    EvictBefore(t, EvictionBound(|t.children|))
  }

  /** An accepted file: one FILE leaf appended, one more file and its size for the parent. */
  function AddFile(t: Tree, name: string, data: FileData): Tree
  {
    t.(children := t.children + [NewChild(t, name, File, data, data.statSize, 1)],
       size := t.size + data.statSize,
       fileCount := t.fileCount + 1)
  }

  /** `_process_file`: reject and change nothing, or accept one FILE leaf and count it. */
  function FileStep(t: Tree, name: string, data: FileData, c: Counters): (Tree, Counters)
  {
    if RejectsFile(c, data.statSize) then (t, c)
    else
      var counted := Counters(c.totalFiles + 1, c.totalSize + data.statSize);
      if counted.totalFiles % 100 == 0 then (Evict(AddFile(t, name, data)), counted)
      else (AddFile(t, name, data), counted)
  }

  /** A non-empty sub-directory joins its parent, whose aggregates absorb the sub-directory's. */
  function Attach(t: Tree, sub: Tree): Tree
  {
    t.(children := t.children + [sub],
       size := t.size + sub.size,
       fileCount := t.fileCount + sub.fileCount,
       dirCount := t.dirCount + 1 + sub.dirCount)
  }

  /** One iteration of the `iterdir()` loop of `_process_node`. */
  function Visit(t: Tree, e: Entry, c: Counters, q: IngestionQuery, g: Glob): (Tree, Counters)
    decreases e, 2, 0
  {
    var path := t.relPath + [e.name];
    if Excluded(q, g, path, e) || NotIncluded(q, g, path, e) then (t, c)
    else match e
      case SymlinkEntry(name, target) => SymlinkStep(t, name, target, c)
      case FileEntry(name, data) =>
        if data.statSize > q.maxFileSize then (t, c) else FileStep(t, name, data, c)
      case DirEntry(name, entries) =>
        var walked := WalkDir(NewChild(t, name, Directory, NO_DATA, 0, 0), entries, c, q, g);
        if |walked.0.children| == 0 then (t, walked.1) else (Attach(t, walked.0), walked.1)
      case OtherEntry(_) => (t, c)
  }

  /** The loop of `_process_node` from entry `i` on. */
  function WalkFrom(t: Tree, entries: seq<Entry>, i: nat, c: Counters, q: IngestionQuery, g: Glob): (Tree, Counters)
    requires i <= |entries|
    decreases entries, 0, |entries| - i
  {
    if i == |entries| then (t, c)
    else
      var visited := Visit(t, entries[i], c, q, g);
      WalkFrom(visited.0, entries, i + 1, visited.1, q, g)
  }

  /** `_process_node`: nothing when a limit is exceeded, otherwise every entry in order, then the sort. */
  function WalkDir(t: Tree, entries: seq<Entry>, c: Counters, q: IngestionQuery, g: Glob): (Tree, Counters)
    decreases entries, 1, 0
  {
    if LimitExceeded(c, t.depth) then (t, c)
    else
      var walked := WalkFrom(t, entries, 0, c, q, g);
      (SortedTree(walked.0), walked.1)
  }

  // ---------------------------------------------------------------------------------------
  // Aggregates

  /** `sum(f(c) for c in cs)`, accumulated from the left as the children are appended. */
  function Sum(cs: seq<Tree>, f: Tree -> nat): nat
  {
    if |cs| == 0 then 0 else Sum(cs[..|cs| - 1], f) + f(cs[|cs| - 1])
  }

  /** What a child adds to its parent's `file_count`: a leaf counts once, a directory its own count. */
  function FileWeight(c: Tree): nat
  {
    if c.kind == Directory then c.fileCount else 1
  }

  /** What a child adds to its parent's `size`: a symlink adds nothing. */
  function SizeWeight(c: Tree): nat
  {
    if c.kind == Symlink then 0 else c.size
  }

  /** What a child adds to its parent's `dir_count`: a directory counts itself and its own directories. */
  function DirWeight(c: Tree): nat
  {
    if c.kind == Directory then 1 + c.dirCount else 0
  }

  lemma SumAppend(cs: seq<Tree>, x: Tree, f: Tree -> nat)
    ensures Sum(cs + [x], f) == Sum(cs, f) + f(x)
  {
    assert (cs + [x])[..|cs|] == cs;
  }

  lemma {:induction false} SumCongruent(a: seq<Tree>, b: seq<Tree>, f: Tree -> nat)
    requires |a| == |b|
    requires forall i :: 0 <= i < |a| ==> f(a[i]) == f(b[i])
    ensures Sum(a, f) == Sum(b, f)
  {
    if |a| > 0 {
      SumCongruent(a[..|a| - 1], b[..|b| - 1], f);
    }
  }

  lemma {:induction false} SumRemove(b: seq<Tree>, k: nat, f: Tree -> nat)
    requires k < |b|
    ensures Sum(b, f) == Sum(b[..k] + b[k + 1..], f) + f(b[k])
  {
    var n := |b|;
    if k == n - 1 {
      assert b[..k] + b[k + 1..] == b[..n - 1];
    } else {
      var front := b[..n - 1];
      SumRemove(front, k, f);
      assert b[..k] + b[k + 1..] == (front[..k] + front[k + 1..]) + [b[n - 1]];
      SumAppend(front[..k] + front[k + 1..], b[n - 1], f);
    }
  }

  /** A sum does not depend on the order of the children. */
  lemma {:induction false} SumPermutation(a: seq<Tree>, b: seq<Tree>, f: Tree -> nat)
    requires multiset(a) == multiset(b)
    ensures Sum(a, f) == Sum(b, f)
    decreases |a|
  {
    if |a| == 0 {
      assert |b| == |multiset(b)| == 0;
    } else {
      var n := |a|;
      var k := RemoveLast(a, b);
      SumPermutation(a[..n - 1], b[..k] + b[k + 1..], f);
      SumRemove(b, k, f);
    }
  }

  /** The last element of `a` sits at some position `k` of its permutation `b`; without them the rests are permutations. */
  lemma RemoveLast(a: seq<Tree>, b: seq<Tree>) returns (k: nat)
    requires multiset(a) == multiset(b) && |a| > 0
    ensures k < |b| && b[k] == a[|a| - 1]
    ensures multiset(a[..|a| - 1]) == multiset(b[..k] + b[k + 1..])
  {
    var n := |a|;
    var x := a[n - 1];
    assert a == a[..n - 1] + [x];
    assert x in multiset(b);
    k :| 0 <= k < |b| && b[k] == x;
    assert b == b[..k] + [x] + b[k + 1..];
    var rest := b[..k] + b[k + 1..];
    assert multiset(b) == multiset(rest) + multiset{x};
    assert multiset(a) == multiset(a[..n - 1]) + multiset{x};
    assert multiset(a[..n - 1]) == multiset(a) - multiset{x};
    assert multiset(rest) == multiset(b) - multiset{x};
  }

  /** Where a child sits relative to its parent, and that an attached directory is non-empty and sorted. */
  predicate ChildFits(parent: Tree, c: Tree)
  {
    && c.depth == parent.depth + 1
    && c.relPath == parent.relPath + [c.name]
    && (c.kind == Directory ==> |c.children| > 0 && SortedChildren(c))
  }

  /** The aggregates of one node agree with its kind and its children. */
  predicate Aggregated(t: Tree)
  {
    && (t.kind != Directory ==> t.children == [] && t.dirCount == 0)
    && (t.kind == File ==> t.fileCount == 1 && t.size == t.data.statSize)
    && (t.kind == Symlink ==> t.fileCount == 0 && t.size == 0)
    && (t.kind == Directory ==>
          && t.fileCount == Sum(t.children, FileWeight)
          && t.size == Sum(t.children, SizeWeight)
          && t.dirCount == Sum(t.children, DirWeight))
  }

  /** The shape every traversal result has, at every node. */
  predicate Formed(t: Tree)
  {
    && Aggregated(t)
    && forall i :: 0 <= i < |t.children| ==> ChildFits(t, t.children[i]) && Formed(t.children[i])
  }

  /** The counters moved exactly as the aggregates grew, the identity fields stayed, and the size budget held. */
  predicate Accounts(t: Tree, r: Tree, c: Counters, c': Counters)
  {
    && r.name == t.name && r.kind == t.kind && r.relPath == t.relPath && r.depth == t.depth && r.data == t.data
    && r.fileCount >= t.fileCount && r.size >= t.size
    && c'.totalFiles == c.totalFiles + (r.fileCount - t.fileCount)
    && c'.totalSize == c.totalSize + (r.size - t.size)
    && (c.totalSize <= MAX_TOTAL_SIZE_BYTES ==> c'.totalSize <= MAX_TOTAL_SIZE_BYTES)
  }

  /** A child joins a parent whose aggregates absorb the child's weights. */
  function Absorb(t: Tree, x: Tree): Tree
  {
    t.(children := t.children + [x],
       size := t.size + SizeWeight(x),
       fileCount := t.fileCount + FileWeight(x),
       dirCount := t.dirCount + DirWeight(x))
  }

  lemma AttachFormed(t: Tree, x: Tree)
    requires Formed(t) && t.kind == Directory
    requires ChildFits(t, x) && Formed(x)
    ensures Formed(Absorb(t, x))
  {
    var r := Absorb(t, x);
    SumAppend(t.children, x, FileWeight);
    SumAppend(t.children, x, SizeWeight);
    SumAppend(t.children, x, DirWeight);
    assert Aggregated(r);
    forall i | 0 <= i < |r.children|
      ensures ChildFits(r, r.children[i]) && Formed(r.children[i])
    {
      if i < |t.children| {
        assert r.children[i] == t.children[i] && ChildFits(t, t.children[i]);
      }
    }
  }

  lemma SortFormed(t: Tree)
    requires Formed(t)
    ensures Formed(SortedTree(t)) && SortedChildren(SortedTree(t))
  {
    SortedTreeIsStableSort(t);
    var s := SortedTree(t);
    SumPermutation(t.children, s.children, FileWeight);
    SumPermutation(t.children, s.children, SizeWeight);
    SumPermutation(t.children, s.children, DirWeight);
    forall i | 0 <= i < |s.children|
      ensures ChildFits(s, s.children[i]) && Formed(s.children[i])
    {
      assert s.children[i] in multiset(t.children);
    }
  }

  lemma EvictFormed(t: Tree, bound: nat)
    requires Formed(t)
    ensures Formed(EvictBefore(t, bound))
  {
    var r := EvictBefore(t, bound);
    forall k | 0 <= k < |r.children|
      ensures ChildFits(r, r.children[k]) && Formed(r.children[k])
      ensures FileWeight(r.children[k]) == FileWeight(t.children[k])
      ensures SizeWeight(r.children[k]) == SizeWeight(t.children[k])
      ensures DirWeight(r.children[k]) == DirWeight(t.children[k])
    {
      var c := t.children[k];
      assert ChildFits(t, c) && Formed(c);
      if k < bound && c.kind == File {
        ClearLeafFormed(c);
      }
    }
    SumCongruent(t.children, r.children, FileWeight);
    SumCongruent(t.children, r.children, SizeWeight);
    SumCongruent(t.children, r.children, DirWeight);
  }

  /** Clearing the cache of a formed FILE leaf changes nothing else and keeps it formed. */
  lemma ClearLeafFormed(c: Tree)
    requires Formed(c) && c.kind == File
    ensures ClearAll(c) == c.(cache := None) && Formed(ClearAll(c))
  {
    assert |ClearAll(c).children| == 0;
  }

  /** Position `j` is the next one the eviction loop handles. */
  lemma EvictStep(t: Tree, j: nat)
    requires j < |t.children|
    ensures var m := EvictBefore(t, j);
      && m.children[j] == t.children[j]
      && EvictBefore(t, j + 1)
           == if t.children[j].kind == File then m.(children := m.children[j := ClearAll(m.children[j])]) else m
  {
  }

  lemma EvictKeepsAggregates(t: Tree)
    ensures var r := Evict(t);
      r.(children := t.children) == t && |r.children| == |t.children|
  {
  }

  lemma FileStepFacts(t: Tree, name: string, data: FileData, c: Counters)
    requires Formed(t) && t.kind == Directory
    ensures Formed(FileStep(t, name, data, c).0)
    ensures Accounts(t, FileStep(t, name, data, c).0, c, FileStep(t, name, data, c).1)
  {
    if !RejectsFile(c, data.statSize) {
      AcceptFacts(t, name, data, c);
    }
  }

  lemma SymlinkAbsorbs(t: Tree, name: string, target: string, c: Counters)
    ensures SymlinkStep(t, name, target, c).0 == Absorb(t, NewChild(t, name, Symlink, NO_DATA.(linkTarget := target), 0, 0))
  {
  }

  lemma AttachAbsorbs(t: Tree, sub: Tree)
    requires sub.kind == Directory
    ensures Attach(t, sub) == Absorb(t, sub)
  {
  }

  lemma AddFileAbsorbs(t: Tree, name: string, data: FileData)
    ensures AddFile(t, name, data) == Absorb(t, NewChild(t, name, File, data, data.statSize, 1))
  {
  }

  /** An accepted file keeps the tree formed and is accounted for, whether or not eviction follows. */
  lemma AcceptFacts(t: Tree, name: string, data: FileData, c: Counters)
    requires Formed(t) && t.kind == Directory && !RejectsFile(c, data.statSize)
    ensures var grown := AddFile(t, name, data);
      var counted := Counters(c.totalFiles + 1, c.totalSize + data.statSize);
      && Formed(grown) && Accounts(t, grown, c, counted)
      && Formed(Evict(grown)) && Accounts(t, Evict(grown), c, counted)
  {
    var leaf := NewChild(t, name, File, data, data.statSize, 1);
    var grown := AddFile(t, name, data);
    AttachFormed(t, leaf);
    AddFileAbsorbs(t, name, data);
    EvictFormed(grown, EvictionBound(|grown.children|));
    EvictKeepsAggregates(grown);
  }

  lemma {:induction false} VisitFacts(t: Tree, e: Entry, c: Counters, q: IngestionQuery, g: Glob)
    requires Formed(t) && t.kind == Directory
    ensures Formed(Visit(t, e, c, q, g).0)
    ensures Accounts(t, Visit(t, e, c, q, g).0, c, Visit(t, e, c, q, g).1)
    decreases e, 2, 0
  {
    var path := t.relPath + [e.name];
    if Excluded(q, g, path, e) || NotIncluded(q, g, path, e) {
    } else {
      match e
      case SymlinkEntry(name, target) =>
        var leaf := NewChild(t, name, Symlink, NO_DATA.(linkTarget := target), 0, 0);
        AttachFormed(t, leaf);
        SymlinkAbsorbs(t, name, target, c);
      case FileEntry(name, data) =>
        if data.statSize <= q.maxFileSize {
          FileStepFacts(t, name, data, c);
        }
      case DirEntry(name, entries) =>
        var sub := NewChild(t, name, Directory, NO_DATA, 0, 0);
        WalkDirFacts(sub, entries, c, q, g);
        var walked := WalkDir(sub, entries, c, q, g);
        if |walked.0.children| > 0 {
          AttachFormed(t, walked.0);
          AttachAbsorbs(t, walked.0);
        }
      case OtherEntry(_) =>
    }
  }

  lemma {:induction false} WalkFromFacts(t: Tree, entries: seq<Entry>, i: nat, c: Counters, q: IngestionQuery, g: Glob)
    requires i <= |entries|
    requires Formed(t) && t.kind == Directory
    ensures Formed(WalkFrom(t, entries, i, c, q, g).0)
    ensures Accounts(t, WalkFrom(t, entries, i, c, q, g).0, c, WalkFrom(t, entries, i, c, q, g).1)
    decreases entries, 0, |entries| - i
  {
    if i < |entries| {
      VisitFacts(t, entries[i], c, q, g);
      var visited := Visit(t, entries[i], c, q, g);
      WalkFromFacts(visited.0, entries, i + 1, visited.1, q, g);
    }
  }

  /**
   * What `_process_node` guarantees of the directory it fills: every node of the result has
   * consistent aggregates, children one level deeper, no empty sub-directory, sorted children
   * below the root; the counters grew by exactly what the directory gained; `total_size` stays
   * within its budget; and when a limit is already exceeded nothing happens.
   */
  lemma {:induction false} WalkDirFacts(t: Tree, entries: seq<Entry>, c: Counters, q: IngestionQuery, g: Glob)
    requires Formed(t) && t.kind == Directory
    ensures Formed(WalkDir(t, entries, c, q, g).0)
    ensures Accounts(t, WalkDir(t, entries, c, q, g).0, c, WalkDir(t, entries, c, q, g).1)
    ensures LimitExceeded(c, t.depth) ==> WalkDir(t, entries, c, q, g) == (t, c)
    ensures !LimitExceeded(c, t.depth) ==> SortedChildren(WalkDir(t, entries, c, q, g).0)
    decreases entries, 1, 0
  {
    if !LimitExceeded(c, t.depth) {
      WalkFromFacts(t, entries, 0, c, q, g);
      SortFormed(WalkFrom(t, entries, 0, c, q, g).0);
    }
  }

  /**
   * `_process_file` either refuses the file and changes nothing, or appends exactly one FILE
   * leaf, counts it once in the parent and in the counters, and changes no earlier child beyond
   * its cache; the new leaf is among the ten the eviction keeps.
   */
  lemma FileStepOutcome(t: Tree, name: string, data: FileData, c: Counters)
    ensures RejectsFile(c, data.statSize) ==> FileStep(t, name, data, c) == (t, c)
    ensures !RejectsFile(c, data.statSize) ==>
      var r := FileStep(t, name, data, c).0;
      && |r.children| == |t.children| + 1
      && r.children[|t.children|] == NewChild(t, name, File, data, data.statSize, 1)
      && r.(children := t.children) == t.(size := t.size + data.statSize, fileCount := t.fileCount + 1)
      && FileStep(t, name, data, c).1 == Counters(c.totalFiles + 1, c.totalSize + data.statSize)
      && forall k :: 0 <= k < |t.children| ==> Shape(r.children[k]) == Shape(t.children[k])
    ensures c.totalSize <= MAX_TOTAL_SIZE_BYTES ==> FileStep(t, name, data, c).1.totalSize <= MAX_TOTAL_SIZE_BYTES
  {
    if !RejectsFile(c, data.statSize) {
      var grown := AddFile(t, name, data);
      EvictOutcome(grown);
      forall k | 0 <= k < |t.children|
        ensures Shape(FileStep(t, name, data, c).0.children[k]) == Shape(t.children[k])
      {
        assert grown.children[k] == t.children[k];
      }
    }
  }

  /** The eviction clears the caches of the FILE children before the last ten and changes nothing else. */
  lemma EvictOutcome(t: Tree)
    ensures |Evict(t).children| == |t.children| && Evict(t).(children := t.children) == t
    ensures forall k :: 0 <= k < |t.children| ==> Shape(Evict(t).children[k]) == Shape(t.children[k])
    ensures forall k :: 0 <= k < |t.children| ==>
      if k + 10 < |t.children| && t.children[k].kind == File then NoCache(Evict(t).children[k])
      else Evict(t).children[k] == t.children[k]
  {
    forall k | 0 <= k < |t.children| {
      ClearAllClearsOnlyCaches(t.children[k]);
    }
  }

  /** The entries the loop of `_process_node` skips, and the symlink that it records without following. */
  lemma VisitSkips(t: Tree, e: Entry, c: Counters, q: IngestionQuery, g: Glob)
    ensures Excluded(q, g, t.relPath + [e.name], e) ==> Visit(t, e, c, q, g) == (t, c)
    ensures NotIncluded(q, g, t.relPath + [e.name], e) ==> Visit(t, e, c, q, g) == (t, c)
    ensures e.FileEntry? && e.data.statSize > q.maxFileSize ==> Visit(t, e, c, q, g) == (t, c)
    ensures e.OtherEntry? ==> Visit(t, e, c, q, g) == (t, c)
    ensures e.SymlinkEntry? && !Excluded(q, g, t.relPath + [e.name], e) && !NotIncluded(q, g, t.relPath + [e.name], e) ==>
              Visit(t, e, c, q, g) == SymlinkStep(t, e.name, e.target, c)
  {
  }

  /** `_process_symlink` adds one SYMLINK leaf and one file to the parent and the counters, and no size. */
  lemma SymlinkStepOutcome(t: Tree, name: string, target: string, c: Counters)
    ensures var r := SymlinkStep(t, name, target, c);
      && r.0.children == t.children + [NewChild(t, name, Symlink, NO_DATA.(linkTarget := target), 0, 0)]
      && r.0.(children := t.children) == t.(fileCount := t.fileCount + 1)
      && r.1 == c.(totalFiles := c.totalFiles + 1)
      && r.0.children[|t.children|].children == []
  {
  }

  /**
   * A whole traversal from a fresh root with fresh counters: a well-formed, sorted tree whose
   * root aggregates count its descendants, with counters equal to the root's aggregates and
   * `total_size` within its budget.
   */
  lemma TraversalTheorem(root: Tree, entries: seq<Entry>, q: IngestionQuery, g: Glob)
    requires root.kind == Directory && root.children == []
    requires root.size == 0 && root.fileCount == 0 && root.dirCount == 0
    ensures var walked := WalkDir(root, entries, Counters(0, 0), q, g);
      && walked.0.name == root.name && walked.0.kind == Directory && walked.0.relPath == root.relPath
      && Formed(walked.0) && SortedChildren(walked.0)
      && walked.1 == Counters(walked.0.fileCount, walked.0.size)
      && walked.1.totalSize <= MAX_TOTAL_SIZE_BYTES
      && TallyBelow(walked.0) == Tally(walked.0.fileCount, walked.0.size, walked.0.dirCount)
  {
    assert Formed(root);
    WalkDirFacts(root, entries, Counters(0, 0), q, g);
    AggregatesCountDescendants(WalkDir(root, entries, Counters(0, 0), q, g).0);
  }

  /** Counts over every node strictly below a directory. */
  datatype Tally = Tally(files: nat, bytes: nat, dirs: nat)

  function Plus(a: Tally, b: Tally): Tally
  {
    Tally(a.files + b.files, a.bytes + b.bytes, a.dirs + b.dirs)
  }

  /** FILE and SYMLINK descendants, bytes of FILE descendants, and directory descendants of `t`. */
  function TallyBelow(t: Tree): Tally
    decreases t, 1
  {
    TallyOf(t.children)
  }

  function TallyOf(cs: seq<Tree>): Tally
    decreases cs, 0
  {
    if |cs| == 0 then Tally(0, 0, 0)
    else
      var last := cs[|cs| - 1];
      Plus(TallyOf(cs[..|cs| - 1]),
           match last.kind
           case File => Tally(1, last.size, 0)
           case Symlink => Tally(1, 0, 0)
           case Directory => Plus(Tally(0, 0, 1), TallyBelow(last)))
  }

  /**
   * In a traversal result, a directory's `file_count` is the number of FILE and SYMLINK nodes
   * below it, its `size` the total size of the FILE nodes below it, and its `dir_count` the
   * number of directories below it.
   */
  lemma {:induction false} AggregatesCountDescendants(t: Tree)
    requires Formed(t) && t.kind == Directory
    ensures TallyBelow(t) == Tally(t.fileCount, t.size, t.dirCount)
    decreases t, 1
  {
    SumsCountDescendants(t.children);
  }

  lemma {:induction false} SumsCountDescendants(cs: seq<Tree>)
    requires forall i :: 0 <= i < |cs| ==> Formed(cs[i])
    ensures TallyOf(cs) == Tally(Sum(cs, FileWeight), Sum(cs, SizeWeight), Sum(cs, DirWeight))
    decreases cs, 0
  {
    if |cs| > 0 {
      var last := cs[|cs| - 1];
      SumsCountDescendants(cs[..|cs| - 1]);
      if last.kind == Directory {
        AggregatesCountDescendants(last);
      }
    }
  }

  // ---------------------------------------------------------------------------------------
  // The traversal on objects

  /** `_process_symlink`. */
  method ProcessSymlink(name: string, target: string, parent: Node, stats: Stats)
    requires parent.Valid() && stats !in parent.Repr
    modifies parent, stats
    ensures parent.Valid() && stats !in parent.Repr && fresh(parent.Repr - old(parent.Repr))
    ensures (parent.Model(), stats.Value()) == SymlinkStep(old(parent.Model()), name, target, old(stats.Value()))
  {
    var child := new Node(name, Symlink, parent.relPath + [name], NO_DATA.(linkTarget := target), 0, 0, parent.depth + 1);
    stats.totalFiles := stats.totalFiles + 1;
    parent.AppendChild(child);
    parent.AddToAggregates(0, 1, 0);
  }

  /** `_process_file`, with its periodic eviction of sibling caches. */
  method ProcessFile(name: string, data: FileData, parent: Node, stats: Stats)
    requires parent.Valid() && stats !in parent.Repr
    modifies parent.Repr, stats
    ensures parent.Valid() && stats !in parent.Repr && fresh(parent.Repr - old(parent.Repr))
    ensures (parent.Model(), stats.Value()) == FileStep(old(parent.Model()), name, data, old(stats.Value()))
  {
    if stats.totalFiles + 1 > MAX_FILES {
      return;
    }
    var fileSize := data.statSize;
    if stats.totalSize + fileSize > MAX_TOTAL_SIZE_BYTES {
      return;
    }
    if fileSize * 10 > MAX_TOTAL_SIZE_BYTES {
      return;
    }
    stats.totalFiles := stats.totalFiles + 1;
    stats.totalSize := stats.totalSize + fileSize;
    var child := new Node(name, File, parent.relPath + [name], data, fileSize, 1, parent.depth + 1);
    parent.AppendChild(child);
    parent.AddToAggregates(fileSize, 1, 0);
    assert parent.Model() == AddFile(old(parent.Model()), name, data);
    if stats.totalFiles % 100 == 0 {
      EvictCaches(parent);
    }
  }

  /** `for child in parent_node.children[:-10]`: the FILE children but the 10 most recent drop their caches. */
  method EvictCaches(parent: Node)
    requires parent.Valid()
    modifies parent.Repr
    ensures parent.Valid() && parent.Repr == old(parent.Repr)
    ensures parent.Model() == Evict(old(parent.Model()))
  {
    ghost var grown := parent.Model();
    var j := 0;
    while j < |parent.children| - 10
      invariant 0 <= j <= EvictionBound(|parent.children|)
      invariant parent.Valid() && parent.Repr == old(parent.Repr) && |parent.children| == |grown.children|
      invariant parent.Model() == EvictBefore(grown, j)
    {
      EvictStep(grown, j);
      if parent.children[j].kind == File {
        parent.ClearChildContentCache(j);
      }
      j := j + 1;
    }
  }

  /** One iteration of the loop of `_process_node`: the filters, then the entry by its kind. */
  method ProcessEntry(node: Node, e: Entry, q: IngestionQuery, g: Glob, stats: Stats)
    requires node.Valid() && stats !in node.Repr
    modifies node.Repr, stats
    ensures node.Valid() && stats !in node.Repr && fresh(node.Repr - old(node.Repr))
    ensures (node.Model(), stats.Value()) == Visit(old(node.Model()), e, old(stats.Value()), q, g)
    decreases e, 2, 0
  {
    var path := node.relPath + [e.name];
    if |q.ignorePatterns| > 0 && g.shouldExclude(path, e, q.ignorePatterns) {
      return;
    }
    if q.includePatterns.Some? && |q.includePatterns.value| > 0 && !g.shouldInclude(path, e, q.includePatterns.value) {
      return;
    }
    match e
    case SymlinkEntry(name, target) =>
      ProcessSymlink(name, target, node, stats);
    case FileEntry(name, data) =>
      if data.statSize <= q.maxFileSize {
        ProcessFile(name, data, node, stats);
      }
    case DirEntry(name, sub) =>
      ProcessSubdirectory(node, name, sub, q, g, stats);
    case OtherEntry(_) =>
  }

  /** A sub-directory: walked on a fresh node one level deeper, attached only when it is non-empty. */
  method ProcessSubdirectory(node: Node, name: string, sub: seq<Entry>, q: IngestionQuery, g: Glob, stats: Stats)
    requires node.Valid() && stats !in node.Repr
    modifies node.Repr, stats
    ensures node.Valid() && stats !in node.Repr && fresh(node.Repr - old(node.Repr))
    ensures var walked := WalkDir(NewChild(old(node.Model()), name, Directory, NO_DATA, 0, 0), sub, old(stats.Value()), q, g);
      (node.Model(), stats.Value())
        == if |walked.0.children| == 0 then (old(node.Model()), walked.1) else (Attach(old(node.Model()), walked.0), walked.1)
    decreases sub, 2, 0
  {
    ghost var parent := node.Model();
    ghost var counters := stats.Value();
    var child := new Node(name, Directory, node.relPath + [name], NO_DATA, 0, 0, node.depth + 1);
    ghost var start := child.Model();
    assert start == NewChild(parent, name, Directory, NO_DATA, 0, 0);
    ghost var walked := WalkDir(start, sub, counters, q, g);
    assert node.Repr !! child.Repr && stats !in child.Repr;
    ProcessNode(child, sub, q, g, stats);
    assert (child.Model(), stats.Value()) == walked;
    assert node.Repr !! child.Repr;
    assert node.Valid() && node.Model() == parent;
    AttachNonEmpty(node, child);
  }

  /** The end of a sub-directory's iteration in `_process_node`: an empty one is dropped, any other one attached. */
  method AttachNonEmpty(node: Node, child: Node)
    requires node.Valid() && child.Valid() && node.Repr !! child.Repr
    modifies node
    ensures node.Valid() && old(node.Repr) <= node.Repr <= old(node.Repr) + child.Repr
    ensures node.Model() == if |child.Model().children| == 0 then old(node.Model()) else Attach(old(node.Model()), child.Model())
  {
    if |child.children| > 0 {
      node.AppendChild(child);
      node.AddToAggregates(child.size, child.fileCount, 1 + child.dirCount);
    }
  }

  /** `_process_node`. */
  method ProcessNode(node: Node, entries: seq<Entry>, q: IngestionQuery, g: Glob, stats: Stats)
    requires node.Valid() && stats !in node.Repr && node.kind == Directory
    modifies node.Repr, stats
    ensures node.Valid() && stats !in node.Repr && fresh(node.Repr - old(node.Repr))
    ensures (node.Model(), stats.Value()) == WalkDir(old(node.Model()), entries, old(stats.Value()), q, g)
    decreases entries, 1, 0
  {
    if LimitExceeded(stats.Value(), node.depth) {
      return;
    }
    ghost var start := (node.Model(), stats.Value());
    var i := 0;
    while i < |entries|
      invariant 0 <= i <= |entries|
      invariant node.Valid() && stats !in node.Repr && fresh(node.Repr - old(node.Repr))
      invariant WalkFrom(start.0, entries, 0, start.1, q, g) == WalkFrom(node.Model(), entries, i, stats.Value(), q, g)
    {
      ProcessEntry(node, entries[i], q, g, stats);
      i := i + 1;
    }
    var sorted := node.SortChildren();
  }

  // ---------------------------------------------------------------------------------------
  // ingest_query

  /** The parts of `parts` that `pathlib` keeps: empty pieces and "." collapse away. */
  function Kept(parts: seq<string>): (kept: seq<string>)
    ensures forall k :: 0 <= k < |kept| ==> kept[k] in parts && kept[k] != "" && kept[k] != "."
  {
    if |parts| == 0 then []
    else Kept(parts[..|parts| - 1]) + (if parts[|parts| - 1] in {"", "."} then [] else [parts[|parts| - 1]])
  }

  /** The components of `Path(query.subpath.strip("/"))`; no component is empty, "." or holds a "/". */
  function SubpathComponents(subpath: string): (comps: seq<string>)
    ensures forall k :: 0 <= k < |comps| ==> comps[k] != "" && comps[k] != "." && Avoids(comps[k], {'/'})
  {
    var pieces := SplitOn(Strip(subpath, '/'), {'/'});
    SplitOnPieces(Strip(subpath, '/'), {'/'});
    Kept(pieces)
  }

  /** `str(query.local_path / subpath)`. */
  function PathText(localPath: string, comps: seq<string>): string
  {
    if |comps| == 0 then localPath else localPath + "/" + Join(comps, "/")
  }

  /** The first entry of `es` called `name`. */
  function FindEntry(es: seq<Entry>, name: string): (r: Option<Entry>)
    ensures r.Some? ==> r.value in es && r.value.name == name
    ensures r.None? ==> forall k :: 0 <= k < |es| ==> es[k].name != name
  {
    if |es| == 0 then None
    else if es[0].name == name then Some(es[0])
    else FindEntry(es[1..], name)
  }

  /** The entry at `comps` below `e`, descending through directories; a symlink counts as missing. */
  function Lookup(e: Entry, comps: seq<string>): Option<Entry>
    decreases |comps|
  {
    if e.SymlinkEntry? then None
    else if |comps| == 0 then Some(e)
    else if !e.DirEntry? then None
    else match FindEntry(e.entries, comps[0])
      case None => None
      case Some(child) => Lookup(child, comps[1..])
  }

  /** `(query.type and query.type == "blob") or query.local_path.is_file()`. */
  predicate BlobMode(q: IngestionQuery, disk: Entry)
  {
    q.urlType == Some("blob") || disk.FileEntry?
  }

  /** The single FILE node of blob mode. */
  function FileRoot(name: string, comps: seq<string>, data: FileData): Tree
  {
    Tree(name, File, comps, data, data.statSize, 1, 0, 0, [], None)
  }

  /** The root DIRECTORY node of directory mode. */
  function DirectoryRoot(name: string, comps: seq<string>): Tree
  {
    Tree(name, Directory, comps, NO_DATA, 0, 0, 0, 0, [], None)
  }

  /** The blob branch of `ingest_query` for the file entry found: its FILE node must have content. */
  function FileOutcome(q: IngestionQuery, name: string, comps: seq<string>, data: FileData,
                       totalTokens: nat, oneDecimal: (nat, nat) -> string): Result<(string, string, string), string>
  {
    var leaf := FileRoot(name, comps, data);
    if ContentOf(leaf) == Ok("") then Err("File " + name + " has no content")
    else Ok(FormatResult(leaf, q, totalTokens, oneDecimal))
  }

  /** The directory branch of `ingest_query`: walk the entries from a fresh root and format the result. */
  function DirectoryOutcome(q: IngestionQuery, name: string, comps: seq<string>, entries: seq<Entry>, g: Glob,
                            totalTokens: nat, oneDecimal: (nat, nat) -> string): Result<(string, string, string), string>
  {
    var walked := WalkDir(DirectoryRoot(name, comps), entries, Counters(0, 0), q, g);
    Ok(FormatResult(walked.0, q, totalTokens, oneDecimal))
  }

  /**
   * What `ingest_query` returns or raises, for the entry `disk` at `query.local_path`, the glob
   * matcher `g`, and the token total the tokenizer estimates.
   */
  function Ingest(q: IngestionQuery, disk: Entry, g: Glob, totalTokens: nat, oneDecimal: (nat, nat) -> string)
    : Result<(string, string, string), string>
  {
    var comps := SubpathComponents(q.subpath);
    var found := Lookup(disk, comps);
    if found.None? then Err(q.slug + " cannot be found")
    else if BlobMode(q, disk) then
      if !found.value.FileEntry? then Err("Path " + PathText(q.localPath, comps) + " is not a file")
      else FileOutcome(q, found.value.name, comps, found.value.data, totalTokens, oneDecimal)
    else if !found.value.DirEntry? then Err("Not a directory: " + PathText(q.localPath, comps))
    else DirectoryOutcome(q, found.value.name, comps, found.value.entries, g, totalTokens, oneDecimal)
  }

  /**
   * The outcomes of `ingest_query`: a missing path, a blob that is not a file and a file without
   * content are the three errors it raises; a single file is summarised under its own name; a
   * directory is walked into a well-formed sorted tree whose summary reports exactly the number
   * of files and symlinks below the root, and the tree section always starts with the root line.
   */
  lemma IngestOutcomes(q: IngestionQuery, disk: Entry, g: Glob, totalTokens: nat, oneDecimal: (nat, nat) -> string)
    ensures var r := Ingest(q, disk, g, totalTokens, oneDecimal);
      var comps := SubpathComponents(q.subpath);
      var found := Lookup(disk, comps);
      && (found.None? ==> r == Err(q.slug + " cannot be found"))
      && (found.Some? && BlobMode(q, disk) && !found.value.FileEntry? ==>
            r == Err("Path " + PathText(q.localPath, comps) + " is not a file"))
      && (found.Some? && BlobMode(q, disk) && found.value.FileEntry? ==>
            (r.Err? <==> ContentOf(FileRoot(found.value.name, comps, found.value.data)) == Ok("")))
      && (r.Ok? && BlobMode(q, disk) ==>
            StartsWith(r.value.0, SummaryPrefix(q, true) + "File: " + found.value.name + "\n"))
      && (r.Ok? && !BlobMode(q, disk) ==>
            var walked := WalkDir(DirectoryRoot(found.value.name, comps), found.value.entries, Counters(0, 0), q, g).0;
            && Formed(walked) && SortedChildren(walked)
            && StartsWith(r.value.0, SummaryPrefix(q, false) + "Files analyzed: " + DecimalString(TallyBelow(walked).files) + "\n"))
      && (r.Ok? ==> StartsWith(r.value.1, "Directory structure:\n" + "└── "))
  {
    var comps := SubpathComponents(q.subpath);
    var found := Lookup(disk, comps);
    if found.Some? && BlobMode(q, disk) && found.value.FileEntry? {
      FileOutcomeFacts(q, found.value.name, comps, found.value.data, totalTokens, oneDecimal);
    } else if found.Some? && !BlobMode(q, disk) && found.value.DirEntry? {
      DirectoryOutcomeFacts(q, found.value.name, comps, found.value.entries, g, totalTokens, oneDecimal);
    }
  }

  /** A single file fails exactly when it has no content; otherwise its summary names it. */
  lemma FileOutcomeFacts(q: IngestionQuery, name: string, comps: seq<string>, data: FileData,
                         totalTokens: nat, oneDecimal: (nat, nat) -> string)
    ensures var r := FileOutcome(q, name, comps, data, totalTokens, oneDecimal);
      && (r.Err? <==> ContentOf(FileRoot(name, comps, data)) == Ok(""))
      && (r.Ok? ==> StartsWith(r.value.0, SummaryPrefix(q, true) + "File: " + name + "\n"))
      && (r.Ok? ==> StartsWith(r.value.1, "Directory structure:\n" + "└── "))
  {
    var t := FileRoot(name, comps, data);
    FileSummary(t, q, FormatTokenCount(totalTokens, oneDecimal));
    TreeSectionStart(t, q, totalTokens, oneDecimal);
  }

  /**
   * A directory is walked from a fresh root into a well-formed sorted tree, and its summary
   * reports the number of FILE and SYMLINK nodes below the root.
   */
  lemma DirectoryOutcomeFacts(q: IngestionQuery, name: string, comps: seq<string>, entries: seq<Entry>, g: Glob,
                              totalTokens: nat, oneDecimal: (nat, nat) -> string)
    ensures var r := DirectoryOutcome(q, name, comps, entries, g, totalTokens, oneDecimal);
      var walked := WalkDir(DirectoryRoot(name, comps), entries, Counters(0, 0), q, g).0;
      && r.Ok? && Formed(walked) && SortedChildren(walked)
      && StartsWith(r.value.0, SummaryPrefix(q, false) + "Files analyzed: " + DecimalString(TallyBelow(walked).files) + "\n")
      && StartsWith(r.value.1, "Directory structure:\n" + "└── ")
  {
    var root := DirectoryRoot(name, comps);
    TraversalTheorem(root, entries, q, g);
    var t := WalkDir(root, entries, Counters(0, 0), q, g).0;
    DirectorySummary(t, q, FormatTokenCount(totalTokens, oneDecimal));
    TreeSectionStart(t, q, totalTokens, oneDecimal);
  }

  /** `ingest_query`: resolve the path, then format a single file or walk and format a directory. */
  method IngestQuery(q: IngestionQuery, disk: Entry, g: Glob, totalTokens: nat, oneDecimal: (nat, nat) -> string)
    returns (r: Result<(string, string, string), string>)
    ensures r == Ingest(q, disk, g, totalTokens, oneDecimal)
  {
    var comps := SubpathComponents(q.subpath);
    var found := Lookup(disk, comps);
    if found.None? {
      return Err(q.slug + " cannot be found");
    }
    var target := found.value;
    if (q.urlType.Some? && q.urlType.value == "blob") || disk.FileEntry? {
      if !target.FileEntry? {
        return Err("Path " + PathText(q.localPath, comps) + " is not a file");
      }
      r := IngestFile(q, target.name, comps, target.data, totalTokens, oneDecimal);
    } else if !target.DirEntry? {
      r := Err("Not a directory: " + PathText(q.localPath, comps));
    } else {
      r := IngestDirectory(q, target.name, comps, target.entries, g, totalTokens, oneDecimal);
    }
  }

  /** The blob branch of `ingest_query`: build the FILE node, insist on content, format, clear the cache. */
  method IngestFile(q: IngestionQuery, name: string, comps: seq<string>, data: FileData,
                    totalTokens: nat, oneDecimal: (nat, nat) -> string)
    returns (r: Result<(string, string, string), string>)
    ensures r == FileOutcome(q, name, comps, data, totalTokens, oneDecimal)
  {
    var fileNode := new Node(name, File, comps, data, data.statSize, 1, 0);
    ghost var leaf := fileNode.Model();
    var content := fileNode.Content();
    ContentErrorsOnlyForDirectories(File, name, data);
    if content.value == "" {
      return Err("File " + name + " has no content");
    }
    var summary, tree, text := FormatNode(fileNode, q, totalTokens, oneDecimal);
    FormatAfterRead(leaf, q, totalTokens, oneDecimal);
    fileNode.ClearContentCache();
    r := Ok((summary, tree, text));
  }

  /** The directory branch of `ingest_query`: walk from a fresh root with fresh stats, format, clear the caches. */
  method IngestDirectory(q: IngestionQuery, name: string, comps: seq<string>, entries: seq<Entry>, g: Glob,
                         totalTokens: nat, oneDecimal: (nat, nat) -> string)
    returns (r: Result<(string, string, string), string>)
    ensures r == DirectoryOutcome(q, name, comps, entries, g, totalTokens, oneDecimal)
  {
    var root := new Node(name, Directory, comps, NO_DATA, 0, 0, 0);
    var stats := new Stats();
    ProcessNode(root, entries, q, g, stats);
    var summary, tree, text := FormatNode(root, q, totalTokens, oneDecimal);
    root.ClearContentCache();
    r := Ok((summary, tree, text));
  }
}
