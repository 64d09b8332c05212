/**
 * The filesystem representation of gitingest (`gitingest/schemas/filesystem.py`):
 * node kinds, traversal counters, and the node itself with its lazily filled,
 * clearable content cache.
 *
 * A node is a `Node` object whose fields are updated in place; `Model()` is its value as a
 * `Tree`, and the specifications of the traversal and the formatter are stated over `Tree`.
 * What the operating system would report about a file (its first chunk, which encodings decode
 * it, what reading it yields, its size, a symlink's target) is carried as data in `FileData`.
 */
module FileSystem {
  import opened Wrappers
  import opened Strings
  import opened Sorting

  /** 48 '=' characters: the block separator of `content_string`. */
  const SEPARATOR: string := Repeat('=', 48)

  /** `c * n`: the character repeated `n` times. */
  function Repeat(c: char, n: nat): (r: string)
    ensures |r| == n && forall i :: 0 <= i < n ==> r[i] == c
  {
    if n == 0 then [] else [c] + Repeat(c, n - 1)
  }

  const MIB: nat := 1024 * 1024
  /** Files above this size are only previewed. */
  const LARGE_FILE_BYTES: nat := 10 * MIB
  /** Number of characters of a large file that are previewed. */
  const PREVIEW_CHARS: nat := 1024 * 100
  /** Characters per read in the chunked read loop. */
  const READ_CHUNK_CHARS: nat := 1024 * 1024

  const DIRECTORY_CONTENT_ERROR: string := "Cannot read content of a directory node"
  const SORT_ERROR: string := "Cannot sort children of a non-directory node"

  datatype NodeType = Directory | File | Symlink

  /** `FileSystemNodeType.name`. */
  function TypeName(kind: NodeType): string
  {
    match kind
    case Directory => "DIRECTORY"
    case File => "FILE"
    case Symlink => "SYMLINK"
  }

  /** One preferred encoding: whether it decodes the first chunk, and what reading the whole file with it yields. */
  datatype Encoding = Encoding(name: string, decodesChunk: bool, read: Result<string, string>)

  /** What the operating system reports about the file behind a node. */
  datatype FileData = FileData(
    chunk: Option<seq<bv8>>,     // `_read_chunk`: the leading bytes, or None when reading fails
    utf8: bool,                  // whether that chunk decodes as UTF-8
    encodings: seq<Encoding>,    // `_get_preferred_encodings()`, in order
    statSize: nat,               // `path.stat().st_size` at read time
    notebook: Result<string, string>, // `process_notebook(path)`, or the text of the exception it raised
    linkTarget: string)          // `readlink(path).name`

  /** The data of a node that is not backed by a readable file (directories; symlinks add their target). */
  const NO_DATA: FileData := FileData(None, false, [], 0, Err(""), "")

  /** `FileSystemStats`: the counters shared by a whole traversal. */
  datatype Counters = Counters(totalFiles: nat, totalSize: nat)

  class Stats {
    var totalFiles: nat
    var totalSize: nat

    constructor ()
      ensures totalFiles == 0 && totalSize == 0
    {
      totalFiles := 0;
      totalSize := 0;
    }

    function Value(): Counters
      reads this
    {
      Counters(totalFiles, totalSize)
    }
  }

  /** The value of a node: its fields, its children's values, and its content cache. */
  datatype Tree = Tree(
    name: string,
    kind: NodeType,
    relPath: seq<string>,   // path components relative to the repository root (`path_str`)
    data: FileData,
    size: nat,
    fileCount: nat,
    dirCount: nat,
    depth: nat,
    children: seq<Tree>,
    cache: Option<string>)

  // ---------------------------------------------------------------------------------------
  // Child ordering

  /**
   * `_sort_key`'s group: 0 README file, 1 other file, 2 hidden file, 3 anything else that does
   * not start with '.', 4 anything else hidden. Every node that is not a FILE, symlinks
   * included, lands in the directory groups.
   */
  function Group(kind: NodeType, lowerName: string): (g: nat)
    ensures g <= 4
    ensures g <= 2 <==> kind == File
    ensures g == 0 <==> kind == File && (lowerName == "readme" || StartsWith(lowerName, "readme."))
    ensures g == 2 || g == 4 <==> !(g == 0) && StartsWith(lowerName, ".")
  {
    if kind == File then
      if lowerName == "readme" || StartsWith(lowerName, "readme.") then 0
      else if !StartsWith(lowerName, ".") then 1 else 2
    else if !StartsWith(lowerName, ".") then 3 else 4
  }

  function SortKey(kind: NodeType, name: string): Key
  {
    Key(Group(kind, Lower(name)), Lower(name))
  }

  function TreeKeys(ts: seq<Tree>): (keys: seq<Key>)
    ensures |keys| == |ts|
  {
    seq(|ts|, i requires 0 <= i < |ts| => SortKey(ts[i].kind, ts[i].name))
  }

  /** The children of `t` reordered as `sort_children` orders them. */
  function SortedTree(t: Tree): Tree
  {
    t.(children := Permute(t.children, StableOrder(TreeKeys(t.children))))
  }

  /** The children of `t` are in `_sort_key` order. */
  predicate SortedChildren(t: Tree)
  {
    forall i, j :: 0 <= i < j < |t.children| ==>
      KeyLe(SortKey(t.children[i].kind, t.children[i].name), SortKey(t.children[j].kind, t.children[j].name))
  }

  /** `sort_children` reorders the children and nothing else: a permutation in key order, stable on ties. */
  lemma SortedTreeIsStableSort(t: Tree)
    ensures SortedTree(t).(children := t.children) == t
    ensures multiset(SortedTree(t).children) == multiset(t.children)
    ensures SortedChildren(SortedTree(t))
    ensures var p := StableOrder(TreeKeys(t.children));
      && Distinct(p)
      && (forall i, j :: 0 <= i < j < |p| ==> KeyLe(TreeKeys(t.children)[p[i]], TreeKeys(t.children)[p[j]]))
      && (forall i, j :: 0 <= i < j < |p| && TreeKeys(t.children)[p[i]] == TreeKeys(t.children)[p[j]] ==> p[i] < p[j])
  {
    StableOrderCorrect(TreeKeys(t.children));
    StableOrderPermutes(t.children, TreeKeys(t.children));
  }

  // ---------------------------------------------------------------------------------------
  // Content resolution

  /** `path.suffix == ".ipynb"`: the last '.' of the name starts ".ipynb" and is not its first character. */
  predicate IsNotebookName(name: string)
  {
    |name| > 6 && name[|name| - 6..] == ".ipynb"
  }

  /** `next(enc for enc in encodings if decodes(chunk, enc), None)`. */
  function FirstDecoding(encodings: seq<Encoding>): (r: Option<Encoding>)
    ensures r.None? <==> forall k :: 0 <= k < |encodings| ==> !encodings[k].decodesChunk
    ensures r.Some? ==> exists k :: 0 <= k < |encodings| && encodings[k] == r.value && r.value.decodesChunk
                                    && forall j :: 0 <= j < k ==> !encodings[j].decodesChunk
  {
    if |encodings| == 0 then None
    else if encodings[0].decodesChunk then Some(encodings[0])
    else
      var r := FirstDecoding(encodings[1..]);
      assert forall k :: 1 <= k < |encodings| ==> encodings[k] == encodings[1..][k - 1];
      r
  }

  /** `size / 2**20 * 10` rounded to the nearest integer, ties to even (exact, since the division is by a power of two). */
  function TenthsOfMiB(size: nat): nat
  {
    var q := size * 10 / MIB;
    var rem := size * 10 % MIB;
    if 2 * rem > MIB || (2 * rem == MIB && q % 2 == 1) then q + 1 else q
  }

  /** `TenthsOfMiB` is a nearest rounding of `size * 10 / 2**20`. */
  lemma TenthsOfMiBIsNearest(size: nat)
    ensures 2 * (size * 10 - TenthsOfMiB(size) * MIB) <= MIB
    ensures 2 * (TenthsOfMiB(size) * MIB - size * 10) <= MIB
  {
    var q := size * 10 / MIB;
    var rem := size * 10 % MIB;
    assert size * 10 == q * MIB + rem;
    if 2 * rem > MIB || (2 * rem == MIB && q % 2 == 1) {
      assert TenthsOfMiB(size) * MIB == q * MIB + MIB;
    } else {
      assert TenthsOfMiB(size) * MIB == q * MIB;
    }
  }

  /** `f"{size / (1024 * 1024):.1f}"`. */
  function OneDecimalMiB(size: nat): string
  {
    var tenths := TenthsOfMiB(size);
    DecimalString(tenths / 10) + "." + [DigitChar(tenths % 10)]
  }

  function TruncationMarker(size: nat): string
  {
    "\n\n[... File truncated (total size: " + OneDecimalMiB(size) + " MB) ...]"
  }

  /** What reading the file with the chosen encoding yields: the text, a preview of a large file, or an error message. */
  function ReadWith(enc: Encoding, statSize: nat): string
  {
    match enc.read
    case Err(e) => "Error reading file with '" + enc.name + "': " + e
    case Ok(text) =>
      if statSize > LARGE_FILE_BYTES then
        text[..if |text| < PREVIEW_CHARS then |text| else PREVIEW_CHARS] + TruncationMarker(statSize)
      else text
  }

  /**
   * The decision ladder of `FileSystemNode.content` for an uncached node: directory error,
   * symlink empty, notebook, unreadable chunk, empty chunk, non-UTF-8 chunk, no preferred
   * encoding, and finally the text read with the first preferred encoding.
   */
  function ResolveContent(kind: NodeType, name: string, data: FileData): Result<string, string>
  {
    if kind == Directory then Err(DIRECTORY_CONTENT_ERROR)
    else if kind == Symlink then Ok("")
    else if IsNotebookName(name) then
      Ok(match data.notebook
         case Ok(text) => text
         case Err(e) => "Error processing notebook: " + e)
    else match data.chunk
      case None => Ok("Error reading file")
      case Some(bytes) =>
        if |bytes| == 0 then Ok("[Empty file]")
        else if !data.utf8 then Ok("[Binary file]")
        else match FirstDecoding(data.encodings)
          case None => Ok("Error: Unable to decode file with available encodings")
          case Some(enc) => Ok(ReadWith(enc, data.statSize))
  }

  /** The classification order of the ladder, for a regular file that is not a notebook. */
  lemma ContentClassification(name: string, data: FileData)
    requires !IsNotebookName(name)
    ensures data.chunk.None? ==> ResolveContent(File, name, data) == Ok("Error reading file")
    ensures data.chunk == Some([]) ==> ResolveContent(File, name, data) == Ok("[Empty file]")
    ensures data.chunk.Some? && data.chunk != Some([]) && !data.utf8 ==>
              ResolveContent(File, name, data) == Ok("[Binary file]")
    ensures data.chunk.Some? && data.chunk != Some([]) && data.utf8
              && (forall k :: 0 <= k < |data.encodings| ==> !data.encodings[k].decodesChunk) ==>
              ResolveContent(File, name, data) == Ok("Error: Unable to decode file with available encodings")
  {
  }

  /** Only a directory raises; a symlink reads as the empty string. */
  lemma ContentErrorsOnlyForDirectories(kind: NodeType, name: string, data: FileData)
    ensures ResolveContent(kind, name, data).Err? <==> kind == Directory
    ensures kind == Symlink ==> ResolveContent(kind, name, data) == Ok("")
  {
  }

  /** The value the `content` property returns: the cache when set, the ladder otherwise. */
  function ContentOf(t: Tree): Result<string, string>
  {
    if t.cache.Some? then Ok(t.cache.value) else ResolveContent(t.kind, t.name, t.data)
  }

  /** The node after reading `content`: every non-raising read leaves its result cached. */
  function AfterRead(t: Tree): Tree
  {
    if t.cache.None? && ContentOf(t).Ok? then t.(cache := Some(ContentOf(t).value)) else t
  }

  /** A second read returns what the first returned, and changes nothing more. */
  lemma ReadIsIdempotent(t: Tree)
    ensures ContentOf(AfterRead(t)) == ContentOf(t)
    ensures AfterRead(AfterRead(t)) == AfterRead(t)
    ensures ContentOf(t).Ok? ==> AfterRead(t).cache == Some(ContentOf(t).value)
  {
  }

  /** `clear_content_cache` on a value: the cache of the node and of every descendant becomes None. */
  function ClearAll(t: Tree): Tree
  {
    t.(cache := None,
       children := seq(|t.children|, i requires 0 <= i < |t.children| => ClearAll(t.children[i])))
  }

  /** The values `ms` with the caches of the first `i` subtrees cleared. */
  function ClearedBelow(ms: seq<Tree>, i: nat): (r: seq<Tree>)
    ensures |r| == |ms|
  {
    seq(|ms|, j requires 0 <= j < |ms| => if j < i then ClearAll(ms[j]) else ms[j])
  }

  predicate NoCache(t: Tree)
  {
    t.cache.None? && forall i :: 0 <= i < |t.children| ==> NoCache(t.children[i])
  }

  /** The tree with every cache erased: what clearing may not change. */
  function Shape(t: Tree): Tree
  {
    t.(cache := None,
       children := seq(|t.children|, i requires 0 <= i < |t.children| => Shape(t.children[i])))
  }

  /** Clearing empties every cache and changes no structural field. */
  lemma {:induction false} ClearAllClearsOnlyCaches(t: Tree)
    ensures NoCache(ClearAll(t))
    ensures Shape(ClearAll(t)) == Shape(t)
  {
    forall i | 0 <= i < |t.children| {
      ClearAllClearsOnlyCaches(t.children[i]);
    }
  }

  /** The header line of `content_string`: the type, the relative path, and a symlink's target. */
  function Header(kind: NodeType, relPath: seq<string>, linkTarget: string): string
  {
    TypeName(kind) + ": " + PathString(relPath) + (if kind == Symlink then " -> " + linkTarget else "")
  }

  /** `str(path.relative_to(local_path))` with '/' separators; the root itself prints as ".". */
  function PathString(relPath: seq<string>): string
  {
    if |relPath| == 0 then "." else Join(relPath, "/")
  }

  /** The layout of `content_string`: separator, header, separator and content joined by newlines, then a blank line. */
  function BlockLayout(header: string, content: string): (r: string)
    ensures r == SEPARATOR + "\n" + header + "\n" + SEPARATOR + "\n" + content + "\n\n"
  {
    var parts := [SEPARATOR, header, SEPARATOR, content];
    var first2 := [SEPARATOR, header];
    var first3 := [SEPARATOR, header, SEPARATOR];
    assert first2[..1] == [SEPARATOR];
    assert Join(first2, "\n") == SEPARATOR + "\n" + header;
    assert first3[..2] == first2;
    assert Join(first3, "\n") == SEPARATOR + "\n" + header + "\n" + SEPARATOR;
    assert parts[..3] == first3;
    Join(parts, "\n") + "\n\n"
  }

  /** The value of `content_string` for a node that is not a directory. */
  function ContentStringOf(t: Tree): string
    requires t.kind != Directory
  {
    BlockLayout(Header(t.kind, t.relPath, t.data.linkTarget), ContentOf(t).value)
  }

  // ---------------------------------------------------------------------------------------
  // The node object

  lemma ClearedStep(ms: seq<Tree>, i: nat)
    requires i < |ms|
    ensures ClearedBelow(ms, i)[i := ClearAll(ClearedBelow(ms, i)[i])] == ClearedBelow(ms, i + 1)
  {
  }

  /** Reordering nodes with pairwise disjoint footprints keeps them pairwise disjoint. */
  lemma PermuteDisjoint(nodes: seq<Node>, order: seq<nat>)
    requires InRange(order, |nodes|) && Distinct(order)
    requires forall i, j :: 0 <= i < |nodes| && 0 <= j < |nodes| && i != j ==> nodes[i].Repr !! nodes[j].Repr
    ensures var r := Permute(nodes, order);
      forall i, j :: 0 <= i < |r| && 0 <= j < |r| && i != j ==> r[i].Repr !! r[j].Repr
  {
  }

  /** `FileSystemNode`. */
  class Node {
    const name: string
    const kind: NodeType
    const relPath: seq<string>
    const data: FileData
    const depth: nat
    var size: nat
    var fileCount: nat
    var dirCount: nat
    var children: seq<Node>
    var cache: Option<string>

    ghost var childModels: seq<Tree>
    ghost var Repr: set<object>

    ghost function Model(): Tree
      reads this
    {
      Tree(name, kind, relPath, data, size, fileCount, dirCount, depth, childModels, cache)
    }

    /** The children own disjoint parts of the heap, and `childModels` are their values. */
    ghost predicate Valid()
      reads this, Repr
      ensures Valid() ==> this in Repr
      decreases Repr
    {
      && this in Repr
      && |childModels| == |children|
      && (forall i :: 0 <= i < |children| ==>
            && children[i] in Repr
            && children[i].Repr <= Repr
            && this !in children[i].Repr
            && children[i].Valid()
            && children[i].Model() == childModels[i])
      && (forall i, j :: 0 <= i < |children| && 0 <= j < |children| && i != j ==>
            children[i].Repr !! children[j].Repr)
    }

    /** A new node: no children, no dir count, no cache; the other fields as given (the dataclass defaults are 0). */
    constructor (name: string, kind: NodeType, relPath: seq<string>, data: FileData,
                 size: nat, fileCount: nat, depth: nat)
      ensures Valid() && Repr == {this} && children == []
      ensures Model() == Tree(name, kind, relPath, data, size, fileCount, 0, depth, [], None)
    {
      this.name := name;
      this.kind := kind;
      this.relPath := relPath;
      this.data := data;
      this.depth := depth;
      this.size := size;
      this.fileCount := fileCount;
      this.dirCount := 0;
      this.children := [];
      this.cache := None;
      this.childModels := [];
      this.Repr := {this};
    }

    /** `children.append(child)`: the child and everything it owns join this node. */
    method AppendChild(child: Node)
      requires Valid() && child.Valid() && Repr !! child.Repr
      modifies this
      ensures Valid() && Repr == old(Repr) + child.Repr
      ensures children == old(children) + [child]
      ensures Model() == old(Model()).(children := old(childModels) + [child.Model()])
    {
      children := children + [child];
      childModels := childModels + [child.Model()];
      Repr := Repr + child.Repr;
    }

    /** `size += sizeDelta`, `file_count += fileDelta`, `dir_count += dirDelta`. */
    method AddToAggregates(sizeDelta: nat, fileDelta: nat, dirDelta: nat)
      requires Valid()
      modifies this
      ensures Valid() && Repr == old(Repr) && children == old(children)
      ensures Model() == old(Model()).(size := old(size) + sizeDelta,
                                       fileCount := old(fileCount) + fileDelta,
                                       dirCount := old(dirCount) + dirDelta)
    {
      size := size + sizeDelta;
      fileCount := fileCount + fileDelta;
      dirCount := dirCount + dirDelta;
    }

    /** `children[j].clear_content_cache()`: only that child's subtree loses its caches. */
    method ClearChildContentCache(j: nat)
      requires Valid() && j < |children|
      modifies Repr
      ensures Valid() && Repr == old(Repr) && children == old(children)
      ensures Model() == old(Model()).(children := old(childModels)[j := ClearAll(old(childModels)[j])])
      decreases Repr, 0
    {
      children[j].ClearContentCache();
      childModels := childModels[j := children[j].Model()];
    }

    /** `sort_children`: a ValueError for a non-directory, otherwise a stable sort by `_sort_key`. */
    method SortChildren() returns (outcome: Result<(), string>)
      requires Valid()
      modifies this
      ensures Valid() && Repr == old(Repr)
      ensures kind != Directory ==>
                outcome == Err(SORT_ERROR) && children == old(children) && Model() == old(Model())
      ensures kind == Directory ==>
                && outcome.Ok?
                && children == Permute(old(children), StableOrder(TreeKeys(old(childModels))))
                && Model() == SortedTree(old(Model()))
    {
      if kind != Directory {
        return Err(SORT_ERROR);
      }
      var cs := children;
      var keys := seq(|cs|, i requires 0 <= i < |cs| => SortKey(cs[i].kind, cs[i].name));
      assert keys == TreeKeys(childModels);
      var order := StableOrder(keys);
      StableOrderCorrect(keys);
      PermuteDisjoint(children, order);
      children := Permute(children, order);
      childModels := Permute(childModels, order);
      outcome := Ok(());
    }

    /** `clear_content_cache`: this node's cache and every descendant's become None. */
    method ClearContentCache()
      requires Valid()
      modifies Repr
      ensures Valid() && Repr == old(Repr) && children == old(children)
      ensures Model() == ClearAll(old(Model()))
      decreases Repr, 1
    {
      ghost var models := childModels;
      cache := None;
      var i := 0;
      while i < |children|
        invariant 0 <= i <= |children| == |models|
        invariant Valid() && Repr == old(Repr) && children == old(children)
        invariant Model() == old(Model()).(cache := None, children := ClearedBelow(models, i))
      {
        ClearedStep(models, i);
        ClearChildContentCache(i);
        i := i + 1;
      }
      assert ClearedBelow(models, |models|) == ClearAll(old(Model())).children;
    }

    /** The `content_string` property: reading the content (and caching it) to fill the block. */
    method ContentString() returns (block: string)
      requires Valid() && kind != Directory
      modifies this
      ensures Valid() && Repr == old(Repr) && children == old(children)
      ensures block == ContentStringOf(old(Model()))
      ensures Model() == AfterRead(old(Model()))
    {
      var content := Content();
      block := BlockLayout(Header(kind, relPath, data.linkTarget), content.value);
    }

    /** The `content` property: the cache when set; otherwise the ladder, whose result is cached unless it raises. */
    method Content() returns (r: Result<string, string>)
      requires Valid()
      modifies this
      ensures Valid() && Repr == old(Repr) && children == old(children)
      ensures r == ContentOf(old(Model()))
      ensures Model() == AfterRead(old(Model()))
    {
      if cache.Some? {
        return Ok(cache.value);
      }
      if kind == Directory {
        return Err(DIRECTORY_CONTENT_ERROR);
      }
      var text := ReadContent(kind, name, data);
      cache := Some(text);
      r := Ok(text);
    }
  }

  /** The ladder of `content` for a node that is not a directory: the text the read leaves in the cache. */
  method ReadContent(kind: NodeType, name: string, data: FileData) returns (text: string)
    requires kind != Directory
    ensures ResolveContent(kind, name, data) == Ok(text)
  {
    if kind == Symlink {
      text := "";
    } else if IsNotebookName(name) {
      match data.notebook
      case Ok(notebookText) => text := notebookText;
      case Err(e) => text := "Error processing notebook: " + e;
    } else if data.chunk.None? {
      text := "Error reading file";
    } else if |data.chunk.value| == 0 {
      text := "[Empty file]";
    } else if !data.utf8 {
      text := "[Binary file]";
    } else {
      var goodEnc := FirstDecoding(data.encodings);
      if goodEnc.None? {
        text := "Error: Unable to decode file with available encodings";
      } else {
        var enc := goodEnc.value;
        match enc.read
        case Err(e) =>
          text := "Error reading file with '" + enc.name + "': " + e;
        case Ok(fileText) =>
          if data.statSize > LARGE_FILE_BYTES {
            var previewLength := if |fileText| < PREVIEW_CHARS then |fileText| else PREVIEW_CHARS;
            text := fileText[..previewLength] + TruncationMarker(data.statSize);
          } else {
            text := ReadInChunks(fileText);
          }
      }
    }
  }

  /** The `while True` loop of `content`: reads the text in chunks and joins them; the join is the text. */
  method ReadInChunks(text: string) returns (joined: string)
    ensures joined == text
  {
    var chunks: seq<string> := [];
    var pos := 0;
    while true
      invariant 0 <= pos <= |text|
      invariant Concat(chunks) == text[..pos]
      decreases |text| - pos
    {
      var end := if pos + READ_CHUNK_CHARS <= |text| then pos + READ_CHUNK_CHARS else |text|;
      var piece := text[pos..end];
      if piece == "" {
        break;
      }
      chunks := chunks + [piece];
      pos := end;
    }
    joined := Concat(chunks);
  }

  /** Reading twice returns the identical string, whether or not the first read filled the cache. */
  method ReadTwice(node: Node) returns (first: Result<string, string>, second: Result<string, string>)
    requires node.Valid()
    modifies node
    ensures node.Valid()
    ensures first == second == ContentOf(old(node.Model()))
  {
    first := node.Content();
    second := node.Content();
  }
}
