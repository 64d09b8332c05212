# gitingest ingestion core in Dafny

gitingest turns a repository or a local directory into one text digest. The digest has three
parts: a summary, a drawing of the directory tree, and the content of every file. This project
models the core that produces it.

- **File-system nodes** (`filesystem.dfy`, module `FileSystem`). A `Node` class mirrors
  `FileSystemNode`:
  - the fields that the traversal updates in place;
  - a children list that the traversal appends to and sorts;
  - the lazily filled content cache, with its decision ladder (directory error, symlink,
    notebook, unreadable, empty, binary, undecodable, large-file preview, chunked read);
  - the recursive cache clearing.

  `Node.Model()` is the node's value as a `Tree` datatype. Every method is proved against a
  function on that value.
- **Traversal** (`ingestion.dfy`, module `Ingestion`). This covers `ingest_query`,
  `_process_node`, `_process_symlink`, `_process_file` and `limit_exceeded`.
  - The directory on disk is a finite `Entry` value.
  - The traversal limits live in `Config`.
  - The methods update `Node` objects and a `Stats` counter object. They are proved equal to
    the value-level walk `WalkDir`.
  - Lemmas prove what the walk guarantees:
    - every node's aggregates count its descendants;
    - children sit one level deeper than their parent;
    - no empty sub-directory is attached;
    - children come out sorted;
    - the counters track the aggregates;
    - the total-size budget holds.
- **Output** (`output_formatter.dfy`, module `OutputFormatter`). This covers `format_node`, the
  summary header, the tree drawing, the file-content generator and the three size tiers of
  `_gather_content_string`. Lemmas prove:
  - one tree line per visited node, in pre-order;
  - one content block per file, in the same order;
  - the three tiers agree up to one trailing newline;
  - the header lines appear exactly under their conditions.
- **Patterns** (`pattern_utils.dfy`, module `PatternUtils`). This covers `process_patterns`,
  `_parse_patterns` and `_is_valid_pattern`. The model proves:
  - when a parse succeeds or fails;
  - that the result is exactly the normalised pieces of the input;
  - that include patterns are taken out of the ignore set.
- **Query parsing** (`query_parser.dfy`, module `QueryParser`). This covers the part of
  `parse_remote_repo` that works on the URL path once host, user and repository are known:
  - the tree/blob type;
  - commit, tag and branch resolution through `_configure_branch_or_tag`;
  - the sub-path.

  It also covers the slug rule of `parse_local_dir_path`.

Shared pieces:
- `Strings`: models of the Python string operations used (`"sep".join`, `re.split`,
  `str.strip`, `str(int)`).
- `Sorting`: Python's stable `list.sort` on `(int, str)` keys.
- `Query`: the `IngestionQuery` record.
- `Wrappers`: `Option` and `Result`.

The code's own values are followed where the docstrings differ:
- `_is_valid_pattern` also accepts '@', which the `_parse_patterns` docstring leaves out.
- The `sort_children` docstring lists four groups; the code's key has five, with README files
  first.

## Model

| member | source | states |
|---|---|---|
| FileSystem.Group | src/gitingest/schemas/filesystem.py:82-90 | The sort group is one of 0..4. It is a file group (0..2) exactly for FILE nodes, so symlinks sort with directories. It is 0 exactly for a file named "readme" or "readme.*". It is a hidden group (2 or 4) exactly for a non-README name starting with '.'. |
| FileSystem.Repeat | src/gitingest/schemas/filesystem.py:24 | `"=" * n`: exactly n copies of the character. Used for the 48-character separator of every content block. |
| FileSystem.SortedTree | src/gitingest/schemas/filesystem.py:61-92 | Definition of `sort_children` on values: the children reordered by the stable order of their `_sort_key`s. Properties in `SortedTreeIsStableSort`. |
| Sorting.KeyLeTotalOrder | src/gitingest/schemas/filesystem.py:82-92 | Comparing `(group, lower-case name)` keys as Python compares tuples of an int and a str is a total order: reflexive, total, transitive and antisymmetric. |
| Sorting.StableOrderCorrect | src/gitingest/schemas/filesystem.py:92 | The sort order takes every position exactly once, in non-decreasing key order, and keeps positions with equal keys in their original order (Python's sort is stable). |
| Sorting.StableOrderPermutes | src/gitingest/schemas/filesystem.py:92 | Reordering a list by the sort order keeps exactly its elements (a permutation). |
| FileSystem.SortedTreeIsStableSort | src/gitingest/schemas/filesystem.py:82-92 | Sorting changes only the order of the children. The new order is a permutation in key order and is stable on ties. |
| FileSystem.Node.SortChildren | src/gitingest/schemas/filesystem.py:61-92 | A non-directory gets the ValueError "Cannot sort children of a non-directory node" and nothing changes. A directory has its children (objects and values alike) put into the stable sorted order. |
| FileSystem.FirstDecoding | src/gitingest/schemas/filesystem.py:181-184 | The encoding chosen is None exactly when no preferred encoding decodes the chunk. Otherwise it is a listed encoding that decodes it. |
| FileSystem.ResolveContent | src/gitingest/schemas/filesystem.py:151-220 | Definition of the `content` ladder on values: directory error, symlink, notebook, unreadable, empty, binary, undecodable, large-file preview, full text. Properties in `ContentClassification` and `ContentErrorsOnlyForDirectories`. |
| FileSystem.TenthsOfMiBIsNearest | src/gitingest/schemas/filesystem.py:204 | The `:.1f` MiB figure of the truncation marker is within half a tenth of the exact `size / 2**20`. |
| FileSystem.ContentClassification | src/gitingest/schemas/filesystem.py:166-188 | For a regular, non-notebook file, the ladder gives, in order: "Error reading file" for an unreadable chunk; "[Empty file]" for an empty one; "[Binary file]" for a non-UTF-8 one; "Error: Unable to decode file with available encodings" when no preferred encoding decodes the chunk. |
| FileSystem.ContentErrorsOnlyForDirectories | src/gitingest/schemas/filesystem.py:151-157 | Reading content raises exactly for a directory. A symlink reads as "". |
| FileSystem.ReadIsIdempotent | src/gitingest/schemas/filesystem.py:148-149 | After a read, a second read returns the same value and changes nothing more. A successful read leaves its value cached. |
| FileSystem.Node.Content | src/gitingest/schemas/filesystem.py:127-220 | The `content` property returns the cached value if set, otherwise the ladder's result. The node afterwards holds that result in its cache unless the read raised. |
| FileSystem.ReadContent | src/gitingest/schemas/filesystem.py:154-220 | The step-by-step ladder never raises for a node that is not a directory. The text it leaves is exactly the value-level ladder's result, whose cases `ContentClassification` and `ContentErrorsOnlyForDirectories` spell out. |
| FileSystem.ReadInChunks | src/gitingest/schemas/filesystem.py:208-216 | Reading a text in 1 MiB pieces until an empty read, then joining them, yields the text itself. |
| FileSystem.ReadTwice | src/gitingest/schemas/filesystem.py:148-149 | Two successive reads of a node return the same value, whether or not the first filled the cache. |
| FileSystem.ClearAllClearsOnlyCaches | src/gitingest/schemas/filesystem.py:94-104 | Clearing empties the cache of the node and of every descendant, and changes no other field anywhere in the tree. |
| FileSystem.ClearAll | src/gitingest/schemas/filesystem.py:94-104 | Definition of `clear_content_cache` on values: the node's cache and, recursively, every child's become None. Properties in `ClearAllClearsOnlyCaches`. |
| FileSystem.Node.ClearContentCache | src/gitingest/schemas/filesystem.py:94-104 | The node's new value is the old one with every cache in the subtree cleared. The children list and the footprint are unchanged. |
| FileSystem.BlockLayout | src/gitingest/schemas/filesystem.py:116-124 | A content block is the separator line, the header line, the separator line, the content, and then a blank line. |
| FileSystem.Node.ContentString | src/gitingest/schemas/filesystem.py:106-124 | The block holds the type name, the '/'-separated relative path, a symlink's target and the node's content. The content read is left cached. |
| FileSystem.Stats.constructor | src/gitingest/schemas/filesystem.py:35-40 | A fresh counter object starts at zero files and zero bytes. |
| FileSystem.Node.constructor | src/gitingest/schemas/filesystem.py:43-59 | A new node has the given fields, no children, a zero directory count and no cached content. |
| FileSystem.Node.AppendChild | src/gitingest/ingestion.py:235 | Appending a child extends the children list and the children's values by exactly that child, and the node takes over the child's footprint. |
| FileSystem.Node.AddToAggregates | src/gitingest/ingestion.py:150-152 | Size, file count and directory count grow by the given amounts. Nothing else changes. |
| FileSystem.Node.ClearChildContentCache | src/gitingest/ingestion.py:241-243 | Clearing child `j` clears caches in that child's subtree only. |
| Ingestion.FileStepOutcome | src/gitingest/ingestion.py:188-243 | If the file-count, total-size or one-tenth check fails, nothing changes. Otherwise exactly one FILE leaf is appended, and parent and counters grow by one file and its size. Earlier children change at most in their caches, and the total-size budget is kept. |
| Ingestion.LimitExceeded | src/gitingest/ingestion.py:246-277 | Definition of `limit_exceeded`: depth above 20, at least 10000 files, or at least 500 MiB. Used by `WalkDirFacts`, which proves that nothing changes when it holds. |
| Ingestion.FileStep | src/gitingest/ingestion.py:188-243 | Definition of `_process_file` on values: the three rejections, then one FILE leaf, the counters, and eviction every hundredth file. Properties in `FileStepOutcome` and `FileStepFacts`. |
| Ingestion.EvictOutcome | src/gitingest/ingestion.py:240-243 | Eviction clears caches only in FILE children before the last ten. It changes no structural field, and the node itself is unchanged. |
| Ingestion.Evict | src/gitingest/ingestion.py:240-243 | Definition of the periodic eviction on values: the caches of the FILE children before the last ten are cleared. Properties in `EvictOutcome`, `EvictFormed` and `EvictKeepsAggregates`. |
| Ingestion.EvictFormed | src/gitingest/ingestion.py:240-243 | Eviction keeps a well-formed tree well-formed. |
| Ingestion.EvictKeepsAggregates | src/gitingest/ingestion.py:240-243 | Eviction keeps the parent's own fields and the number of its children. |
| Ingestion.EvictCaches | src/gitingest/ingestion.py:240-243 | Over node objects, the caches in the FILE children before the last ten are cleared and nothing else changes; the footprint stays the same. |
| Ingestion.SymlinkStepOutcome | src/gitingest/ingestion.py:159-185 | A symlink adds one childless SYMLINK leaf with its target. It adds one file to the parent and to the counters, and no bytes. |
| Ingestion.SymlinkStep | src/gitingest/ingestion.py:159-185 | Definition of `_process_symlink` on values: one SYMLINK leaf with its target and one more file. Properties in `SymlinkStepOutcome`. |
| Ingestion.Visit | src/gitingest/ingestion.py:121-154 | Definition of one iteration of `_process_node`'s loop on values. Properties in `VisitSkips` and `VisitFacts`. |
| Ingestion.VisitSkips | src/gitingest/ingestion.py:121-154 | An entry is skipped with nothing changed in four cases: excluded by a non-empty ignore set; not matched by a non-empty include set; a file over the query's size cap; an unknown entry type. A symlink that passes the filters is recorded, not followed. |
| Ingestion.AttachFormed | src/gitingest/ingestion.py:146-152 | Attaching a well-formed, non-empty, sorted sub-directory one level deeper keeps the parent well-formed when the parent absorbs its aggregates. |
| Ingestion.SumPermutation | src/gitingest/ingestion.py:156 | Sums over children do not depend on their order, so sorting keeps the aggregates consistent. |
| Ingestion.SortFormed | src/gitingest/ingestion.py:156 | Sorting a well-formed directory keeps it well-formed and leaves its children sorted. |
| Ingestion.FileStepFacts | src/gitingest/ingestion.py:188-243 | Processing a file keeps the directory well-formed. The counters grow by exactly what the directory's aggregates grew. |
| Ingestion.VisitFacts | src/gitingest/ingestion.py:121-154 | One loop iteration keeps the directory well-formed. The counters grow by exactly what the aggregates grew, within the size budget. |
| Ingestion.WalkFromFacts | src/gitingest/ingestion.py:121-156 | The rest of the loop keeps the directory well-formed, with the counters tracking the aggregates. |
| Ingestion.WalkDir | src/gitingest/ingestion.py:102-156 | Definition of `_process_node` on values: nothing when `limit_exceeded` holds, otherwise the loop over the entries and then the sort. Properties in `WalkDirFacts`, `TraversalTheorem` and `AggregatesCountDescendants`. |
| Ingestion.WalkDirFacts | src/gitingest/ingestion.py:102-156 | `_process_node` yields a well-formed tree: aggregates consistent at every node, children one level deeper, no empty sub-directory, sorted children, counters moved by exactly the growth, total size within budget. When `limit_exceeded` (depth above 20, 10000 files or 500 MiB) holds, nothing changes. |
| Ingestion.TraversalTheorem | src/gitingest/ingestion.py:83-99 | A walk from a fresh root with fresh counters gives a well-formed, sorted tree. The counters end equal to the root's file count and size, within the size budget, and the root's aggregates count its descendants. |
| Ingestion.AggregatesCountDescendants | src/gitingest/ingestion.py:146-152 | In a traversal result, a directory's `file_count` is the number of FILE and SYMLINK nodes below it, its `size` the bytes of the FILE nodes below it, and its `dir_count` the number of directories below it. |
| Ingestion.ProcessSymlink | src/gitingest/ingestion.py:159-185 | The parent's new value and the counters are exactly those of the symlink step. |
| Ingestion.ProcessFile | src/gitingest/ingestion.py:188-243 | The parent's new value and the counters are exactly those of the file step, including the periodic eviction. |
| Ingestion.ProcessEntry | src/gitingest/ingestion.py:121-154 | One iteration over node objects gives exactly the value-level iteration. |
| Ingestion.ProcessSubdirectory | src/gitingest/ingestion.py:135-152 | A sub-directory is walked on a fresh node one level deeper. It is attached, with the parent's aggregates grown, only when non-empty. |
| Ingestion.AttachNonEmpty | src/gitingest/ingestion.py:146-152 | An empty sub-directory leaves the parent unchanged. A non-empty one is appended, and the parent absorbs its size, its file count and its directories plus one. |
| Ingestion.ProcessNode | src/gitingest/ingestion.py:102-156 | `_process_node` on node objects gives exactly `WalkDir` of the old value and counters, so `WalkDirFacts` applies to it. |
| Ingestion.Kept | src/gitingest/ingestion.py:48 | The components `pathlib` keeps are non-empty, not ".", and taken from the input. |
| Ingestion.SubpathComponents | src/gitingest/ingestion.py:48 | The sub-path's components hold no '/', and none is empty or ".". |
| Ingestion.FindEntry | src/gitingest/ingestion.py:49-51 | A found entry is in the listing under the name sought. Finding nothing means no entry has that name. |
| Ingestion.IngestOutcomes | src/gitingest/ingestion.py:25-99 | The errors are: "<slug> cannot be found" for a missing path; "Path … is not a file" for a blob that is not a file; a failure exactly when the file has no content. A file summary names the file. A directory summary reports the number of files and symlinks below the walked, well-formed, sorted root. The tree section starts with the root line. |
| Ingestion.Ingest | src/gitingest/ingestion.py:25-99 | Definition of `ingest_query` on values: the lookup, then the blob branch or the directory branch, then `format_node`. Properties in `IngestOutcomes`, `FileOutcomeFacts` and `DirectoryOutcomeFacts`. |
| Ingestion.FileOutcomeFacts | src/gitingest/ingestion.py:55-81 | A blob fails exactly when its content reads as empty. Otherwise the summary opens with the single-file header and "File: <name>", and the tree section opens with its title and the last-entry connector. |
| Ingestion.DirectoryOutcomeFacts | src/gitingest/ingestion.py:83-99 | A directory always succeeds. The walked tree is well-formed with sorted children, the summary reports "Files analyzed: " with the number of FILE and SYMLINK nodes below the root, and the tree section opens with its title. |
| Ingestion.IngestQuery | src/gitingest/ingestion.py:25-99 | `ingest_query` on node objects returns exactly the value-level outcome that `IngestOutcomes` describes. |
| Ingestion.IngestFile | src/gitingest/ingestion.py:55-81 | The blob branch builds one FILE node, refuses empty content and formats the node. |
| Ingestion.IngestDirectory | src/gitingest/ingestion.py:83-99 | The directory branch walks from a fresh root with fresh counters and formats the result. |
| OutputFormatter.TokenCountSuffix | src/gitingest/output_formatter.py:322-343 | No estimate exactly for 0. Otherwise the text is non-empty, ends in "M" exactly from a million up, and ends in "k" exactly from a thousand to below a million. Below a thousand it reads back as the count. |
| OutputFormatter.FormatTokenCount | src/gitingest/output_formatter.py:322-343 | Definition of `_format_token_count`: None for 0, millions with "M", thousands with "k", else the count. Properties in `TokenCountSuffix`. |
| OutputFormatter.SummaryPrefixLines | src/gitingest/output_formatter.py:100-134 | The header opens with "Repository: user/repo" when a user name is set, else with "Directory: slug". It has a Commit line exactly when a commit is set. It has a Branch line exactly when no commit is set and the branch is neither main nor master. It has a Subpath line exactly for a non-root sub-path of a directory. It ends in a newline. |
| OutputFormatter.SummaryPrefix | src/gitingest/output_formatter.py:100-134 | Definition of `_create_summary_prefix`: the header lines joined by newlines, plus a final newline. Properties in `SummaryPrefixLines`. |
| OutputFormatter.LineCountOfLines | src/gitingest/output_formatter.py:54 | Newline-terminated lines without line-boundary characters give exactly their own number of lines under `str.splitlines`. |
| OutputFormatter.ThousandsReadsBack | src/gitingest/output_formatter.py:54 | The `{n:,}` rendering of a line count, with its commas removed, is `str(n)` and reads back as `n`. |
| OutputFormatter.CreateTreeIsLines | src/gitingest/output_formatter.py:291-296 | The drawing is its lines, each followed by a newline. |
| OutputFormatter.CreateTree | src/gitingest/output_formatter.py:248-297 | Definition of `_create_tree_structure` on values: the node's line, then its children drawn with the extended prefix. Properties in `CreateTreeIsLines`, `TreeLinesArePreorder`, `TreeLinesArePlain` and `OneLinePerNode`. |
| OutputFormatter.TreeLinesArePreorder | src/gitingest/output_formatter.py:248-297 | There is one line per node visited in depth-first pre-order. Line k starts with the prefix and ends with the display name of the k-th node: the slug for an unnamed node, "/" after a directory, " -> target" after a symlink. |
| OutputFormatter.TreeLinesArePlain | src/gitingest/output_formatter.py:282-294 | With a prefix and names free of line breaks, every line of the drawing is free of line breaks. |
| OutputFormatter.OneLinePerNode | src/gitingest/output_formatter.py:248-297 | `str.splitlines` counts exactly one line per visited node in the drawing. |
| OutputFormatter.CreateTreeStructure | src/gitingest/output_formatter.py:248-297 | The recursive drawing over node objects returns exactly the value-level drawing. |
| OutputFormatter.ChildTreeStructures | src/gitingest/output_formatter.py:293-296 | The loop over the children concatenates the children's drawings, the last one drawn as last. |
| OutputFormatter.FileBlocksArePreorder | src/gitingest/output_formatter.py:137-165 | The generator yields exactly the blocks of the non-directory nodes, in the pre-order the tree is drawn in. |
| OutputFormatter.FileBlocks | src/gitingest/output_formatter.py:137-165 | Definition of what `_gather_file_contents` yields, on values: a non-directory's block, or its children's blocks in order. Properties in `FileBlocksArePreorder`. |
| OutputFormatter.GatherAgainSameBlocks | src/gitingest/output_formatter.py:158-161 | With coherent caches, clearing each cache after its block leaves the same blocks to gather again, and only caches change. |
| OutputFormatter.GatherFileContents | src/gitingest/output_formatter.py:137-165 | Over node objects, the generator yields the pre-order blocks and leaves every non-directory node's cache cleared. |
| OutputFormatter.GatherChildContents | src/gitingest/output_formatter.py:162-165 | The loop over a directory's children yields the directory's blocks and clears every file cache below it. |
| OutputFormatter.GatherChild | src/gitingest/output_formatter.py:164-165 | One pass yields child i's blocks and clears caches only in child i's subtree. |
| OutputFormatter.JoinCoalescing | src/gitingest/output_formatter.py:192-214 | Batching blocks and joining each batch once it reaches 5 MiB of characters gives the plain newline join. |
| OutputFormatter.BufferedConcat | src/gitingest/output_formatter.py:216-245 | Writing every block and a newline to a buffer that is rebuilt every 100 blocks gives the blocks each followed by a newline. |
| OutputFormatter.TiersAgree | src/gitingest/output_formatter.py:187-245 | With no blocks every tier gives "". From 100 MiB up the content is the newline join followed by "\n"; below that it is the newline join. |
| OutputFormatter.ContentText | src/gitingest/output_formatter.py:168-245 | Definition of `_gather_content_string`'s result by size: the newline join below 100 MiB, the buffered concatenation from there up. Properties in `JoinCoalescing`, `BufferedConcat` and `TiersAgree`. |
| OutputFormatter.GatherContentString | src/gitingest/output_formatter.py:168-245 | The content is the tier result for the node's size over the pre-order blocks, and the file caches are left cleared. |
| OutputFormatter.DirectorySummary | src/gitingest/output_formatter.py:50-51 | A directory's summary is the header followed by "Files analyzed: <file_count>". |
| OutputFormatter.FileSummary | src/gitingest/output_formatter.py:52-54 | A file's summary is the single-file header followed by "File: <name>". |
| OutputFormatter.TokenLineFacts | src/gitingest/output_formatter.py:89-91 | A truthy estimate ends the summary with "\nEstimated tokens: <estimate>". Any other estimate adds nothing after the body. |
| OutputFormatter.TokenLineWhenPositive | src/gitingest/output_formatter.py:89-91 | The token line appears exactly when the estimated total is positive. |
| OutputFormatter.TreeSectionHeader | src/gitingest/output_formatter.py:56 | The tree section starts with "Directory structure:" and the root's line, drawn with the last-entry connector. |
| OutputFormatter.TreeSectionStart | src/gitingest/output_formatter.py:56 | The tree returned by `format_node` opens with "Directory structure:" and the last-entry connector of the root's line. |
| OutputFormatter.FormatAfterRead | src/gitingest/output_formatter.py:29-97 | Reading the node's content first (as the Lines count does) changes nothing that `format_node` returns. |
| OutputFormatter.FormatResult | src/gitingest/output_formatter.py:29-97 | Definition of `format_node` on values: summary, "Directory structure:" with the tree, and the content. Properties in `FormatAfterRead`, `TreeSectionHeader` and `TreeSectionStart`. |
| OutputFormatter.Summarize | src/gitingest/output_formatter.py:47-91 | Over node objects, the summary is exactly the value-level summary of the node before the call. The node is unchanged, or its content read is left cached. |
| OutputFormatter.FormatNode | src/gitingest/output_formatter.py:29-97 | Over node objects, `format_node` returns exactly the value-level summary, tree and content, and leaves the file caches cleared. |
| PatternUtils.ValidPatternIsPlain | src/gitingest/utils/pattern_utils.py:90-108 | A valid pattern holds no separator, no backslash and no shell punctuation (';', '\|', '&', '$', '`'). |
| PatternUtils.IsValidPattern | src/gitingest/utils/pattern_utils.py:90-108 | Definition of `_is_valid_pattern`: every character is alphanumeric or one of "-_./+*@". Properties in `ValidPatternIsPlain`. |
| PatternUtils.ParsePatternsFacts | src/gitingest/utils/pattern_utils.py:46-87 | A parse succeeds exactly when every normalised piece is valid. It then returns every non-empty piece of every input, with '\\' turned into '/', and nothing else; no result is empty or holds a comma, space or backslash. A failure names at least one piece, and only invalid ones. |
| PatternUtils.ParsePatterns | src/gitingest/utils/pattern_utils.py:46-87 | Definition of `_parse_patterns`: the normalised pieces, or an error naming the invalid ones. Properties in `ParsePatternsFacts`. |
| PatternUtils.ProcessPatternsFacts | src/gitingest/utils/pattern_utils.py:11-43 | The call fails exactly when a given argument fails to parse. Without includes, the ignore set is the defaults plus the excludes and the include set is None. With includes, those are returned, none of them stays ignored, and every other default or exclude stays. |
| PatternUtils.ProcessPatterns | src/gitingest/utils/pattern_utils.py:11-43 | Definition of `process_patterns`: the defaults plus the excludes, minus the includes when given. Properties in `ProcessPatternsFacts`. |
| PatternUtils.NormalisedPieces | src/gitingest/utils/pattern_utils.py:70-80 | A backslash-free input normalises to the set of its non-empty pieces. |
| PatternUtils.TwoPieces | src/gitingest/utils/pattern_utils.py:74 | Two words around one comma or space split into exactly those two words. |
| PatternUtils.CommaSpacePieces | src/gitingest/utils/pattern_utils.py:74 | A ", "-separated list splits into its words with an empty piece after each comma. |
| PatternUtils.ParseCommaSpaceList | src/gitingest/utils/pattern_utils.py:46-87 | A ", "-separated list of three valid words parses to exactly those words. |
| PatternUtils.ParseSpacedPair | src/gitingest/utils/pattern_utils.py:46-87 | For an invalid word and a valid word separated by a space, the parse fails and names only the invalid word. |
| PatternUtils.ParsePlainSet | src/gitingest/utils/pattern_utils.py:46-87 | A set of valid words parses to itself. |
| PatternUtils.ParsePlainPair | src/gitingest/utils/pattern_utils.py:46-87 | Two valid words given as a set parse to themselves. |
| PatternUtils.ParsePlainWord | src/gitingest/utils/pattern_utils.py:46-87 | One valid word given as a string parses to itself. |
| PatternUtils.IncludeOverridesIgnore | src/gitingest/utils/pattern_utils.py:36-39 | An include that is also excluded is removed from the ignore set. Another exclude stays. |
| PatternUtils.IncludeWordOverridesIgnore | src/gitingest/utils/pattern_utils.py:36-39 | Including one of two excluded words removes that word from the ignore set and keeps the other. |
| PatternUtils.ParseListExample | tests/test_pattern_utils.py:22-32 | "*.py, *.md, docs/*" parses to those three patterns. |
| PatternUtils.ParseInjectionExample | tests/test_pattern_utils.py:35-45 | "*.py;rm -rf" is refused, naming "*.py;rm". |
| PatternUtils.EmptyArgumentsExample | tests/test_pattern_utils.py:9-19 | Empty arguments give the defaults as the ignore set and no include set. |
| PatternUtils.IncludeOverridesIgnoreExample | tests/test_pattern_utils.py:48-60 | Including "*.py" while excluding "*.py" and "*.txt" gives include {"*.py"}. "*.py" is not ignored; "*.txt" is. |
| QueryParser.ShortestRefFrom | src/gitingest/query_parser.py:204-212 | A run found from position k is longer than k and fits in the parts. |
| QueryParser.ShortestRefFromMeaning | src/gitingest/query_parser.py:204-212 | The run found from k names a ref and no run between k and it does. Finding nothing means no such run names one. |
| QueryParser.ShortestRefMeaning | src/gitingest/query_parser.py:204-215 | The run found is the shortest leading run of parts whose "/"-join is a listed ref. None means no leading run is. |
| QueryParser.FindRefConsumesItsRun | src/gitingest/query_parser.py:194-215 | Only a leading run is consumed, and the rest is left in order. Finding nothing consumes nothing. A ref found is that run joined with "/", and with the remote's list it is a listed ref. |
| QueryParser.FindRef | src/gitingest/query_parser.py:194-215 | Definition of `_configure_branch_or_tag`'s search: the first part after a failed fetch, otherwise the shortest listed leading run. Properties in `FindRefConsumesItsRun`, `FindRefReassembles` and `FoundRefReassembles`. |
| QueryParser.FindRefReassembles | src/gitingest/query_parser.py:204-212 | The ref found, "/" and the parts left, joined, give back the whole path. |
| QueryParser.FoundRefReassembles | src/gitingest/query_parser.py:194-215 | With no empty part, a ref found is non-empty and rebuilds the path with the rest. This holds both for a listed ref and for the first part taken after a failed fetch. |
| QueryParser.ConfigureBranchOrTag | src/gitingest/query_parser.py:157-215 | A ref type other than "branches" or "tags" is refused with "Invalid reference type: …" and nothing is consumed. If fetching fails, the first part is popped, or None if there is none. Otherwise the loop stops at the shortest listed candidate. |
| QueryParser.RemoteQueryNames | src/gitingest/query_parser.py:64-80 | The query's slug is "user-repo". Its URL is "https://host/user/repo", where the host is the netloc lower-cased, character by character. It clones into a directory named by the slug, and has no patterns and the default size cap. |
| QueryParser.RemoteQuery | src/gitingest/query_parser.py:64-135 | Definition of the query `parse_remote_repo` builds once host, user and repository are known. Properties in `RemoteQueryNames`, `RemoteQueryRouting` and `RefAndSubpathReassemble`. |
| QueryParser.RemoteQueryRouting | src/gitingest/query_parser.py:82-133 | The type is only "tree" or "blob", set exactly when such a part is followed by another. Without a type the query stays at the root with no ref. A commit is the hash after the type, and then no tag or branch is set. A truthy tag means no branch. No truthy ref means sub-path "/". |
| QueryParser.RefAndSubpathReassemble | src/gitingest/query_parser.py:109-133 | With no empty part, the ref and the sub-path put back together give the path after the type, whether the ref lists were fetched or not. With no ref found, the sub-path is "/". |
| QueryParser.ResolveRefs | src/gitingest/query_parser.py:109-133 | Definition of the ref resolution: a commit hash, else a tag, else a branch. Properties in `RefAndSubpathReassemble`. |
| QueryParser.ParseRemoteRepoTail | src/gitingest/query_parser.py:64-135 | Popping the type and the ref off the remaining parts and appending the rest to the sub-path yields exactly the query `RemoteQuery` describes. |
| QueryParser.FeatureBranchExample | tests/query_parser/test_query_parser.py:272-303 | "/tree/feature/fix1/src" gives branch "feature/fix1" and sub-path "/src". |
| QueryParser.UnknownBranchExample | tests/query_parser/test_query_parser.py:272-303 | "/tree/nonexistent-branch/src" gives no branch and sub-path "/". |
| QueryParser.CommitExample | tests/query_parser/test_query_parser.py:176-202 | A forty-digit hash after "/tree/" is the commit, and no branch is set. |
| QueryParser.LocalSlugFacts | src/gitingest/query_parser.py:153 | For "." the slug is the resolved directory's name. Otherwise it is the path with '/' removed only at its two ends, so it neither starts nor ends with '/'. |
| QueryParser.LocalSlug | src/gitingest/query_parser.py:153 | Definition of the local slug rule. Properties in `LocalSlugFacts`. |
| QueryParser.ParseLocalDirPath | src/gitingest/query_parser.py:138-154 | A local query has the resolved path, the slug rule's slug, no user, root sub-path and no type. |
| QueryParser.AbsolutePathSlugExample | tests/query_parser/test_query_parser.py:131-144 | "/home/user/project" has the slug "home/user/project". |
| Strings.SplitOnJoin | src/gitingest/query_parser.py:82 | Splitting a string at one character and joining the pieces with that character gives the string back. |
| Strings.DecimalRoundTrip | src/gitingest/output_formatter.py:51 | `str(n)` reads back as `n` and has no leading zero. |

## Left out

- I/O is data. What the operating system reports about a file is a `FileData` value: first chunk, UTF-8 check, preferred encodings and what each reads, size, notebook conversion result, link target. A directory tree is a finite `Entry` value. Reading, `stat`, `iterdir` and `readlink` are not modelled as effects.
- `_should_exclude` / `_should_include` are two opaque predicates in `Glob`. The glob matcher is not part of this model.
- `process_notebook`, `_read_chunk`, `_decodes` and `_get_preferred_encodings` appear only through their results in `FileData`.
- Token counting with tiktoken, and the sampling of the first block in `format_node`, are left out. The token total is a parameter, and the `.1f` digits of `_format_token_count` are an abstract function parameter.
- Printed warnings, `warnings.warn`, `gc.collect` and the `StringIO` object are left out. The buffer is modelled as the string it holds.
- `_gather_file_contents` is a generator. It is modelled as a method that returns the whole sequence of blocks, clearing each node's cache right after its block, as the generator does.
- `_create_tree_structure` writes the slug back into an unnamed node's `name`. The model substitutes the slug at display time instead.
- `str.lower` and `str.isalnum` are modelled on ASCII letters and digits only.
- Paths are POSIX paths with '/' separators.
  - A symlink on the path looked up by `ingest_query` counts as missing.
  - ".." in a sub-path is treated as a missing name.
  - `Path.resolve` is a parameter of `ParseLocalDirPath`.
  - A path in directory mode that names a file gives `Err("Not a directory: …")`. This stands for the error the operating system raises when the traversal lists it.
- `parse_remote_repo` before line 64 is not part of this model: URL parsing, unquoting, host guessing and `_get_user_and_repo_from_path`. The host as written, the URL path, user and repository are parameters.
- The query id (`uuid4`) is left out. `TMP_BASE_PATH / id` is a `tmpDir` parameter.
- The commit-hash check `_is_valid_git_commit_hash` is a parameter, since its module is not part of this model. The examples use forty hexadecimal digits.
- `fetch_remote_branches_or_tags` is a `Result` parameter: the ref list, or the failure.
- `ConfigureBranchOrTag` returns the remaining parts instead of mutating the caller's list in place.
- `RemoteQuery` sets the `IngestionQuery` defaults for the fields that `parse_remote_repo` does not set: no ignore or include patterns, and the 10 MiB size cap. The schema module that declares them is not part of this model.
- `DEFAULT_IGNORE_PATTERNS` is a parameter of `ProcessPatterns`.
- The limits of `gitingest.config` take the upstream values: 10 MiB per file, depth 20, 10000 files, 500 MiB in total. That module is not part of this model.
- PatternUtils.ParsePatterns: a failed parse carries the set of all invalid pieces instead of the single piece that Python's set iteration happens to raise `InvalidPatternError` for first. That order is unspecified.
- Python integers are unbounded, as Dafny's are, so no wrap-around arises.
- Exceptions other than the ones the core raises itself (permission errors on `iterdir`, errors while formatting) are not modelled.
