/**
 * The text rendering of `gitingest/output_formatter.py`: the summary header, the directory
 * tree drawn with box characters, and the file contents gathered in depth-first order and
 * assembled by one of three size tiers.
 *
 * The tokenizer is not modelled: `format_node` receives the estimated token total, and the
 * one-decimal rendering of `total / threshold` is the function `oneDecimal`.
 */
module OutputFormatter {
  import opened Wrappers
  import opened Strings
  import opened FileSystem
  import opened Query

  /** Below this total size the blocks are joined at once. */
  const SMALL_TREE_BYTES: nat := 10 * MIB
  /** Below this total size the blocks are joined in coalesced batches; above it they go through a buffer. */
  const MEDIUM_TREE_BYTES: nat := 100 * MIB
  /** Characters a batch may gather before it is joined into one piece. */
  const COALESCE_CHARS: nat := 5 * MIB
  /** Blocks written between two buffer flushes. */
  const FLUSH_INTERVAL: nat := 100

  // ---------------------------------------------------------------------------------------
  // Token counts

  /** `_format_token_count`: None for 0, then the "M" and "k" thresholds, otherwise the plain number. */
  function FormatTokenCount(total: nat, oneDecimal: (nat, nat) -> string): Option<string>
  {
    if total == 0 then None
    else if total >= 1000000 then Some(oneDecimal(total, 1000000) + "M")
    else if total >= 1000 then Some(oneDecimal(total, 1000) + "k")
    else Some(DecimalString(total))
  }

  /** The suffix tells the range apart, and a count below a thousand is printed exactly. */
  lemma TokenCountSuffix(total: nat, oneDecimal: (nat, nat) -> string)
    ensures FormatTokenCount(total, oneDecimal).None? <==> total == 0
    ensures total > 0 ==>
      var s := FormatTokenCount(total, oneDecimal).value;
      && |s| > 0
      && (EndsWith(s, "M") <==> total >= 1000000)
      && (EndsWith(s, "k") <==> 1000 <= total < 1000000)
      && (total < 1000 ==> ParseDecimal(s) == total)
  {
    if 0 < total < 1000 {
      DecimalRoundTrip(total);
      var s := DecimalString(total);
      assert IsDigit(s[|s| - 1]);
      assert s[|s| - 1..] == [s[|s| - 1]];
    } else if total >= 1000 {
      var s := FormatTokenCount(total, oneDecimal).value;
      assert s[|s| - 1..] == [s[|s| - 1]];
    }
  }

  // ---------------------------------------------------------------------------------------
  // Summary

  /** `str()` of an optional string inside an f-string. */
  function Shown(s: Option<string>): string
  {
    if s.Some? then s.value else "None"
  }

  /** The lines `_create_summary_prefix` collects in `parts`. */
  function PrefixParts(q: IngestionQuery, singleFile: bool): seq<string>
  {
    [if Truthy(q.userName) then "Repository: " + q.userName.value + "/" + Shown(q.repoName)
     else "Directory: " + q.slug]
    + (if Truthy(q.commit) then ["Commit: " + q.commit.value]
       else if Truthy(q.branch) && q.branch.value != "main" && q.branch.value != "master" then ["Branch: " + q.branch.value]
       else [])
    + (if q.subpath != "/" && !singleFile then ["Subpath: " + q.subpath] else [])
  }

  /** `_create_summary_prefix`. */
  function SummaryPrefix(q: IngestionQuery, singleFile: bool): string
  {
    Join(PrefixParts(q, singleFile), "\n") + "\n"
  }

  /**
   * The header names the repository or the directory first; a Commit line appears exactly when
   * a commit is set, a Branch line exactly when none is and the branch is not main or master, so
   * never both; a Subpath line exactly for a non-root subpath of a directory; and it ends in a newline.
   */
  lemma SummaryPrefixLines(q: IngestionQuery, singleFile: bool)
    ensures var parts := PrefixParts(q, singleFile);
      && StartsWith(SummaryPrefix(q, singleFile), parts[0])
      && (Truthy(q.userName) ==> parts[0] == "Repository: " + q.userName.value + "/" + Shown(q.repoName))
      && (!Truthy(q.userName) ==> parts[0] == "Directory: " + q.slug)
      && ((exists i :: 0 <= i < |parts| && StartsWith(parts[i], "Commit: ")) <==> Truthy(q.commit))
      && ((exists i :: 0 <= i < |parts| && StartsWith(parts[i], "Branch: ")) <==>
            !Truthy(q.commit) && Truthy(q.branch) && q.branch.value != "main" && q.branch.value != "master")
      && ((exists i :: 0 <= i < |parts| && StartsWith(parts[i], "Subpath: ")) <==> q.subpath != "/" && !singleFile)
      && EndsWith(SummaryPrefix(q, singleFile), "\n")
  {
    JoinStartsWithFirst(PrefixParts(q, singleFile), "\n");
    PrefixLineKinds(q, singleFile);
  }

  /** Which optional lines the header has. */
  lemma PrefixLineKinds(q: IngestionQuery, singleFile: bool)
    ensures var parts := PrefixParts(q, singleFile);
      && ((exists i :: 0 <= i < |parts| && StartsWith(parts[i], "Commit: ")) <==> Truthy(q.commit))
      && ((exists i :: 0 <= i < |parts| && StartsWith(parts[i], "Branch: ")) <==>
            !Truthy(q.commit) && Truthy(q.branch) && q.branch.value != "main" && q.branch.value != "master")
      && ((exists i :: 0 <= i < |parts| && StartsWith(parts[i], "Subpath: ")) <==> q.subpath != "/" && !singleFile)
  {
    var parts := PrefixParts(q, singleFile);
    var middle := if Truthy(q.commit) then ["Commit: " + q.commit.value]
       else if Truthy(q.branch) && q.branch.value != "main" && q.branch.value != "master" then ["Branch: " + q.branch.value]
       else [];
    var last := if q.subpath != "/" && !singleFile then ["Subpath: " + q.subpath] else [];
    assert parts == [parts[0]] + middle + last;
    assert parts[0][0] == 'R' || parts[0][0] == 'D';
    forall i | 0 <= i < |parts|
      ensures |parts[i]| > 0
      ensures parts[i][0] == 'C' ==> Truthy(q.commit)
      ensures parts[i][0] == 'B' ==>
        !Truthy(q.commit) && Truthy(q.branch) && q.branch.value != "main" && q.branch.value != "master"
      ensures parts[i][0] == 'S' ==> q.subpath != "/" && !singleFile
    {
      if i == 0 {
      } else if i == 1 && |middle| == 1 {
        assert parts[i] == middle[0];
      } else {
        assert parts[i] == last[0];
      }
    }
    forall i | 0 <= i < |parts|
      ensures StartsWith(parts[i], "Commit: ") ==> parts[i][0] == 'C'
      ensures StartsWith(parts[i], "Branch: ") ==> parts[i][0] == 'B'
      ensures StartsWith(parts[i], "Subpath: ") ==> parts[i][0] == 'S'
    {
      StartsWithHead(parts[i], "Commit: ");
      StartsWithHead(parts[i], "Branch: ");
      StartsWithHead(parts[i], "Subpath: ");
    }
    if Truthy(q.commit) {
      assert StartsWith(parts[1], "Commit: ");
    } else if Truthy(q.branch) && q.branch.value != "main" && q.branch.value != "master" {
      assert StartsWith(parts[1], "Branch: ");
    }
    if last != [] {
      assert StartsWith(parts[|parts| - 1], "Subpath: ");
    }
  }

  // ---------------------------------------------------------------------------------------
  // Line counts and thousands separators

  /** The characters at which `str.splitlines` ends a line. */
  predicate IsLineBoundary(c: char)
  {
    c == '\n' || c == '\r' || c == '\U{000B}' || c == '\U{000C}' || c == '\U{001C}' || c == '\U{001D}'
    || c == '\U{001E}' || c == '\U{0085}' || c == '\U{2028}' || c == '\U{2029}'
  }

  predicate NoBreaks(s: string)
  {
    forall i :: 0 <= i < |s| ==> !IsLineBoundary(s[i])
  }

  /** The number of line ends in `s`, where "\r\n" ends one line. */
  function LineEnds(s: string): nat
    decreases |s|
  {
    if |s| == 0 then 0
    else if |s| >= 2 && s[0] == '\r' && s[1] == '\n' then 1 + LineEnds(s[2..])
    else if IsLineBoundary(s[0]) then 1 + LineEnds(s[1..])
    else LineEnds(s[1..])
  }

  /** `len(s.splitlines())`: one line per line end, and one more for an unterminated last line. */
  function LineCount(s: string): nat
  {
    LineEnds(s) + (if |s| > 0 && !IsLineBoundary(s[|s| - 1]) then 1 else 0)
  }

  lemma {:induction false} LineEndsAppend(a: string, b: string)
    requires |a| == 0 || a[|a| - 1] != '\r'
    ensures LineEnds(a + b) == LineEnds(a) + LineEnds(b)
    decreases |a|
  {
    if |a| == 0 {
      assert a + b == b;
    } else if |a| >= 2 && a[0] == '\r' && a[1] == '\n' {
      assert (a + b)[2..] == a[2..] + b;
      LineEndsAppend(a[2..], b);
    } else if |a| == 1 && a[0] == '\r' {
      assert false;
    } else {
      assert (a + b)[1..] == a[1..] + b;
      LineEndsAppend(a[1..], b);
    }
  }

  lemma {:induction false} NoBreaksNoLineEnds(s: string)
    requires NoBreaks(s)
    ensures LineEnds(s) == 0
    decreases |s|
  {
    if |s| > 0 {
      NoBreaksNoLineEnds(s[1..]);
    }
  }

  /** Lines without line-boundary characters, each ended by "\n", split back into exactly that many lines. */
  lemma {:induction false} LineCountOfLines(lines: seq<string>)
    requires forall k :: 0 <= k < |lines| ==> NoBreaks(lines[k])
    ensures LineCount(ConcatLines(lines)) == |lines|
    ensures LineEnds(ConcatLines(lines)) == |lines|
    decreases |lines|
  {
    if |lines| > 0 {
      var front := lines[..|lines| - 1];
      var line := lines[|lines| - 1];
      LineCountOfLines(front);
      var before := ConcatLines(front);
      assert |before| == 0 || before[|before| - 1] == '\n' by {
        if |front| > 0 {
          assert before == ConcatLines(front[..|front| - 1]) + front[|front| - 1] + "\n";
        }
      }
      LineEndsAppend(before, line + "\n");
      assert line == [] || line[|line| - 1] != '\r';
      LineEndsAppend(line, "\n");
      NoBreaksNoLineEnds(line);
      assert LineEnds("\n") == 1 + LineEnds("");
      assert ConcatLines(lines) == before + (line + "\n");
    }
  }

  function ThreeDigits(n: nat): string
    requires n < 1000
  {
    [DigitChar(n / 100), DigitChar(n / 10 % 10), DigitChar(n % 10)]
  }

  /** `f"{n:,}"`: decimal digits in groups of three separated by commas. */
  function Thousands(n: nat): string
  {
    if n < 1000 then DecimalString(n) else Thousands(n / 1000) + "," + ThreeDigits(n % 1000)
  }

  lemma DecimalStringSplit(n: nat)
    requires n >= 1000
    ensures DecimalString(n) == DecimalString(n / 1000) + ThreeDigits(n % 1000)
  {
    ThousandDigits(n);
    assert DecimalString(n) == DecimalString(n / 10) + [DigitChar(n % 10)];
    assert DecimalString(n / 10) == DecimalString(n / 100) + [DigitChar(n / 10 % 10)];
    assert DecimalString(n / 100) == DecimalString(n / 1000) + [DigitChar(n / 100 % 10)];
  }

  /** The last three decimal digits of `n` are the digits of `n % 1000`. */
  lemma ThousandDigits(n: nat)
    ensures n / 10 / 10 == n / 100 && n / 100 / 10 == n / 1000
    ensures n % 1000 / 100 == n / 100 % 10
    ensures n % 1000 / 10 % 10 == n / 10 % 10
    ensures n % 1000 % 10 == n % 10
  {
    var m, r := n / 1000, n % 1000;
    assert n == 1000 * m + r;
    assert n / 100 == 10 * m + r / 100;
    assert n / 10 == 100 * m + r / 10;
  }

  /** Removing the separators gives `str(n)` back, so the grouped text still reads as `n`. */
  lemma {:induction false} ThousandsReadsBack(n: nat)
    ensures Without(Thousands(n), {','}) == DecimalString(n)
    ensures ParseDecimal(Without(Thousands(n), {','})) == n
  {
    if n < 1000 {
      WithoutAvoided(DecimalString(n), {','});
    } else {
      ThousandsReadsBack(n / 1000);
      GroupReadsBack(n);
    }
    DecimalRoundTrip(n);
  }

  /** One more group: dropping its comma leaves the digits of `n`, given that it did for `n / 1000`. */
  lemma GroupReadsBack(n: nat)
    requires n >= 1000 && Without(Thousands(n / 1000), {','}) == DecimalString(n / 1000)
    ensures Without(Thousands(n), {','}) == DecimalString(n)
  {
    var high, low := Thousands(n / 1000), ThreeDigits(n % 1000);
    assert Thousands(n) == high + "," + low;
    WithoutAppend(high + ",", low, {','});
    WithoutAppend(high, ",", {','});
    assert Without(",", {','}) == Without("", {','}) + "";
    WithoutAvoided(low, {','});
    DecimalStringSplit(n);
  }

  // ---------------------------------------------------------------------------------------
  // Tree structure

  /** The name shown for a node: the slug when the name is empty, "/" after a directory, the target after a symlink. */
  function DisplayName(slug: string, t: Tree): string
  {
    (if t.name == "" then slug else t.name)
    + (if t.kind == Directory then "/" else if t.kind == Symlink then " -> " + t.data.linkTarget else "")
  }

  function Connector(isLast: bool): string
  {
    if isLast then "└── " else "├── "
  }

  function ChildPrefix(prefix: string, isLast: bool): string
  {
    prefix + (if isLast then "    " else "│   ")
  }

  /** `_create_tree_structure`. */
  function CreateTree(slug: string, t: Tree, prefix: string, isLast: bool): string
    decreases t, 1, 0
  {
    prefix + Connector(isLast) + DisplayName(slug, t) + "\n"
    + (if t.kind == Directory && |t.children| > 0 then ChildTrees(slug, t.children, ChildPrefix(prefix, isLast), 0) else "")
  }

  /** The loop over `enumerate(node.children)` from child `i` on. */
  function ChildTrees(slug: string, cs: seq<Tree>, prefix: string, i: nat): string
    requires i <= |cs|
    decreases cs, 0, |cs| - i
  {
    if i == |cs| then "" else CreateTree(slug, cs[i], prefix, i == |cs| - 1) + ChildTrees(slug, cs, prefix, i + 1)
  }

  /** The nodes the rendering visits, in depth-first pre-order; a non-directory's children are not visited. */
  function Preorder(t: Tree): seq<Tree>
    decreases t, 1, 0
  {
    [t] + (if t.kind == Directory then PreorderFrom(t.children, 0) else [])
  }

  function PreorderFrom(cs: seq<Tree>, i: nat): seq<Tree>
    requires i <= |cs|
    decreases cs, 0, |cs| - i
  {
    if i == |cs| then [] else Preorder(cs[i]) + PreorderFrom(cs, i + 1)
  }

  /** The lines of the rendering, one per node, without their newlines. */
  function TreeLines(slug: string, t: Tree, prefix: string, isLast: bool): seq<string>
    decreases t, 1, 0
  {
    [prefix + Connector(isLast) + DisplayName(slug, t)]
    + (if t.kind == Directory then LinesFrom(slug, t.children, ChildPrefix(prefix, isLast), 0) else [])
  }

  function LinesFrom(slug: string, cs: seq<Tree>, prefix: string, i: nat): seq<string>
    requires i <= |cs|
    decreases cs, 0, |cs| - i
  {
    if i == |cs| then [] else TreeLines(slug, cs[i], prefix, i == |cs| - 1) + LinesFrom(slug, cs, prefix, i + 1)
  }

  /** The rendering is its lines, each followed by a newline. */
  lemma {:induction false} CreateTreeIsLines(slug: string, t: Tree, prefix: string, isLast: bool)
    ensures CreateTree(slug, t, prefix, isLast) == ConcatLines(TreeLines(slug, t, prefix, isLast))
    decreases t, 1, 0
  {
    var head := prefix + Connector(isLast) + DisplayName(slug, t);
    assert ConcatLines([head]) == head + "\n" by {
      assert [head][..0] == [];
    }
    if t.kind == Directory {
      ChildTreesAreLines(slug, t.children, ChildPrefix(prefix, isLast), 0);
      ConcatLinesAppend([head], LinesFrom(slug, t.children, ChildPrefix(prefix, isLast), 0));
      if |t.children| == 0 {
        assert LinesFrom(slug, t.children, ChildPrefix(prefix, isLast), 0) == [];
      }
    } else {
      assert TreeLines(slug, t, prefix, isLast) == [head];
    }
  }

  lemma {:induction false} ChildTreesAreLines(slug: string, cs: seq<Tree>, prefix: string, i: nat)
    requires i <= |cs|
    ensures ChildTrees(slug, cs, prefix, i) == ConcatLines(LinesFrom(slug, cs, prefix, i))
    decreases cs, 0, |cs| - i
  {
    if i < |cs| {
      CreateTreeIsLines(slug, cs[i], prefix, i == |cs| - 1);
      ChildTreesAreLines(slug, cs, prefix, i + 1);
      ConcatLinesAppend(TreeLines(slug, cs[i], prefix, i == |cs| - 1), LinesFrom(slug, cs, prefix, i + 1));
    }
  }

  /** Every node whose display name has no line boundary, and a prefix without one. */
  predicate PlainNames(slug: string, ns: seq<Tree>)
  {
    forall k :: 0 <= k < |ns| ==> NoBreaks(DisplayName(slug, ns[k]))
  }

  lemma NoBreaksConcat(a: string, b: string)
    requires NoBreaks(a) && NoBreaks(b)
    ensures NoBreaks(a + b)
  {
    assert forall i :: |a| <= i < |a + b| ==> (a + b)[i] == b[i - |a|];
  }

  /** Line `k` starts with `prefix` and ends with the display name of the `k`-th node. */
  predicate Labelled(lines: seq<string>, prefix: string, slug: string, nodes: seq<Tree>)
  {
    && |lines| == |nodes|
    && forall k :: 0 <= k < |lines| ==>
         StartsWith(lines[k], prefix) && EndsWith(lines[k], DisplayName(slug, nodes[k]))
  }

  lemma LabelledConcat(a: seq<string>, b: seq<string>, prefix: string, slug: string, na: seq<Tree>, nb: seq<Tree>)
    requires Labelled(a, prefix, slug, na) && Labelled(b, prefix, slug, nb)
    ensures Labelled(a + b, prefix, slug, na + nb)
  {
    forall k | 0 <= k < |a + b|
      ensures StartsWith((a + b)[k], prefix) && EndsWith((a + b)[k], DisplayName(slug, (na + nb)[k]))
    {
      if k >= |a| {
        assert (a + b)[k] == b[k - |a|] && (na + nb)[k] == nb[k - |a|];
      }
    }
  }

  lemma LabelledWeaken(lines: seq<string>, prefix: string, more: string, slug: string, nodes: seq<Tree>)
    requires Labelled(lines, prefix + more, slug, nodes)
    ensures Labelled(lines, prefix, slug, nodes)
  {
    forall k | 0 <= k < |lines| ensures StartsWith(lines[k], prefix) {
      StartsWithPrefix(lines[k], prefix, more);
    }
  }

  /**
   * Line `k` of the rendering belongs to the `k`-th node in pre-order: it starts with the
   * prefix and ends with that node's display name.
   */
  lemma {:induction false} TreeLinesArePreorder(slug: string, t: Tree, prefix: string, isLast: bool)
    ensures Labelled(TreeLines(slug, t, prefix, isLast), prefix, slug, Preorder(t))
    decreases t, 1, 0
  {
    var head := prefix + Connector(isLast) + DisplayName(slug, t);
    assert head == prefix + (Connector(isLast) + DisplayName(slug, t));
    assert StartsWith(head, prefix) && EndsWith(head, DisplayName(slug, t));
    assert Labelled([head], prefix, slug, [t]);
    if t.kind == Directory {
      var childPrefix := ChildPrefix(prefix, isLast);
      LinesFromArePreorder(slug, t.children, childPrefix, 0);
      var rest := LinesFrom(slug, t.children, childPrefix, 0);
      var nodes := PreorderFrom(t.children, 0);
      LabelledWeaken(rest, prefix, if isLast then "    " else "│   ", slug, nodes);
      LabelledConcat([head], rest, prefix, slug, [t], nodes);
      assert TreeLines(slug, t, prefix, isLast) == [head] + rest;
      assert Preorder(t) == [t] + nodes;
    } else {
      assert TreeLines(slug, t, prefix, isLast) == [head];
      assert Preorder(t) == [t];
    }
  }

  lemma {:induction false} LinesFromArePreorder(slug: string, cs: seq<Tree>, prefix: string, i: nat)
    requires i <= |cs|
    ensures Labelled(LinesFrom(slug, cs, prefix, i), prefix, slug, PreorderFrom(cs, i))
    decreases cs, 0, |cs| - i
  {
    if i < |cs| {
      var isLast := i == |cs| - 1;
      TreeLinesArePreorder(slug, cs[i], prefix, isLast);
      LinesFromArePreorder(slug, cs, prefix, i + 1);
      LabelledConcat(TreeLines(slug, cs[i], prefix, isLast), LinesFrom(slug, cs, prefix, i + 1),
                     prefix, slug, Preorder(cs[i]), PreorderFrom(cs, i + 1));
      assert LinesFrom(slug, cs, prefix, i) == TreeLines(slug, cs[i], prefix, isLast) + LinesFrom(slug, cs, prefix, i + 1);
      assert PreorderFrom(cs, i) == Preorder(cs[i]) + PreorderFrom(cs, i + 1);
    }
  }

  /** A prefix without line boundaries draws lines without them when no display name has one. */
  lemma {:induction false} TreeLinesArePlain(slug: string, t: Tree, prefix: string, isLast: bool)
    requires NoBreaks(prefix) && PlainNames(slug, Preorder(t))
    ensures forall k :: 0 <= k < |TreeLines(slug, t, prefix, isLast)| ==> NoBreaks(TreeLines(slug, t, prefix, isLast)[k])
    decreases t, 1, 0
  {
    var lines := TreeLines(slug, t, prefix, isLast);
    var head := prefix + Connector(isLast) + DisplayName(slug, t);
    assert Preorder(t)[0] == t;
    NoBreaksConcat(prefix, Connector(isLast));
    NoBreaksConcat(prefix + Connector(isLast), DisplayName(slug, t));
    if t.kind == Directory {
      var childPrefix := ChildPrefix(prefix, isLast);
      var nodes := PreorderFrom(t.children, 0);
      assert Preorder(t) == [t] + nodes;
      NoBreaksConcat(prefix, if isLast then "    " else "│   ");
      assert PlainNames(slug, nodes) by {
        forall k | 0 <= k < |nodes| ensures NoBreaks(DisplayName(slug, nodes[k])) {
          assert nodes[k] == Preorder(t)[k + 1];
        }
      }
      LinesFromArePlain(slug, t.children, childPrefix, 0);
      var rest := LinesFrom(slug, t.children, childPrefix, 0);
      assert lines == [head] + rest;
      forall k | 0 <= k < |lines| ensures NoBreaks(lines[k]) {
        if k > 0 {
          assert lines[k] == rest[k - 1];
        }
      }
    } else {
      assert lines == [head];
    }
  }

  lemma {:induction false} LinesFromArePlain(slug: string, cs: seq<Tree>, prefix: string, i: nat)
    requires i <= |cs|
    requires NoBreaks(prefix) && PlainNames(slug, PreorderFrom(cs, i))
    ensures forall k :: 0 <= k < |LinesFrom(slug, cs, prefix, i)| ==> NoBreaks(LinesFrom(slug, cs, prefix, i)[k])
    decreases cs, 0, |cs| - i
  {
    if i < |cs| {
      var isLast := i == |cs| - 1;
      var firstNodes := Preorder(cs[i]);
      var restNodes := PreorderFrom(cs, i + 1);
      assert PreorderFrom(cs, i) == firstNodes + restNodes;
      assert PlainNames(slug, firstNodes) by {
        forall k | 0 <= k < |firstNodes| ensures NoBreaks(DisplayName(slug, firstNodes[k])) {
          assert firstNodes[k] == PreorderFrom(cs, i)[k];
        }
      }
      assert PlainNames(slug, restNodes) by {
        forall k | 0 <= k < |restNodes| ensures NoBreaks(DisplayName(slug, restNodes[k])) {
          assert restNodes[k] == PreorderFrom(cs, i)[k + |firstNodes|];
        }
      }
      TreeLinesArePlain(slug, cs[i], prefix, isLast);
      LinesFromArePlain(slug, cs, prefix, i + 1);
      var first := TreeLines(slug, cs[i], prefix, isLast);
      var rest := LinesFrom(slug, cs, prefix, i + 1);
      var lines := LinesFrom(slug, cs, prefix, i);
      assert lines == first + rest;
      forall k | 0 <= k < |lines| ensures NoBreaks(lines[k]) {
        if k < |first| {
          assert lines[k] == first[k];
        } else {
          assert lines[k] == rest[k - |first|];
        }
      }
    }
  }

  /** The rendering has exactly one line per visited node, as `str.splitlines` counts lines. */
  lemma OneLinePerNode(slug: string, t: Tree, prefix: string, isLast: bool)
    requires NoBreaks(prefix) && PlainNames(slug, Preorder(t))
    ensures LineCount(CreateTree(slug, t, prefix, isLast)) == |Preorder(t)|
  {
    CreateTreeIsLines(slug, t, prefix, isLast);
    TreeLinesArePreorder(slug, t, prefix, isLast);
    TreeLinesArePlain(slug, t, prefix, isLast);
    LineCountOfLines(TreeLines(slug, t, prefix, isLast));
  }

  /** `_create_tree_structure` on the node objects; it changes nothing (the slug write-back is left out). */
  method CreateTreeStructure(slug: string, node: Node, prefix: string, isLast: bool) returns (treeStr: string)
    requires node.Valid()
    ensures treeStr == CreateTree(slug, node.Model(), prefix, isLast)
    decreases node.Repr, 1
  {
    var displayName := if node.name == "" then slug else node.name;
    if node.kind == Directory {
      displayName := displayName + "/";
    } else if node.kind == Symlink {
      displayName := displayName + " -> " + node.data.linkTarget;
    }
    ghost var m := node.Model();
    assert displayName == DisplayName(slug, m);
    treeStr := prefix + Connector(isLast) + displayName + "\n";
    if node.kind == Directory && |node.children| > 0 {
      var sub := ChildTreeStructures(slug, node, ChildPrefix(prefix, isLast));
      assert sub == ChildTrees(slug, m.children, ChildPrefix(prefix, isLast), 0);
      treeStr := treeStr + sub;
    }
  }

  /** The loop of `_create_tree_structure` over the children of `node`. */
  method ChildTreeStructures(slug: string, node: Node, prefix: string) returns (treeStr: string)
    requires node.Valid()
    ensures treeStr == ChildTrees(slug, node.childModels, prefix, 0)
    decreases node.Repr, 0
  {
    ghost var models := node.childModels;
    treeStr := "";
    var i := 0;
    while i < |node.children|
      invariant 0 <= i <= |node.children|
      invariant treeStr + ChildTrees(slug, models, prefix, i) == ChildTrees(slug, models, prefix, 0)
    {
      var child := node.children[i];
      assert child.Valid() && child.Model() == models[i] && child.Repr < node.Repr;
      var sub := CreateTreeStructure(slug, child, prefix, i == |node.children| - 1);
      treeStr := treeStr + sub;
      i := i + 1;
    }
  }

  // ---------------------------------------------------------------------------------------
  // File contents

  /** What `_gather_file_contents` yields: the block of every non-directory node, depth first, in children order. */
  function FileBlocks(t: Tree): seq<string>
    decreases t, 1, 0
  {
    if t.kind != Directory then [ContentStringOf(t)] else BlocksFrom(t.children, 0)
  }

  function BlocksFrom(cs: seq<Tree>, i: nat): seq<string>
    requires i <= |cs|
    decreases cs, 0, |cs| - i
  {
    if i == |cs| then [] else FileBlocks(cs[i]) + BlocksFrom(cs, i + 1)
  }

  /** The blocks of the non-directory nodes of `ns`, in order. */
  function LeafBlocks(ns: seq<Tree>): seq<string>
  {
    ConcatMap(ns, LeafBlock)
  }

  /** The block of one node: none for a directory. */
  function LeafBlock(n: Tree): seq<string>
  {
    if n.kind != Directory then [ContentStringOf(n)] else []
  }

  /** The concatenation of `f` over `ns`, in order. */
  function ConcatMap(ns: seq<Tree>, f: Tree -> seq<string>): seq<string>
  {
    if |ns| == 0 then [] else f(ns[0]) + ConcatMap(ns[1..], f)
  }

  lemma {:induction false} ConcatMapAppend(a: seq<Tree>, b: seq<Tree>, f: Tree -> seq<string>)
    ensures ConcatMap(a + b, f) == ConcatMap(a, f) + ConcatMap(b, f)
    decreases |a|
  {
    if |a| == 0 {
      assert a + b == b;
    } else {
      var ab := a + b;
      assert ab[0] == a[0] && ab[1..] == a[1..] + b;
      ConcatMapAppend(a[1..], b, f);
    }
  }

  lemma LeafBlocksAppend(a: seq<Tree>, b: seq<Tree>)
    ensures LeafBlocks(a + b) == LeafBlocks(a) + LeafBlocks(b)
  {
    ConcatMapAppend(a, b, LeafBlock);
  }

  /** The generator yields one block per non-directory node, in the pre-order the tree is drawn in. */
  lemma {:induction false} FileBlocksArePreorder(t: Tree)
    ensures FileBlocks(t) == LeafBlocks(Preorder(t))
    decreases t, 1, 0
  {
    if t.kind == Directory {
      BlocksFromArePreorder(t.children, 0);
      assert Preorder(t) == [t] + PreorderFrom(t.children, 0);
      assert ([t] + PreorderFrom(t.children, 0))[1..] == PreorderFrom(t.children, 0);
    } else {
      assert Preorder(t) == [t];
      assert LeafBlocks([t][1..]) == [];
    }
  }

  lemma {:induction false} BlocksFromArePreorder(cs: seq<Tree>, i: nat)
    requires i <= |cs|
    ensures BlocksFrom(cs, i) == LeafBlocks(PreorderFrom(cs, i))
    decreases cs, 0, |cs| - i
  {
    if i < |cs| {
      FileBlocksArePreorder(cs[i]);
      BlocksFromArePreorder(cs, i + 1);
      LeafBlocksAppend(Preorder(cs[i]), PreorderFrom(cs, i + 1));
    }
  }

  /** The tree after the generator has run: every non-directory node has cleared its cache. */
  function ClearLeaves(t: Tree): Tree
  {
    if t.kind != Directory then ClearAll(t)
    else t.(children := seq(|t.children|, j requires 0 <= j < |t.children| => ClearLeaves(t.children[j])))
  }

  /** The values `ms` with the first `i` subtrees' leaf caches cleared. */
  function LeavesClearedBelow(ms: seq<Tree>, i: nat): (r: seq<Tree>)
    ensures |r| == |ms|
  {
    seq(|ms|, j requires 0 <= j < |ms| => if j < i then ClearLeaves(ms[j]) else ms[j])
  }

  /** One more child gathered: its leaves are cleared and its blocks move from the pending to the done part. */
  lemma GatherStep(ms: seq<Tree>, i: nat, done: seq<string>, childBlocks: seq<string>, all: seq<string>)
    requires i < |ms| && childBlocks == FileBlocks(ms[i]) && done + BlocksFrom(ms, i) == all
    ensures LeavesClearedBelow(ms, i)[i := ClearLeaves(LeavesClearedBelow(ms, i)[i])] == LeavesClearedBelow(ms, i + 1)
    ensures (done + childBlocks) + BlocksFrom(ms, i + 1) == all
  {
    assert LeavesClearedBelow(ms, i)[i := ClearLeaves(LeavesClearedBelow(ms, i)[i])] == LeavesClearedBelow(ms, i + 1);
    assert done + (childBlocks + BlocksFrom(ms, i + 1)) == (done + childBlocks) + BlocksFrom(ms, i + 1);
  }

  /** Every cache in the tree is unset or holds what the ladder would compute. */
  predicate CachesCoherent(t: Tree)
  {
    && (t.cache.Some? ==> ResolveContent(t.kind, t.name, t.data) == Ok(t.cache.value))
    && forall j :: 0 <= j < |t.children| ==> CachesCoherent(t.children[j])
  }

  /** With coherent caches, gathering again after the caches were cleared yields the same blocks. */
  lemma {:induction false} GatherAgainSameBlocks(t: Tree)
    requires CachesCoherent(t)
    ensures FileBlocks(ClearLeaves(t)) == FileBlocks(t)
    ensures Shape(ClearLeaves(t)) == Shape(t)
    decreases t, 1, 0
  {
    if t.kind == Directory {
      var cleared := ClearLeaves(t);
      GatherAgainFrom(t.children, cleared.children, 0);
      forall j | 0 <= j < |t.children| ensures Shape(cleared.children[j]) == Shape(t.children[j]) {
        GatherAgainSameBlocks(t.children[j]);
      }
      assert Shape(cleared).children == Shape(t).children;
    } else {
      ClearAllClearsOnlyCaches(t);
    }
  }

  lemma {:induction false} GatherAgainFrom(cs: seq<Tree>, cleared: seq<Tree>, i: nat)
    requires i <= |cs| == |cleared|
    requires forall j :: 0 <= j < |cs| ==> CachesCoherent(cs[j]) && cleared[j] == ClearLeaves(cs[j])
    ensures BlocksFrom(cleared, i) == BlocksFrom(cs, i)
    decreases cs, 0, |cs| - i
  {
    if i < |cs| {
      GatherAgainSameBlocks(cs[i]);
      GatherAgainFrom(cs, cleared, i + 1);
    }
  }

  /** `_gather_file_contents`, with every yielded node's cache cleared right after its block. */
  method GatherFileContents(node: Node) returns (blocks: seq<string>)
    requires node.Valid()
    modifies node.Repr
    ensures node.Valid() && node.Repr == old(node.Repr) && node.children == old(node.children)
    ensures blocks == FileBlocks(old(node.Model()))
    ensures node.Model() == ClearLeaves(old(node.Model()))
    decreases node.Repr, 3
  {
    ghost var before := node.Model();
    if node.kind != Directory {
      var block := node.ContentString();
      blocks := [block];
      node.ClearContentCache();
      assert AfterRead(before).children == before.children;
    } else {
      blocks := GatherChildContents(node);
    }
  }

  /** The loop of `_gather_file_contents` over the children of a directory. */
  method GatherChildContents(node: Node) returns (blocks: seq<string>)
    requires node.Valid() && node.kind == Directory
    modifies node.Repr
    ensures node.Valid() && node.Repr == old(node.Repr) && node.children == old(node.children)
    ensures blocks == FileBlocks(old(node.Model()))
    ensures node.Model() == ClearLeaves(old(node.Model()))
    decreases node.Repr, 2
  {
    ghost var before := node.Model();
    ghost var models := node.childModels;
    blocks := [];
    var i := 0;
    while i < |node.children|
      invariant 0 <= i <= |node.children| == |models|
      invariant node.Valid() && node.children == old(node.children) && node.Repr == old(node.Repr)
      invariant node.childModels == LeavesClearedBelow(models, i)
      invariant node.Model() == before.(children := node.childModels)
      invariant blocks + BlocksFrom(models, i) == FileBlocks(before)
    {
      var childBlocks := GatherChild(node, i);
      GatherStep(models, i, blocks, childBlocks, FileBlocks(before));
      blocks := blocks + childBlocks;
      i := i + 1;
    }
    assert LeavesClearedBelow(models, |models|) == ClearLeaves(before).children;
  }

  /** One pass of the loop of `_gather_file_contents`: the blocks under child `i`, which is left cleared. */
  method GatherChild(node: Node, i: nat) returns (childBlocks: seq<string>)
    requires node.Valid() && i < |node.children|
    modifies node.Repr
    ensures node.Valid() && node.Repr == old(node.Repr) && node.children == old(node.children)
    ensures node.childModels == old(node.childModels)[i := ClearLeaves(old(node.childModels)[i])]
    ensures node.Model() == old(node.Model()).(children := node.childModels)
    ensures childBlocks == FileBlocks(old(node.childModels)[i])
    decreases node.Repr, 1
  {
    var cs := node.children;
    assert cs[i].Repr < node.Repr;
    childBlocks := GatherFileContents(cs[i]);
    label AfterChild:
    node.childModels := node.childModels[i := cs[i].Model()];
    forall j | 0 <= j < |cs| && j != i
      ensures cs[j].Valid() && cs[j].Model() == node.childModels[j]
    {
      assert old(cs[j].Valid() && cs[j].Model() == node.childModels[j]);
      assert cs[j].Repr !! cs[i].Repr;
    }
  }

  /** The 10–100 MB tier: blocks are batched and a batch is joined once it reaches 5 MB of characters. */
  method JoinCoalescing(blocks: seq<string>) returns (joined: string)
    ensures joined == Join(blocks, "\n")
  {
    var chunks: seq<string> := [];
    var chunkSize := 0;
    for i := 0 to |blocks|
      invariant Join(chunks, "\n") == Join(blocks[..i], "\n")
      invariant |chunks| == 0 <==> i == 0
    {
      if |chunks| > 0 {
        JoinSnoc(chunks, blocks[i], "\n");
        JoinSnoc(blocks[..i], blocks[i], "\n");
      }
      assert blocks[..i + 1] == blocks[..i] + [blocks[i]];
      chunks := chunks + [blocks[i]];
      chunkSize := chunkSize + |blocks[i]|;
      if chunkSize >= COALESCE_CHARS {
        var batch := Join(chunks, "\n");
        chunks := [batch];
        chunkSize := |batch|;
      }
    }
    assert blocks[..|blocks|] == blocks;
    joined := Join(chunks, "\n");
  }

  /** The tier above 100 MB: every block and a newline go to a buffer that is rebuilt every 100 blocks. */
  method BufferedConcat(blocks: seq<string>) returns (result: string)
    ensures result == ConcatLines(blocks)
  {
    var buffer := "";
    for i := 0 to |blocks|
      invariant buffer == ConcatLines(blocks[..i])
    {
      assert blocks[..i + 1][..i] == blocks[..i];
      buffer := buffer + blocks[i];
      buffer := buffer + "\n";
      if (i + 1) % FLUSH_INTERVAL == 0 {
        var currentValue := buffer;
        buffer := "";
        buffer := buffer + currentValue;
      }
    }
    assert blocks[..|blocks|] == blocks;
    result := buffer;
  }

  /** What `_gather_content_string` returns for a tree of the given total size. */
  function ContentText(size: nat, blocks: seq<string>): string
  {
    if size < MEDIUM_TREE_BYTES then Join(blocks, "\n") else ConcatLines(blocks)
  }

  /**
   * The three tiers agree up to one trailing newline: the two smaller tiers give the newline
   * join, the largest gives it followed by "\n"; with no blocks every tier gives "".
   */
  lemma TiersAgree(size: nat, blocks: seq<string>)
    ensures |blocks| == 0 ==> ContentText(size, blocks) == ""
    ensures |blocks| > 0 && size >= MEDIUM_TREE_BYTES ==> ContentText(size, blocks) == Join(blocks, "\n") + "\n"
  {
    ConcatLinesIsJoin(blocks);
  }

  /** `_gather_content_string`. */
  method GatherContentString(node: Node) returns (content: string)
    requires node.Valid()
    modifies node.Repr
    ensures node.Valid() && node.Repr == old(node.Repr)
    ensures content == ContentText(old(node.size), FileBlocks(old(node.Model())))
    ensures node.Model() == ClearLeaves(old(node.Model()))
  {
    var size := node.size;
    var blocks := GatherFileContents(node);
    if size < SMALL_TREE_BYTES {
      content := Join(blocks, "\n");
    } else if size < MEDIUM_TREE_BYTES {
      content := JoinCoalescing(blocks);
    } else {
      content := BufferedConcat(blocks);
    }
  }

  // ---------------------------------------------------------------------------------------
  // format_node

  /** The lines `format_node` adds after the header: the file count of a directory, or a file's name and line count. */
  function SummaryBody(t: Tree): string
  {
    if t.kind == Directory then "Files analyzed: " + DecimalString(t.fileCount) + "\n"
    else if t.kind == File then "File: " + t.name + "\n" + "Lines: " + Thousands(LineCount(ContentOf(t).value)) + "\n"
    else ""
  }

  /** The token line, added when the estimate is truthy. */
  function TokenLine(tokenEstimate: Option<string>): string
  {
    if Truthy(tokenEstimate) then "\nEstimated tokens: " + tokenEstimate.value else ""
  }

  /** The summary `format_node` returns, given the formatted token estimate. */
  function SummaryText(t: Tree, q: IngestionQuery, tokenEstimate: Option<string>): string
  {
    SummaryPrefix(q, t.kind == File) + SummaryBody(t) + TokenLine(tokenEstimate)
  }

  /** The summary, the tree and the content `format_node` returns for a node. */
  function FormatResult(t: Tree, q: IngestionQuery, totalTokens: nat, oneDecimal: (nat, nat) -> string): (string, string, string)
  {
    (SummaryText(t, q, FormatTokenCount(totalTokens, oneDecimal)),
     "Directory structure:\n" + CreateTree(q.slug, t, "", true),
     ContentText(t.size, FileBlocks(t)))
  }

  /** A directory summary gives its file count right after the header. */
  lemma DirectorySummary(t: Tree, q: IngestionQuery, tokenEstimate: Option<string>)
    requires t.kind == Directory
    ensures StartsWith(SummaryText(t, q, tokenEstimate), SummaryPrefix(q, false) + "Files analyzed: " + DecimalString(t.fileCount) + "\n")
  {
    ConcatEnds(SummaryPrefix(q, false) + SummaryBody(t), TokenLine(tokenEstimate));
  }

  /** A file summary gives the file's name right after the header, then its line count. */
  lemma FileSummary(t: Tree, q: IngestionQuery, tokenEstimate: Option<string>)
    requires t.kind == File
    ensures StartsWith(SummaryText(t, q, tokenEstimate), SummaryPrefix(q, true) + "File: " + t.name + "\n")
  {
    var head := SummaryPrefix(q, true) + "File: " + t.name + "\n";
    var lines := "Lines: " + Thousands(LineCount(ContentOf(t).value)) + "\n";
    var tail := TokenLine(tokenEstimate);
    assert SummaryBody(t) == "File: " + t.name + "\n" + lines;
    assert SummaryText(t, q, tokenEstimate) == head + (lines + tail);
    ConcatEnds(head, lines + tail);
  }

  /** A truthy estimate ends the summary as a token line; any other estimate adds nothing. */
  lemma TokenLineFacts(t: Tree, q: IngestionQuery, tokenEstimate: Option<string>)
    ensures Truthy(tokenEstimate) ==> EndsWith(SummaryText(t, q, tokenEstimate), "\nEstimated tokens: " + tokenEstimate.value)
    ensures !Truthy(tokenEstimate) ==> SummaryText(t, q, tokenEstimate) == SummaryPrefix(q, t.kind == File) + SummaryBody(t)
  {
    ConcatEnds(SummaryPrefix(q, t.kind == File) + SummaryBody(t), TokenLine(tokenEstimate));
  }

  /** The tree section opens with its title and the root's line, drawn as the last entry at the top level. */
  lemma TreeSectionHeader(slug: string, t: Tree)
    ensures StartsWith("Directory structure:\n" + CreateTree(slug, t, "", true),
                       "Directory structure:\n" + "└── " + DisplayName(slug, t) + "\n")
  {
    var rest := if t.kind == Directory && |t.children| > 0 then ChildTrees(slug, t.children, ChildPrefix("", true), 0) else "";
    assert CreateTree(slug, t, "", true) == ("└── " + DisplayName(slug, t) + "\n") + rest;
    assert "Directory structure:\n" + CreateTree(slug, t, "", true)
        == ("Directory structure:\n" + "└── " + DisplayName(slug, t) + "\n") + rest;
    ConcatEnds("Directory structure:\n" + "└── " + DisplayName(slug, t) + "\n", rest);
  }

  /** The tree `format_node` returns starts with its title and the last-entry connector of the root. */
  lemma TreeSectionStart(t: Tree, q: IngestionQuery, totalTokens: nat, oneDecimal: (nat, nat) -> string)
    ensures StartsWith(FormatResult(t, q, totalTokens, oneDecimal).1, "Directory structure:\n" + "└── ")
  {
    TreeSectionHeader(q.slug, t);
    var line := "Directory structure:\n" + "└── " + DisplayName(q.slug, t) + "\n";
    assert line == ("Directory structure:\n" + "└── ") + (DisplayName(q.slug, t) + "\n");
    StartsWithPrefix(FormatResult(t, q, totalTokens, oneDecimal).1, "Directory structure:\n" + "└── ", DisplayName(q.slug, t) + "\n");
  }

  /** The token line is in the summary exactly when the estimated total is positive. */
  lemma TokenLineWhenPositive(t: Tree, q: IngestionQuery, totalTokens: nat, oneDecimal: (nat, nat) -> string)
    ensures totalTokens > 0 ==>
      EndsWith(SummaryText(t, q, FormatTokenCount(totalTokens, oneDecimal)),
               "\nEstimated tokens: " + FormatTokenCount(totalTokens, oneDecimal).value)
    ensures totalTokens == 0 ==>
      SummaryText(t, q, FormatTokenCount(totalTokens, oneDecimal)) == SummaryPrefix(q, t.kind == File) + SummaryBody(t)
  {
    TokenCountSuffix(totalTokens, oneDecimal);
    TokenLineFacts(t, q, FormatTokenCount(totalTokens, oneDecimal));
  }

  /** Reading a node's content first changes nothing `format_node` returns. */
  lemma FormatAfterRead(t: Tree, q: IngestionQuery, totalTokens: nat, oneDecimal: (nat, nat) -> string)
    ensures FormatResult(AfterRead(t), q, totalTokens, oneDecimal) == FormatResult(t, q, totalTokens, oneDecimal)
    ensures ClearLeaves(AfterRead(t)) == ClearLeaves(t)
  {
    ReadIsIdempotent(t);
    assert CreateTree(q.slug, AfterRead(t), "", true) == CreateTree(q.slug, t, "", true);
    assert FileBlocks(AfterRead(t)) == FileBlocks(t);
  }

  /** `format_node`. */
  method FormatNode(node: Node, q: IngestionQuery, totalTokens: nat, oneDecimal: (nat, nat) -> string)
    returns (summary: string, tree: string, content: string)
    requires node.Valid()
    modifies node.Repr
    ensures node.Valid() && node.Repr == old(node.Repr)
    ensures (summary, tree, content) == FormatResult(old(node.Model()), q, totalTokens, oneDecimal)
    ensures node.Model() == ClearLeaves(old(node.Model()))
  {
    ghost var before := node.Model();
    summary := Summarize(node, q, totalTokens, oneDecimal);
    ghost var read := node.Model();
    FormatAfterRead(before, q, totalTokens, oneDecimal);
    assert FormatResult(read, q, totalTokens, oneDecimal) == FormatResult(before, q, totalTokens, oneDecimal);
    assert ClearLeaves(read) == ClearLeaves(before);
    var structure := CreateTreeStructure(q.slug, node, "", true);
    tree := "Directory structure:\n" + structure;
    content := GatherContentString(node);
  }

  /** The summary part of `format_node`; counting a file's lines reads (and caches) its content. */
  method Summarize(node: Node, q: IngestionQuery, totalTokens: nat, oneDecimal: (nat, nat) -> string)
    returns (summary: string)
    requires node.Valid()
    modifies node.Repr
    ensures node.Valid() && node.Repr == old(node.Repr) && node.children == old(node.children)
    ensures summary == SummaryText(old(node.Model()), q, FormatTokenCount(totalTokens, oneDecimal))
    ensures node.Model() == old(node.Model()) || node.Model() == AfterRead(old(node.Model()))
  {
    ghost var before := node.Model();
    var isSingleFile := node.kind == File;
    summary := SummaryPrefix(q, isSingleFile);
    if node.kind == Directory {
      summary := summary + ("Files analyzed: " + DecimalString(node.fileCount) + "\n");
    } else if node.kind == File {
      var text := node.Content();
      summary := summary + ("File: " + node.name + "\n" + "Lines: " + Thousands(LineCount(text.value)) + "\n");
    }
    assert summary == SummaryPrefix(q, before.kind == File) + SummaryBody(before);
    var tokenEstimate := FormatTokenCount(totalTokens, oneDecimal);
    if tokenEstimate.Some? && |tokenEstimate.value| > 0 {
      summary := summary + ("\nEstimated tokens: " + tokenEstimate.value);
    }
    assert summary == SummaryPrefix(q, before.kind == File) + SummaryBody(before) + TokenLine(tokenEstimate);
  }

}
