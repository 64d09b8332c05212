/**
 * `gitingest/query_parser.py`: the part of URL parsing that works on the path of a repository
 * URL once host, user and repository are known (which ref the path names, and which sub-path
 * follows it), and the slug rule for local directories.
 */
module QueryParser {
  import opened Wrappers
  import opened Strings
  import opened Query
  import Config

  // ---------------------------------------------------------------------------------------
  // Commit hashes

  /**
   * The commit check `_is_valid_git_commit_hash` lives outside this model and comes in as a
   * parameter `isCommit`; the examples below use the usual rule, forty hexadecimal digits.
   */

  /** A character of Python's `string.hexdigits`. */
  predicate IsHexDigit(c: char)
  {
    '0' <= c <= '9' || 'a' <= c <= 'f' || 'A' <= c <= 'F'
  }

  /** Exactly forty hexadecimal digits. */
  predicate IsCommitHash(s: string)
  {
    |s| == 40 && forall i :: 0 <= i < |s| ==> IsHexDigit(s[i])
  }

  // ---------------------------------------------------------------------------------------
  // Branch or tag lookup

  /** The first `n` path parts joined back with "/", as `"/".join(candidate_parts)` builds them. */
  function Candidate(parts: seq<string>, n: nat): string
    requires n <= |parts|
  {
    Join(parts[..n], "/")
  }

  /** The length of the shortest leading run of more than `k` parts that names a ref. */
  function ShortestRefFrom(parts: seq<string>, refs: seq<string>, k: nat): (r: Option<nat>)
    requires k <= |parts|
    ensures r.Some? ==> k < r.value <= |parts|
    decreases |parts| - k
  {
    if k == |parts| then None
    else if Candidate(parts, k + 1) in refs then Some(k + 1)
    else ShortestRefFrom(parts, refs, k + 1)
  }

  /** The length of the shortest non-empty leading run of parts that names a ref, if any. */
  function ShortestRef(parts: seq<string>, refs: seq<string>): (r: Option<nat>)
    ensures r.Some? ==> 0 < r.value <= |parts|
  {
    ShortestRefFrom(parts, refs, 0)
  }

  lemma {:induction false} ShortestRefFromMeaning(parts: seq<string>, refs: seq<string>, k: nat)
    requires k <= |parts|
    ensures var r := ShortestRefFrom(parts, refs, k);
      && (r.Some? ==> k < r.value <= |parts| && Candidate(parts, r.value) in refs
                      && forall m :: k < m < r.value ==> Candidate(parts, m) !in refs)
      && (r.None? <==> forall m :: k < m <= |parts| ==> Candidate(parts, m) !in refs)
    decreases |parts| - k
  {
    if k < |parts| && Candidate(parts, k + 1) !in refs {
      ShortestRefFromMeaning(parts, refs, k + 1);
      var r := ShortestRefFrom(parts, refs, k + 1);
      if r.None? {
        forall m | k < m <= |parts| ensures Candidate(parts, m) !in refs {
          if m > k + 1 {
            assert k + 1 < m <= |parts|;
          }
        }
      }
    }
  }

  /**
   * The ref `ShortestRef` finds is named by a leading run of parts, and no shorter leading run
   * names one; it finds nothing exactly when no leading run names a ref.
   */
  lemma ShortestRefMeaning(parts: seq<string>, refs: seq<string>)
    ensures var r := ShortestRef(parts, refs);
      && (r.Some? ==> 1 <= r.value <= |parts| && Candidate(parts, r.value) in refs
                      && forall m :: 1 <= m < r.value ==> Candidate(parts, m) !in refs)
      && (r.None? <==> forall m :: 1 <= m <= |parts| ==> Candidate(parts, m) !in refs)
  {
    ShortestRefFromMeaning(parts, refs, 0);
  }

  /**
   * `_configure_branch_or_tag` once the ref type is known to be valid: with the remote's list of
   * refs, the shortest leading run that names one is consumed; if fetching the list failed, the
   * first part is consumed and taken as the ref. The result is the ref found and the parts left.
   */
  function FindRef(parts: seq<string>, fetched: Result<seq<string>, string>): (Option<string>, seq<string>)
  {
    if fetched.Err? then
      if |parts| > 0 then (Some(parts[0]), parts[1..]) else (None, parts)
    else
      match ShortestRef(parts, fetched.value)
      case Some(n) => (Some(Candidate(parts, n)), parts[n..])
      case None => (None, parts)
  }

  /** Joining a non-empty head and a non-empty tail of the parts, with the separator between, gives the join of all. */
  lemma {:induction false} JoinSplit(parts: seq<string>, n: nat, sep: string)
    requires 0 < n < |parts|
    ensures Join(parts[..n], sep) + sep + Join(parts[n..], sep) == Join(parts, sep)
    decreases |parts|
  {
    var last := parts[|parts| - 1];
    var front := parts[..|parts| - 1];
    if n == |parts| - 1 {
      assert parts[n..] == [last];
    } else {
      JoinSplit(front, n, sep);
      assert front[..n] == parts[..n];
      assert parts[n..] == front[n..] + [last];
      JoinSnoc(front[n..], last, sep);
    }
  }

  /**
   * The parts `FindRef` consumes are a leading run of the input and the rest is left in order;
   * the ref it returns is that run joined with "/", and with the remote's list it is a listed
   * ref. When it finds nothing, nothing is consumed.
   */
  lemma FindRefConsumesItsRun(parts: seq<string>, fetched: Result<seq<string>, string>)
    ensures var (ref, rest) := FindRef(parts, fetched);
      var used := |parts| - |rest|;
      && |rest| <= |parts| && rest == parts[used..]
      && (ref.None? ==> rest == parts)
      && (ref.Some? ==> 0 < used && ref.value == Candidate(parts, used))
      && (ref.Some? && fetched.Ok? ==> ref.value in fetched.value)
  {
    if fetched.Ok? {
      ShortestRefMeaning(parts, fetched.value);
    } else if |parts| > 0 {
      assert parts[..1] == [parts[0]];
    }
  }

  /** The ref `FindRef` returns, "/" and the parts it leaves, joined, give back the whole path. */
  lemma FindRefReassembles(parts: seq<string>, fetched: Result<seq<string>, string>)
    ensures var (ref, rest) := FindRef(parts, fetched);
      && (ref.Some? && |rest| > 0 ==> ref.value + "/" + Join(rest, "/") == Join(parts, "/"))
      && (ref.Some? && |rest| == 0 ==> ref.value == Join(parts, "/"))
  {
    var (ref, rest) := FindRef(parts, fetched);
    FindRefConsumesItsRun(parts, fetched);
    var used := |parts| - |rest|;
    if ref.Some? {
      if |rest| > 0 {
        JoinSplit(parts, used, "/");
      } else {
        assert parts[..used] == parts;
      }
    }
  }

  /**
   * `_configure_branch_or_tag`: refuses a ref type other than "branches" or "tags"; otherwise
   * walks the parts, growing the candidate one part at a time, and stops at the first candidate
   * the remote knows.
   */
  method ConfigureBranchOrTag(parts: seq<string>, refType: string, fetched: Result<seq<string>, string>)
    returns (r: Result<Option<string>, string>, rest: seq<string>)
    ensures refType != "branches" && refType != "tags" ==>
              r == Err("Invalid reference type: " + refType) && rest == parts
    ensures (refType == "branches" || refType == "tags") ==>
              r == Ok(FindRef(parts, fetched).0) && rest == FindRef(parts, fetched).1
  {
    if refType != "branches" && refType != "tags" {
      return Err("Invalid reference type: " + refType), parts;
    }
    if fetched.Err? {
      if |parts| > 0 {
        return Ok(Some(parts[0])), parts[1..];
      }
      return Ok(None), parts;
    }
    var refs := fetched.value;
    var candidateParts: seq<string> := [];
    var i := 0;
    while i < |parts|
      invariant 0 <= i <= |parts|
      invariant candidateParts == parts[..i]
      invariant ShortestRef(parts, refs) == ShortestRefFrom(parts, refs, i)
    {
      candidateParts := candidateParts + [parts[i]];
      var candidateName := Join(candidateParts, "/");
      assert candidateParts == parts[..i + 1];
      if candidateName in refs {
        return Ok(Some(candidateName)), parts[|candidateParts|..];
      }
      i := i + 1;
    }
    return Ok(None), parts;
  }

  // ---------------------------------------------------------------------------------------
  // The path of a repository URL

  /** `path.strip("/").split("/")[2:]`: the path parts after user and repository. */
  function RemainingParts(path: string): seq<string>
  {
    var parts := SplitOn(Strip(path, '/'), {'/'});
    if |parts| >= 2 then parts[2..] else []
  }

  /** What the ref lookup settles: the commit, tag and branch set on the query, and the parts left over. */
  datatype RefResolution = RefResolution(commit: Option<string>, tag: Option<string>, branch: Option<string>, leftover: seq<string>)

  /**
   * The parts after "tree" or "blob": a commit hash is taken as the commit; otherwise tags are
   * tried, and branches only when no truthy tag was found.
   */
  function ResolveRefs(after: seq<string>, isCommit: string -> bool, tags: Result<seq<string>, string>, branches: Result<seq<string>, string>): RefResolution
    requires |after| > 0
  {
    if isCommit(after[0]) then RefResolution(Some(after[0]), None, None, after[1..])
    else
      var (tag, rest) := FindRef(after, tags);
      if Truthy(tag) then RefResolution(None, tag, None, rest)
      else
        var (branch, rest') := FindRef(rest, branches);
        RefResolution(None, tag, branch, rest')
  }

  /** The sub-path: the leftover parts after "/", when a commit, branch or tag was found. */
  function SubpathOf(r: RefResolution): string
  {
    if |r.leftover| > 0 && (Truthy(r.commit) || Truthy(r.branch) || Truthy(r.tag))
    then "/" + Join(r.leftover, "/")
    else "/"
  }

  /** The query `parse_remote_repo` returns, from the host as written, the URL path, and the user and repository names. */
  function RemoteQuery(netloc: string, path: string, userName: string, repoName: string, tmpDir: string,
                       isCommit: string -> bool, tags: Result<seq<string>, string>, branches: Result<seq<string>, string>): IngestionQuery
  {
    var host := Lower(netloc);
    var slug := userName + "-" + repoName;
    var url := "https://" + host + "/" + userName + "/" + repoName;
    var q := IngestionQuery(slug, tmpDir + "/" + slug, Some(userName), Some(repoName), Some(host), Some(url),
                            "/", None, None, None, None, {}, None, Config.MAX_FILE_SIZE);
    var remaining := RemainingParts(path);
    if |remaining| <= 1 then q
    else
      var possibleType := remaining[0];
      if possibleType == "issues" || possibleType == "pull" then q
      else if possibleType != "tree" && possibleType != "blob" then q
      else
        var r := ResolveRefs(remaining[1..], isCommit, tags, branches);
        q.(urlType := Some(possibleType), commit := r.commit, tag := r.tag, branch := r.branch, subpath := SubpathOf(r))
  }

  /**
   * `parse_remote_repo` from line 64 on: builds the query, pops the type and the ref off the
   * remaining path parts, and appends what is left to the sub-path.
   */
  method ParseRemoteRepoTail(netloc: string, path: string, userName: string, repoName: string, tmpDir: string,
                             isCommit: string -> bool, tags: Result<seq<string>, string>, branches: Result<seq<string>, string>)
    returns (q: IngestionQuery)
    ensures q == RemoteQuery(netloc, path, userName, repoName, tmpDir, isCommit, tags, branches)
  {
    var host := Lower(netloc);
    var slug := userName + "-" + repoName;
    var url := "https://" + host + "/" + userName + "/" + repoName;
    q := IngestionQuery(slug, tmpDir + "/" + slug, Some(userName), Some(repoName), Some(host), Some(url),
                        "/", None, None, None, None, {}, None, Config.MAX_FILE_SIZE);
    var remainingParts := RemainingParts(path);
    if |remainingParts| == 0 {
      return;
    }
    var possibleType := remainingParts[0];
    remainingParts := remainingParts[1..];
    if |remainingParts| == 0 {
      return;
    }
    if possibleType == "issues" || possibleType == "pull" {
      return;
    }
    if possibleType != "tree" && possibleType != "blob" {
      return;
    }
    q := q.(urlType := Some(possibleType));
    var commitOrBranchOrTag := remainingParts[0];
    if isCommit(commitOrBranchOrTag) {
      q := q.(commit := Some(commitOrBranchOrTag));
      remainingParts := remainingParts[1..];
    } else {
      var tag, afterTag := ConfigureBranchOrTag(remainingParts, "tags", tags);
      q := q.(tag := tag.value);
      remainingParts := afterTag;
      if !Truthy(q.tag) {
        var branch, afterBranch := ConfigureBranchOrTag(remainingParts, "branches", branches);
        q := q.(branch := branch.value);
        remainingParts := afterBranch;
      }
    }
    if |remainingParts| > 0 && (Truthy(q.commit) || Truthy(q.branch) || Truthy(q.tag)) {
      q := q.(subpath := q.subpath + Join(remainingParts, "/"));
    }
  }

  /**
   * The query names the repository: slug "user-repo", URL "https://host/user/repo" with the host
   * lower-cased, and a clone directory named by the slug.
   */
  lemma RemoteQueryNames(netloc: string, path: string, userName: string, repoName: string, tmpDir: string, isCommit: string -> bool,
                         tags: Result<seq<string>, string>, branches: Result<seq<string>, string>)
    ensures var q := RemoteQuery(netloc, path, userName, repoName, tmpDir, isCommit, tags, branches);
      && q.slug == userName + "-" + repoName
      && q.userName == Some(userName) && q.repoName == Some(repoName)
      && q.host == Some(Lower(netloc))
      && (forall i :: 0 <= i < |netloc| ==> !('A' <= q.host.value[i] <= 'Z'))
      && q.url == Some("https://" + q.host.value + "/" + userName + "/" + repoName)
      && EndsWith(q.localPath, "/" + q.slug)
      && q.ignorePatterns == {} && q.includePatterns.None? && q.maxFileSize == Config.MAX_FILE_SIZE
  {
    var q := RemoteQuery(netloc, path, userName, repoName, tmpDir, isCommit, tags, branches);
    ConcatEnds(tmpDir, "/" + q.slug);
    assert tmpDir + "/" + q.slug == tmpDir + ("/" + q.slug);
  }

  /**
   * The type is set only to "tree" or "blob", and only when it is followed by at least one more
   * part; without a type the query stays at the repository root with no commit, branch or tag.
   * A commit is a hash taken from the part after the type, and then neither tag nor branch is
   * set; a truthy tag leaves the branch unset.
   */
  lemma RemoteQueryRouting(netloc: string, path: string, userName: string, repoName: string, tmpDir: string, isCommit: string -> bool,
                           tags: Result<seq<string>, string>, branches: Result<seq<string>, string>)
    ensures var q := RemoteQuery(netloc, path, userName, repoName, tmpDir, isCommit, tags, branches);
      var remaining := RemainingParts(path);
      && (q.urlType.Some? <==> |remaining| >= 2 && (remaining[0] == "tree" || remaining[0] == "blob"))
      && (q.urlType.Some? ==> q.urlType.value == remaining[0])
      && (q.urlType.None? ==> q.subpath == "/" && q.commit.None? && q.branch.None? && q.tag.None?)
      && (q.commit.Some? ==> isCommit(q.commit.value) && q.commit.value == remaining[1]
                             && q.branch.None? && q.tag.None?)
      && (q.urlType.Some? && isCommit(remaining[1]) ==> q.commit == Some(remaining[1]))
      && (Truthy(q.tag) ==> q.branch.None?)
      && (!Truthy(q.commit) && !Truthy(q.branch) && !Truthy(q.tag) ==> q.subpath == "/")
  {
  }

  /**
   * With no empty part, a ref found is non-empty and, with "/" and the rest, rebuilds the path,
   * whether the remote's list was fetched or the first part was taken after a failed fetch.
   */
  lemma FoundRefReassembles(parts: seq<string>, fetched: Result<seq<string>, string>)
    requires forall i :: 0 <= i < |parts| ==> parts[i] != ""
    ensures var (ref, rest) := FindRef(parts, fetched);
      && (ref.Some? ==> Truthy(ref))
      && (ref.Some? && |rest| > 0 ==> ref.value + "/" + Join(rest, "/") == Join(parts, "/"))
      && (ref.Some? && |rest| == 0 ==> ref.value == Join(parts, "/"))
      && (ref.None? ==> rest == parts)
  {
    var (ref, rest) := FindRef(parts, fetched);
    FindRefConsumesItsRun(parts, fetched);
    FindRefReassembles(parts, fetched);
    if ref.Some? {
      NonEmptyRun(parts, |parts| - |rest|);
    }
  }

  /** The ref the query reports: the commit, else the tag, else the branch. */
  function RefOf(r: RefResolution): Option<string>
  {
    if r.commit.Some? then r.commit else if r.tag.Some? then r.tag else r.branch
  }

  /**
   * The ref and the sub-path put back together give the path after the type; with no ref the
   * sub-path is "/" and nothing was consumed.
   */
  predicate Reassembles(after: seq<string>, r: RefResolution)
  {
    var ref := RefOf(r);
    && (ref.Some? && |r.leftover| > 0 ==> ref.value + SubpathOf(r) == Join(after, "/"))
    && (ref.Some? && |r.leftover| == 0 ==> ref.value == Join(after, "/") && SubpathOf(r) == "/")
    && (ref.None? ==> SubpathOf(r) == "/" && r.leftover == after)
  }

  lemma ReassemblesFromRun(after: seq<string>, r: RefResolution)
    requires RefOf(r).Some? ==> Truthy(RefOf(r))
    requires RefOf(r).Some? && |r.leftover| > 0 ==> RefOf(r).value + "/" + Join(r.leftover, "/") == Join(after, "/")
    requires RefOf(r).Some? && |r.leftover| == 0 ==> RefOf(r).value == Join(after, "/")
    requires RefOf(r).None? ==> r.leftover == after
    ensures Reassembles(after, r)
  {
    var ref := RefOf(r);
    if ref.Some? && |r.leftover| > 0 {
      assert SubpathOf(r) == "/" + Join(r.leftover, "/");
    }
  }

  /**
   * When no path part is empty, the ref found and the sub-path put back together give the path
   * after the type: "feature/fix1" and "/src" from "feature/fix1/src". This holds whether the
   * ref lists were fetched or a failed fetch made the first part the ref. With no ref found the
   * sub-path stays "/".
   */
  lemma RefAndSubpathReassemble(after: seq<string>, isCommit: string -> bool, tags: Result<seq<string>, string>, branches: Result<seq<string>, string>)
    requires |after| > 0
    requires forall i :: 0 <= i < |after| ==> after[i] != ""
    ensures Reassembles(after, ResolveRefs(after, isCommit, tags, branches))
  {
    var r := ResolveRefs(after, isCommit, tags, branches);
    if isCommit(after[0]) {
      if |after| > 1 {
        JoinSplit(after, 1, "/");
        assert after[..1] == [after[0]];
      }
      ReassemblesFromRun(after, r);
    } else {
      var (tag, rest) := FindRef(after, tags);
      FoundRefReassembles(after, tags);
      if tag.Some? {
        assert r == RefResolution(None, tag, None, rest);
        ReassemblesFromRun(after, r);
      } else {
        var (branch, rest') := FindRef(after, branches);
        FoundRefReassembles(after, branches);
        assert r == RefResolution(None, None, branch, rest');
        ReassemblesFromRun(after, r);
      }
    }
  }

  /** A leading run of non-empty parts joins to a non-empty string. */
  lemma {:induction false} NonEmptyRun(parts: seq<string>, n: nat)
    requires 0 < n <= |parts|
    requires forall i :: 0 <= i < |parts| ==> parts[i] != ""
    ensures |Candidate(parts, n)| > 0
  {
    JoinStartsWithFirst(parts[..n], "/");
    assert parts[..n][0] == parts[0];
  }

  /** "/tree/feature/fix1/src" with branches feature/fix1, main, feature-branch and fix: branch "feature/fix1", sub-path "/src". */
  lemma FeatureBranchExample()
    ensures var r := ResolveRefs(["feature", "fix1", "src"], IsCommitHash, Ok([]), Ok(["feature/fix1", "main", "feature-branch", "fix"]));
      r.branch == Some("feature/fix1") && r.tag.None? && r.commit.None? && SubpathOf(r) == "/src"
  {
    var parts := ["feature", "fix1", "src"];
    var refs := ["feature/fix1", "main", "feature-branch", "fix"];
    assert ShortestRef(parts, []) == None by {
      ShortestRefMeaning(parts, []);
    }
    assert Candidate(parts, 1) == "feature" by {
      assert parts[..1] == ["feature"];
    }
    assert Candidate(parts, 2) == "feature/fix1" by {
      assert parts[..2] == ["feature", "fix1"];
      assert parts[..2][..1] == ["feature"];
    }
    assert ShortestRef(parts, refs) == Some(2);
    assert parts[2..] == ["src"];
  }

  /** "/tree/nonexistent-branch/src": no ref is found, so neither branch nor sub-path is set. */
  lemma UnknownBranchExample()
    ensures var r := ResolveRefs(["nonexistent-branch", "src"], IsCommitHash, Ok([]), Ok(["feature/fix1", "main", "feature-branch", "fix"]));
      r.branch.None? && r.tag.None? && r.commit.None? && SubpathOf(r) == "/"
  {
    var parts := ["nonexistent-branch", "src"];
    var refs := ["feature/fix1", "main", "feature-branch", "fix"];
    ShortestRefMeaning(parts, []);
    assert Candidate(parts, 1) == "nonexistent-branch" by {
      assert parts[..1] == ["nonexistent-branch"];
    }
    assert Candidate(parts, 2) == "nonexistent-branch/src" by {
      assert parts[..2] == parts;
      assert parts[..1] == ["nonexistent-branch"];
    }
    assert "nonexistent-branch/src"[0] == 'n';
    assert ShortestRef(parts, refs) == None;
  }

  /** "/tree/" followed by a forty-digit hash: the hash is the commit, and no branch is looked up. */
  lemma CommitExample()
    ensures var r := ResolveRefs(["abcd1234abcd1234abcd1234abcd1234abcd1234"], IsCommitHash, Ok([]), Ok(["main", "dev", "feature-branch"]));
      r.commit == Some("abcd1234abcd1234abcd1234abcd1234abcd1234") && r.branch.None? && r.tag.None? && SubpathOf(r) == "/"
  {
    var h := "abcd1234abcd1234abcd1234abcd1234abcd1234";
    assert IsCommitHash(h) by {
      assert |h| == 40;
      forall i | 0 <= i < |h| ensures IsHexDigit(h[i]) {
        assert h[i] in "abcd1234";
      }
    }
  }

  // ---------------------------------------------------------------------------------------
  // Local directories

  /** The slug of a local directory: the resolved directory's name for ".", else the path without leading and trailing "/". */
  function LocalSlug(pathStr: string, resolvedName: string): string
  {
    if pathStr == "." then resolvedName else Strip(pathStr, '/')
  }

  /**
   * For "." the slug is the name of the resolved directory; for any other path it is the path
   * itself with only "/" removed, and only at its two ends.
   */
  lemma LocalSlugFacts(pathStr: string, resolvedName: string)
    ensures var slug := LocalSlug(pathStr, resolvedName);
      && (pathStr == "." ==> slug == resolvedName)
      && (pathStr != "." ==>
            && (|slug| == 0 || (slug[0] != '/' && slug[|slug| - 1] != '/'))
            && exists i, j :: 0 <= i <= j <= |pathStr| && slug == pathStr[i..j]
                 && (forall k :: 0 <= k < i ==> pathStr[k] == '/')
                 && (forall k :: j <= k < |pathStr| ==> pathStr[k] == '/'))
  {
    if pathStr != "." {
      var i, j := StripIsInfix(pathStr, '/');
      assert LocalSlug(pathStr, resolvedName) == pathStr[i..j];
    }
  }

  /** `parse_local_dir_path`: the resolved path and the slug; path resolution is the caller's. */
  function ParseLocalDirPath(pathStr: string, resolvedPath: string, resolvedName: string): (q: IngestionQuery)
    ensures q.localPath == resolvedPath && q.slug == LocalSlug(pathStr, resolvedName)
    ensures q.userName.None? && q.subpath == "/" && q.urlType.None?
  {
    IngestionQuery(LocalSlug(pathStr, resolvedName), resolvedPath, None, None, None, None,
                   "/", None, None, None, None, {}, None, Config.MAX_FILE_SIZE)
  }

  /** "/home/user/project" has the slug "home/user/project". */
  lemma AbsolutePathSlugExample(resolvedName: string)
    ensures LocalSlug("/home/user/project", resolvedName) == "home/user/project"
  {
    assert "/home/user/project"[1..] == "home/user/project";
  }
}
