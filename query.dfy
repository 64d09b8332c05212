/** `IngestionQuery`: the parsed request the ingestion core reads. */
module Query {
  import opened Wrappers

  datatype IngestionQuery = IngestionQuery(
    slug: string,
    localPath: string,                     // where the repository or directory sits on disk
    userName: Option<string>,
    repoName: Option<string>,
    host: Option<string>,                  // remote host, lower-cased
    url: Option<string>,                   // "https://host/user/repo"
    subpath: string,                       // "/" by default
    urlType: Option<string>,               // `type`: "blob", "tree" or None
    branch: Option<string>,
    commit: Option<string>,
    tag: Option<string>,
    ignorePatterns: set<string>,
    includePatterns: Option<set<string>>,
    maxFileSize: nat)

  /** Python truthiness of an optional string: present and non-empty. */
  predicate Truthy(s: Option<string>)
  {
    s.Some? && |s.value| > 0
  }
}
