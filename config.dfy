/** The traversal limits of `gitingest.config`. */
module Config {
  /** Default per-file size cap of a query, in bytes (10 MiB). */
  const MAX_FILE_SIZE: nat := 10 * 1024 * 1024
  /** Deepest directory level that is still listed. */
  const MAX_DIRECTORY_DEPTH: nat := 20
  /** Most files (and symlinks) one traversal accepts. */
  const MAX_FILES: nat := 10000
  /** Most bytes of file content one traversal accepts (500 MiB). */
  const MAX_TOTAL_SIZE_BYTES: nat := 500 * 1024 * 1024
}
