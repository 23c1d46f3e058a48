/** Directory trees, as listings in name order, and what a walk may see of them. */
module Directory {
  import opened Wrappers

  /** The components of a workspace-relative path. */
  type Path = seq<string>

  /** A file: its size, the digest of its contents, its executable bit, whether it is
      valid UTF-8, and its lines when it is text (valid UTF-8 without NUL). */
  datatype FileData = FileData(size: nat, digest: nat, executable: bool, utf8: bool, text: Option<seq<string>>)

  /** `Unsafe` is a symbolic link or a special file. */
  datatype Node = File(data: FileData) | Dir(children: Listing) | Unsafe

  /** `sorted(os.listdir(...))` with what each name refers to. */
  datatype Listing = End | Entry(name: string, node: Node, rest: Listing)

  /** `is_permanently_excluded`: of a path and whether it is a directory. */
  type Exclusion = (Path, bool) -> bool

  predicate Visible(path: Path, node: Node, excluded: Exclusion) {
    !excluded(path, node.Dir?)
  }

  /** No visible link or special file. */
  predicate Safe(listing: Listing, base: Path, deep: bool, excluded: Exclusion) {
    match listing
    case End => true
    case Entry(name, node, rest) =>
      && Safe(rest, base, deep, excluded)
      && (Visible(base + [name], node, excluded) ==>
           !node.Unsafe? && (node.Dir? && deep ==> Safe(node.children, base + [name], deep, excluded)))
  }

  /** Some visible directory lies at the depth where a walk stops descending. */
  predicate TooDeep(listing: Listing, base: Path, depth: nat, max: nat, deep: bool, excluded: Exclusion) {
    match listing
    case End => false
    case Entry(name, node, rest) =>
      || TooDeep(rest, base, depth, max, deep, excluded)
      || (Visible(base + [name], node, excluded) && node.Dir? && deep &&
           (depth >= max || TooDeep(node.children, base + [name], depth + 1, max, deep, excluded)))
  }
}
