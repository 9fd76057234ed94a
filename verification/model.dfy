/** The values the scanner produces and the aggregator consumes: paths, dirty
    worktree items, the per-repository `Status`, and the errors the tool
    reports (src/main.rs:18-29). */
module Model {
  import opened Orders

  datatype Option<T> = None | Some(value: T)

  /** `anyhow::Result`: every failure of the tool carries an `Error`. */
  datatype Result<T> = Ok(value: T) | Err(error: Error)

  datatype Error =
    | LibraryError(message: string)
      /** A failed upstream lookup, wrapped with the branch and repository it concerns. */
    | UpstreamLookupFailed(branch: string, repo: Path, cause: Error)

  /** A filesystem path, as the sequence of its components. */
  datatype Path = Path(components: seq<string>)

  /** The last component, shown as the repository's name in the report. */
  function FileName(p: Path): string {
    if |p.components| == 0 then "" else p.components[|p.components| - 1]
  }

  function CharLess(a: char, b: char): bool {
    a < b
  }

  /** Lexicographic on characters (code points), which orders UTF-8 text as
      its bytes do. */
  function StrLess(a: string, b: string): bool {
    LexLess(a, b, CharLess)
  }

  /** Rust's order on paths: component by component. */
  function PathLess(p: Path, q: Path): bool {
    LexLess(p.components, q.components, StrLess)
  }

  /** The change kind of a dirty worktree item, in the declaration order of
      the repository library's enumeration (which its derived order follows). */
  datatype Summary = Removed | Added | Modified | TypeChange | Renamed | Copied | IntentToAdd | Conflict

  function Rank(s: Summary): nat {
    match s
    case Removed => 0
    case Added => 1
    case Modified => 2
    case TypeChange => 3
    case Renamed => 4
    case Copied => 5
    case IntentToAdd => 6
    case Conflict => 7
  }

  /** Rust's order on `Option<Summary>`: `None` first, then by variant. */
  function SummaryLess(a: Option<Summary>, b: Option<Summary>): bool {
    match (a, b)
    case (None, Some(_)) => true
    case (Some(x), Some(y)) => Rank(x) < Rank(y)
    case _ => false
  }

  /** A dirty worktree item: what the report and the sort observe of it. */
  datatype Item = Item(relaPath: string, summary: Option<Summary>)

  /** The sort key of src/main.rs:41-43: relative path, then summary. */
  function ItemLess(a: Item, b: Item): bool {
    StrLess(a.relaPath, b.relaPath) || (a.relaPath == b.relaPath && SummaryLess(a.summary, b.summary))
  }

  datatype Status = Status(dirty: seq<Item>, untrackedBranches: seq<string>, unpushedBranches: seq<string>)

  /** `Status::default()`. */
  const EmptyStatus := Status([], [], [])

  /** `Status::is_clean`: equality with the default status. */
  function IsClean(s: Status): (clean: bool)
    ensures clean <==> |s.dirty| == 0 && |s.untrackedBranches| == 0 && |s.unpushedBranches| == 0
  {
    s == EmptyStatus
  }

  lemma StrLessTotal()
    ensures StrictTotalOrder(StrLess)
  {
    LexStrictTotal(CharLess);
    forall a, b, c | StrLess(a, b) && StrLess(b, c) ensures StrLess(a, c) { }
  }

  lemma PathLessTotal()
    ensures StrictTotalOrder(PathLess)
  {
    StrLessTotal();
    LexStrictTotal(StrLess);
    forall p, q, r | PathLess(p, q) && PathLess(q, r) ensures PathLess(p, r) { }
    forall p, q | p != q ensures PathLess(p, q) || PathLess(q, p) {
      assert p.components != q.components;
    }
  }

  lemma SummaryLessTotal()
    ensures StrictTotalOrder(SummaryLess)
  {
  }

  lemma ItemLessTotal()
    ensures StrictTotalOrder(ItemLess)
  {
    StrLessTotal();
    SummaryLessTotal();
  }
}
