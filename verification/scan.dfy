/** `scan` (src/main.rs:31-99): open one directory, list its dirty worktree
    items in sorted order, and classify each local branch as untracked,
    unpushed or pushed. The repository library is replaced by the values it
    would report for the directory. */
module Scanner {
  import opened Orders
  import opened Model

  datatype ObjectId = ObjectId(hash: seq<bv8>)

  /** Resolving a configured upstream name to a reference. */
  datatype Lookup = Found(id: ObjectId) | NotFound | LookupFailed(cause: Error)

  /** One direction's upstream: none configured, a configured name that could
      not be read, or a configured name and the result of looking it up. */
  datatype Tracking = NotConfigured | NameError(error: Error) | Configured(lookup: Lookup)

  datatype Branch = Branch(name: string, id: ObjectId, fetch: Tracking, push: Tracking)

  /** An opened repository: its worktree status stream (each item may fail)
      and its local branches, in the order the library yields them. */
  datatype Repo = Repo(worktree: Result<seq<Result<Item>>>, branches: Result<seq<Branch>>)

  /** The result of opening a directory as a repository. */
  datatype OpenResult = NotARepository | OpenFailed(error: Error) | Opened(repo: Repo)

  datatype Direction = Fetch | Push

  function TrackingIn(b: Branch, d: Direction): Tracking {
    match d
    case Fetch => b.fetch
    case Push => b.push
  }

  /* ---------- the loop of src/main.rs:55-89, step by step ---------- */

  datatype Step = Continue(pushed: Option<bool>) | Break(pushed: Option<bool>) | Abort(error: Error)

  /** One iteration of the direction loop. */
  function Visit(b: Branch, d: Direction, pushed: Option<bool>, repo: Path): Step {
    match TrackingIn(b, d)
    case NotConfigured => Continue(pushed)
    case NameError(e) => Abort(e)
    case Configured(lookup) =>
      match lookup
      case Found(id) => if b.id == id then Break(Some(true)) else Continue(Some(false))
      case NotFound => Continue(Some(false))
      case LookupFailed(c) => Abort(UpstreamLookupFailed(b.name, repo, c))
  }

  function Walk(b: Branch, dirs: seq<Direction>, pushed: Option<bool>, repo: Path): Result<Option<bool>>
    decreases |dirs|
  {
    if |dirs| == 0 then Ok(pushed)
    else
      match Visit(b, dirs[0], pushed, repo)
      case Continue(p) => Walk(b, dirs[1..], p, repo)
      case Break(p) => Ok(p)
      case Abort(e) => Err(e)
  }

  /* ---------- what the loop decides, stated directly ---------- */

  predicate Matches(t: Tracking, id: ObjectId) {
    t == Configured(Found(id))
  }

  /** A direction whose examination fails the scan. */
  predicate Broken(t: Tracking) {
    t.NameError? || (t.Configured? && t.lookup.LookupFailed?)
  }

  /** The error a broken direction produces: a name error as is, a lookup
      error with the branch and repository as context. */
  function Failure(t: Tracking, b: Branch, repo: Path): Error
    requires Broken(t)
  {
    if t.NameError? then t.error else UpstreamLookupFailed(b.name, repo, t.lookup.cause)
  }

  /** Fetch is always examined; Push only when Fetch did not match. */
  predicate Aborts(b: Branch) {
    Broken(b.fetch) || (!Matches(b.fetch, b.id) && Broken(b.push))
  }

  predicate IsUntracked(b: Branch) {
    b.fetch.NotConfigured? && b.push.NotConfigured?
  }

  predicate IsPushed(b: Branch) {
    Matches(b.fetch, b.id) || (!Broken(b.fetch) && Matches(b.push, b.id))
  }

  /** Some upstream is configured, none matches, and nothing failed; this
      includes an upstream whose reference is not found. */
  predicate IsUnpushed(b: Branch) {
    && !Aborts(b)
    && (b.fetch.Configured? || b.push.Configured?)
    && !Matches(b.fetch, b.id)
    && !Matches(b.push, b.id)
  }

  /** The value of `pushed` after the direction loop, or the error that ends the scan. */
  function Classify(b: Branch, repo: Path): (r: Result<Option<bool>>)
    ensures r.Err? <==> Aborts(b)
    ensures r == Ok(None) <==> IsUntracked(b)
    ensures r == Ok(Some(true)) <==> IsPushed(b)
    ensures r == Ok(Some(false)) <==> IsUnpushed(b)
    ensures r.Err? ==> r.error == if Broken(b.fetch) then Failure(b.fetch, b, repo) else Failure(b.push, b, repo)
  {
    Walk(b, [Fetch, Push], None, repo)
  }

  /** Every branch falls in exactly one class. */
  lemma ClassesPartition(b: Branch)
    ensures Aborts(b) || IsUntracked(b) || IsPushed(b) || IsUnpushed(b)
    ensures !(IsUntracked(b) && IsUnpushed(b))
    ensures !(IsUntracked(b) && IsPushed(b))
    ensures !(IsPushed(b) && IsUnpushed(b))
    ensures Aborts(b) ==> !IsUntracked(b) && !IsPushed(b) && !IsUnpushed(b)
  {
  }

  /** A configured upstream whose reference does not exist makes the branch
      unpushed, not untracked, unless the other direction matches or fails. */
  lemma NotFoundIsUnpushed(b: Branch, repo: Path)
    requires b.fetch == Configured(NotFound) || b.push == Configured(NotFound)
    requires !Matches(b.fetch, b.id) && !Matches(b.push, b.id)
    requires !Broken(b.fetch) && !Broken(b.push)
    ensures Classify(b, repo) == Ok(Some(false))
  {
  }

  /** A Fetch match ends the loop: the Push direction is never looked at. */
  lemma FetchMatchSkipsPush(b: Branch, push: Tracking, repo: Path)
    requires Matches(b.fetch, b.id)
    ensures Classify(b, repo) == Ok(Some(true))
    ensures Classify(b.(push := push), repo) == Classify(b, repo)
  {
  }

  /* ---------- the branch loop of src/main.rs:50-96 ---------- */

  datatype BranchLists = BranchLists(untracked: seq<string>, unpushed: seq<string>)

  /** Names of the branches satisfying `keep`, in enumeration order. */
  function Names(bs: seq<Branch>, keep: Branch -> bool): (names: seq<string>)
    ensures |names| <= |bs|
  {
    if |bs| == 0 then []
    else (if keep(bs[0]) then [bs[0].name] else []) + Names(bs[1..], keep)
  }

  /** The first branch whose classification fails, if any. */
  predicate FirstAbortAt(bs: seq<Branch>, i: int) {
    0 <= i < |bs| && Aborts(bs[i]) && forall j :: 0 <= j < i ==> !Aborts(bs[j])
  }

  function ScanBranches(bs: seq<Branch>, repo: Path): (r: Result<BranchLists>)
    ensures r.Ok? <==> forall i :: 0 <= i < |bs| ==> !Aborts(bs[i])
    ensures r.Err? ==> exists i :: FirstAbortAt(bs, i) && Classify(bs[i], repo) == Err(r.error)
    ensures r.Ok? ==> r.value.untracked == Names(bs, IsUntracked)
    ensures r.Ok? ==> r.value.unpushed == Names(bs, IsUnpushed)
    decreases |bs|
  {
    if |bs| == 0 then Ok(BranchLists([], []))
    else
      match Classify(bs[0], repo)
      case Err(e) =>
        assert FirstAbortAt(bs, 0);
        Err(e)
      case Ok(pushed) =>
        match ScanBranches(bs[1..], repo)
        case Err(e) =>
          ghost var i :| FirstAbortAt(bs[1..], i) && Classify(bs[1..][i], repo) == Err(e);
          assert FirstAbortAt(bs, i + 1);
          Err(e)
        case Ok(lists) =>
          match pushed
          case None => Ok(lists.(untracked := [bs[0].name] + lists.untracked))
          case Some(false) => Ok(lists.(unpushed := [bs[0].name] + lists.unpushed))
          case Some(true) => Ok(lists)
  }

  /** On success every branch is accounted for exactly once: untracked,
      unpushed or pushed. */
  lemma {:induction false} BranchesPartitioned(bs: seq<Branch>, repo: Path)
    requires ScanBranches(bs, repo).Ok?
    ensures var lists := ScanBranches(bs, repo).value;
      |lists.untracked| + |lists.unpushed| + |Names(bs, IsPushed)| == |bs|
    decreases |bs|
  {
    if |bs| > 0 {
      ClassesPartition(bs[0]);
      BranchesPartitioned(bs[1..], repo);
    }
  }

  /* ---------- dirty items, src/main.rs:37-43 ---------- */

  /** `collect::<Result<Vec<_>, _>>()`: all items, or the first error. */
  function CollectItems(stream: seq<Result<Item>>): (r: Result<seq<Item>>)
    ensures r.Ok? <==> forall i :: 0 <= i < |stream| ==> stream[i].Ok?
    ensures r.Ok? ==> |r.value| == |stream| && forall i :: 0 <= i < |stream| ==> r.value[i] == stream[i].value
    ensures r.Err? ==> exists i :: 0 <= i < |stream| && stream[i] == Err(r.error) && forall j :: 0 <= j < i ==> stream[j].Ok?
    decreases |stream|
  {
    if |stream| == 0 then Ok([])
    else
      match stream[0]
      case Err(e) => Err(e)
      case Ok(item) =>
        match CollectItems(stream[1..])
        case Err(e) =>
          ghost var i :| 0 <= i < |stream| - 1 && stream[1..][i] == Err(e) && forall j :: 0 <= j < i ==> stream[1..][j].Ok?;
          assert stream[i + 1] == Err(e);
          Err(e)
        case Ok(items) => Ok([item] + items)
  }

  /** `sort_by` on (relative path, summary). */
  function SortItems(items: seq<Item>): (r: seq<Item>)
    ensures Sorted(r, ItemLess)
    ensures multiset(r) == multiset(items)
    decreases |items|
  {
    if |items| == 0 then []
    else
      assert items == [items[0]] + items[1..];
      ItemLessTotal();
      Insert(items[0], SortItems(items[1..]), ItemLess)
  }

  /** The sorted order is the only one: any sorted permutation of the items
      is the list the scanner reports, so the report does not depend on the
      order in which the library enumerated the items. */
  lemma SortItemsCanonical(items: seq<Item>, other: seq<Item>)
    requires multiset(other) == multiset(items)
    requires Sorted(other, ItemLess)
    ensures SortItems(items) == other
  {
    ItemLessTotal();
    SortedPermutationUnique(SortItems(items), other, ItemLess);
  }

  /* ---------- scan ---------- */

  /** Every library call of an opened repository succeeds and no branch fails. */
  predicate Healthy(repo: Repo, path: Path) {
    && repo.worktree.Ok?
    && CollectItems(repo.worktree.value).Ok?
    && repo.branches.Ok?
    && ScanBranches(repo.branches.value, path).Ok?
  }

  function ScanRepo(repo: Repo, path: Path): Result<Status> {
    match repo.worktree
    case Err(e) => Err(e)
    case Ok(stream) =>
      match CollectItems(stream)
      case Err(e) => Err(e)
      case Ok(items) =>
        match repo.branches
        case Err(e) => Err(e)
        case Ok(bs) =>
          match ScanBranches(bs, path)
          case Err(e) => Err(e)
          case Ok(lists) => Ok(Status(SortItems(items), lists.untracked, lists.unpushed))
  }

  function Scan(path: Path, opening: OpenResult): (r: Result<Option<Status>>)
    ensures r == Ok(None) <==> opening.NotARepository?
    ensures opening.OpenFailed? ==> r == Err(opening.error)
    ensures r.Ok? && r.value.Some? <==> opening.Opened? && Healthy(opening.repo, path)
    ensures r.Ok? && r.value.Some? ==>
      var st := r.value.value;
      var repo := opening.repo;
      && Sorted(st.dirty, ItemLess)
      && multiset(st.dirty) == multiset(CollectItems(repo.worktree.value).value)
      && st.untrackedBranches == Names(repo.branches.value, IsUntracked)
      && st.unpushedBranches == Names(repo.branches.value, IsUnpushed)
    // an opened repository fails with its first failing step, in program order
    ensures opening.Opened? ==>
      var repo := opening.repo;
      && (repo.worktree.Err? ==> r == Err(repo.worktree.error))
      && (repo.worktree.Ok? && CollectItems(repo.worktree.value).Err? ==>
          r == Err(CollectItems(repo.worktree.value).error))
      && (repo.worktree.Ok? && CollectItems(repo.worktree.value).Ok? && repo.branches.Err? ==>
          r == Err(repo.branches.error))
      && (repo.worktree.Ok? && CollectItems(repo.worktree.value).Ok? && repo.branches.Ok? &&
          ScanBranches(repo.branches.value, path).Err? ==>
          r == Err(ScanBranches(repo.branches.value, path).error))
  {
    match opening
    case NotARepository => Ok(None)
    case OpenFailed(e) => Err(e)
    case Opened(repo) =>
      match ScanRepo(repo, path)
      case Err(e) => Err(e)
      case Ok(st) => Ok(Some(st))
  }
}
