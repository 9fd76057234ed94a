# git-global-status in Dafny

A model of `git-global-status`, a small command-line tool. It looks at every
immediate subdirectory of a root directory and reports which of them are git
repositories needing attention. A repository needs attention when its worktree
has changes, when a local branch has no upstream, or when a local branch is not
at its upstream's commit. All of the tool's own logic sits in `src/main.rs`.
The repository library (`gix`), the threads, the channel and the terminal
output are replaced here by plain values.

- `orders.dfy` (module `Orders`): strict orders and Rust's lexicographic
  comparison of sequences. It also defines sortedness, the uniqueness of sorted
  arrangements, insertion into a sorted list, and the key-replacing insertion
  of an ordered map.
- `model.dfy` (module `Model`): paths, change summaries, dirty items, `Status`
  and `is_clean`, errors, and the orders the tool sorts by. A path is ordered
  component by component. A dirty item is ordered by relative path, then by
  summary.
- `scan.dfy` (module `Scanner`): `scan`. It covers the open outcome, the
  collection and sorting of dirty items, and the per-branch state machine over
  `pushed: Option<bool>` for the Fetch and then the Push direction. The library
  calls become inputs: an `OpenResult`, a `Repo` holding the worktree stream
  and the branch list, and for each branch a `Tracking` value per direction.
  That value is `NotConfigured`, `NameError`, or `Configured` with a `Lookup`
  of `Found(id)`, `NotFound` or `LookupFailed`.
- `aggregate.dfy` (module `Aggregate`): what each scan thread sends, and the
  receive loop. The loop fills a `BTreeSet` of clean paths and a `BTreeMap` of
  dirty ones. Both are held as their contents in ascending key order. The loop
  stops at the first error.
- `report.dfy` (module `Report`): the printed lines without colour, the whole
  run, and the proof that the report does not depend on the order in which
  scans finish.

Behaviour of `src/main.rs` worth noting, which the model keeps:
- A configured upstream whose reference is not found makes the branch
  **unpushed**. It is not untracked (`src/main.rs:67`, `76-78`).
- Both upstream directions are consulted, Fetch first. A Fetch match ends the
  loop before Push is looked at.
- The first scan error received stops the run, and nothing is printed.
  Results are not collected past a failure.
- A repository without commits gets no special treatment.

## Model

| member | source | states |
|---|---|---|
| Model.IsClean | src/main.rs:18-28 | a status is clean iff its dirty list, untracked list and unpushed list are all empty |
| Model.ItemLessTotal | src/main.rs:41-43 | the (relative path, summary) key is a strict total order on dirty items; `SummaryLess` itself puts `None` before any summary |
| Model.PathLessTotal | src/main.rs:122-123 | the component-wise path order used by the clean set and the dirty map is a strict total order |
| Scanner.Classify | src/main.rs:55-95 | after the Fetch-then-Push loop a branch is: failed iff a direction reached before a match is broken; untracked iff neither direction is configured; pushed iff a reached direction resolves to the branch's own id; unpushed iff an upstream is configured and nothing matched or failed. A failure carries the first broken direction's error, and a lookup error is wrapped with the branch and repository |
| Scanner.ClassesPartition | src/main.rs:91-95 | every branch is in exactly one of failed, untracked, pushed, unpushed |
| Scanner.NotFoundIsUnpushed | src/main.rs:67-78 | a configured upstream whose reference is not found, with no match and no failure, makes the branch unpushed |
| Scanner.FetchMatchSkipsPush | src/main.rs:57-74 | when Fetch resolves to the branch id the branch is pushed whatever its Push direction holds |
| Scanner.ScanBranches | src/main.rs:50-96 | the branch loop succeeds iff no branch fails; on failure it returns the error of the first failing branch; on success the untracked and unpushed lists are exactly the names of the untracked and unpushed branches, in enumeration order |
| Scanner.BranchesPartitioned | src/main.rs:91-95 | on success untracked + unpushed + pushed branches number exactly the branches scanned, so each branch enters at most one list |
| Scanner.CollectItems | src/main.rs:37-40 | collecting the status stream yields every item in order iff no item failed, else the first failure |
| Scanner.SortItems | src/main.rs:41-43 | the dirty list is a permutation of the collected items, sorted by (relative path, summary) |
| Scanner.SortItemsCanonical | src/main.rs:41-43 | any sorted permutation of the items equals the scanner's list, so the list does not depend on enumeration order |
| Scanner.Scan | src/main.rs:31-98 | `Ok(None)` exactly when the directory is not a repository; any other open failure is that error; a status is returned iff every library call and every branch succeeds, and it holds the sorted dirty items and the untracked and unpushed branch names; otherwise the error is that of the first failing step in program order: the status and worktree-iterator calls, then an item of the status stream, then the branch list, then the first failing branch |
| Orders.Upsert | src/main.rs:129-131 | inserting into an ordered set or map keeps keys strictly ascending, adds the new element, and drops only an element with the same key |
| Aggregate.Forward | src/main.rs:112-116 | a scan thread sends nothing exactly for a non-repository, else one message: the status with its path, or the error |
| Aggregate.Outbox | src/main.rs:106-116 | every scanned repository and every scan error is sent, every sent status is some directory's scan result, and every sent error is some directory's scan error |
| Aggregate.OutboxCounts | src/main.rs:106-116 | each message is sent exactly as many times as there are scan threads that send it; a thread sends nothing for a non-repository and one message otherwise |
| Aggregate.OutboxDistinct | src/main.rs:107-116 | directories listed once each yield messages naming distinct repositories |
| Aggregate.Receive | src/main.rs:128-132 | a clean status adds its path to the clean set and leaves the dirty map alone; any other status replaces its path's entry in the dirty map and leaves the clean set alone |
| Aggregate.Collect | src/main.rs:122-133 | the receive loop fails iff some message is an error, with the first error received; otherwise the clean set holds exactly the paths reported clean, the dirty map holds exactly the paths reported not clean, each with its last reported status, and both are strictly ascending |
| Aggregate.CollectPartitions | src/main.rs:128-132 | with one message per repository, each reported repository is in exactly one of the clean set and the dirty map |
| Aggregate.CollectIgnoresOrder | src/main.rs:122-133 | with one message per repository, any permutation of the received messages gives the same tables, and fails iff the original does |
| Report.Code | src/main.rs:145-157 | each dirty item gets a one-character code, and it is `?` exactly when there is no summary |
| Report.CodeDistinguishes | src/main.rs:145-157 | two summaries print the same code iff they are equal or are Added and IntentToAdd |
| Report.BlockIndented | src/main.rs:138-166 | every line of a repository block after its name line starts with a tab |
| Report.BlockLayout | src/main.rs:139-166 | `Block`, the printing of one not-clean repository, is its name, then one line per dirty item, then one `UNTRACKED` line per untracked branch, then one `UNPUSHED` line per unpushed branch, each group in the status's order |
| Report.RenderCleanFirst | src/main.rs:135-137 | the report `Render` prints starts with one line per clean repository, its name, in ascending path order, and the blocks of the not-clean repositories follow |
| Report.RenderLayout | src/main.rs:138-167 | for every k, the report `Render` prints is the clean names, the blocks of the not-clean repositories before the k-th in ascending path order, the k-th one's block, then the blocks of those after it |
| Report.Run | src/main.rs:125-169 | the run fails iff some received message is an error, reporting the first one and printing nothing; otherwise it prints the rendering of tables that describe the messages |
| Report.RunFailsIffSomeScanFails | src/main.rs:104-133 | in any delivery order, the run fails iff some subdirectory's scan fails, and the error it reports is one of those scans' errors |
| Report.RunIgnoresReceiveOrder | src/main.rs:122-167 | with one message per repository, every receive order gives the same outcome and the same lines |
| Report.ReportIndependentOfCompletionOrder | src/main.rs:104-167 | for directories listed once each, every order in which the channel delivers the scans' messages gives the same report, or fails in every order |

## Left out

- Threads, the channel and `thread::scope` (src/main.rs:104-120): the messages
  received are any arrangement of the messages sent. The arrangement is a
  multiset-equal sequence.
- Directory listing with `read_dir`, `file_type`, and their errors: the
  subdirectories come in as a list of `Job`s.
- Argument parsing with `clap`, colouring with `colored`, and `println!`: the
  report is a list of uncoloured lines.
- The repository library: opening, status, references, upstream names,
  reference lookup and object ids are inputs. The two fallible calls before
  the status stream are one worktree error. `references()` and
  `local_branches()` are one branch-list error.
- The `expect` panic on an unreadable branch reference (src/main.rs:52): the
  branch list holds only readable branches.
- The `unwrap` panics on `file_name` and `to_str` (src/main.rs:136, 139): a
  repository's display name is the last path component.
- The `unwrap` on `send`: the receiver outlives every sender, so it cannot
  fail.
- Dirty items are only their relative path and summary, the two fields the tool
  reads. The sort is stable, but that is not visible when items with equal keys
  are equal.
- Relative paths are character strings compared by code point. The library
  compares bytes, which gives the same order for UTF-8. Path components are
  plain names. Root and prefix components are not modelled.
- The order of summaries is taken to be their declaration order in the
  library, Removed through Conflict, which a derived `Ord` follows.
- Errors are structured values. The text `anyhow` would format is not
  modelled.
- `Aggregate.Outbox`: its contract fixes which messages are sent, not how many
  times each. The multiplicity is the lemma `Aggregate.OutboxCounts`. For
  directories listed once each, `Aggregate.OutboxDistinct` gives one message
  per repository.
- Repository names: an empty path gets the empty name. The tool would panic on
  a path without a file name.
