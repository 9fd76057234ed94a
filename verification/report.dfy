/** The printing half of `main` (src/main.rs:135-169) as a list of lines
    without colour, and the whole run from received messages to report. */
module Report {
  import opened Model
  import opened Scanner
  import opened Aggregate

  /** The one-character change code printed before a dirty item. */
  function Code(s: Option<Summary>): (code: string)
    ensures |code| == 1
    ensures code == "?" <==> s.None?
  {
    match s
    case None => "?"
    case Some(k) =>
      match k
      case Removed => "D"
      case Added => "A"
      case Modified => "M"
      case TypeChange => "T"
      case Renamed => "R"
      case Copied => "C"
      case IntentToAdd => "A"
      case Conflict => "X"
  }

  /** Without colour the codes tell every kind apart except an added file
      and one marked intent-to-add, which both print as `A`. */
  lemma CodeDistinguishes(a: Option<Summary>, b: Option<Summary>)
    ensures Code(a) == Code(b) <==>
      a == b || (a == Some(Added) && b == Some(IntentToAdd)) || (a == Some(IntentToAdd) && b == Some(Added))
  {
  }

  function ItemLine(item: Item): string {
    "\t" + Code(item.summary) + " " + item.relaPath
  }

  function UntrackedLine(branch: string): string {
    "\tUNTRACKED " + branch
  }

  function UnpushedLine(branch: string): string {
    "\tUNPUSHED " + branch
  }

  function ItemLines(items: seq<Item>): seq<string> {
    seq(|items|, i requires 0 <= i < |items| => ItemLine(items[i]))
  }

  function BranchLines(branches: seq<string>, line: string -> string): seq<string> {
    seq(|branches|, i requires 0 <= i < |branches| => line(branches[i]))
  }

  function BlockSize(e: Entry): nat {
    1 + |e.status.dirty| + |e.status.untrackedBranches| + |e.status.unpushedBranches|
  }

  /** One not-clean repository: its name, then its dirty items, then its
      untracked branches, then its unpushed branches. */
  function Block(e: Entry): (lines: seq<string>)
    ensures |lines| == BlockSize(e)
  {
    [FileName(e.path)]
      + ItemLines(e.status.dirty)
      + BranchLines(e.status.untrackedBranches, UntrackedLine)
      + BranchLines(e.status.unpushedBranches, UnpushedLine)
  }

  /** Line by line: the name on the first line, then one line per dirty
      item, then one per untracked branch, then one per unpushed branch, each
      group in the order the status holds it. */
  lemma BlockLayout(e: Entry)
    ensures var lines, d, u, p := Block(e), e.status.dirty, e.status.untrackedBranches, e.status.unpushedBranches;
      && |lines| == 1 + |d| + |u| + |p|
      && lines[0] == FileName(e.path)
      && (forall i :: 0 <= i < |d| ==> lines[1 + i] == ItemLine(d[i]))
      && (forall i :: 0 <= i < |u| ==> lines[1 + |d| + i] == UntrackedLine(u[i]))
      && (forall i :: 0 <= i < |p| ==> lines[1 + |d| + |u| + i] == UnpushedLine(p[i]))
  {
  }

  /** Only the name line of a block is flush left: every other line starts
      with a tab, which is how the output tells a repository's name from the
      details listed under it. */
  lemma {:induction false} BlockIndented(e: Entry)
    ensures forall j :: 1 <= j < |Block(e)| ==> |Block(e)[j]| > 0 && Block(e)[j][0] == '\t'
  {
    BlockLayout(e);
    var lines, d, u := Block(e), e.status.dirty, e.status.untrackedBranches;
    forall j | 1 <= j < |lines| ensures |lines[j]| > 0 && lines[j][0] == '\t' {
      if j < 1 + |d| {
        assert lines[j] == ItemLine(d[j - 1]);
      } else if j < 1 + |d| + |u| {
        assert lines[j] == UntrackedLine(u[j - 1 - |d|]);
      } else {
        assert lines[j] == UnpushedLine(e.status.unpushedBranches[j - 1 - |d| - |u|]);
      }
    }
  }

  /** The lines of several blocks, one after the other. */
  function Concat<T>(blocks: seq<seq<T>>): seq<T>
    decreases |blocks|
  {
    if |blocks| == 0 then [] else blocks[0] + Concat(blocks[1..])
  }

  /** The k-th block sits between the blocks before it and the blocks after it. */
  lemma {:induction false} ConcatSplit<T>(blocks: seq<seq<T>>, k: nat)
    requires k < |blocks|
    ensures Concat(blocks) == Concat(blocks[..k]) + blocks[k] + Concat(blocks[k + 1..])
    decreases k
  {
    if k > 0 {
      var tail := blocks[1..];
      ConcatSplit(tail, k - 1);
      assert tail[..k - 1] == blocks[..k][1..];
      assert tail[k - 1] == blocks[k];
      assert tail[k..] == blocks[k + 1..];
      assert Concat(blocks[..k]) == blocks[0] + Concat(tail[..k - 1]);
    } else {
      assert blocks[..0] == [];
      assert blocks[1..] == blocks[k + 1..];
    }
  }

  /** The report: clean names first, then one block per not-clean repository,
      both in ascending path order as the tables hold them. */
  function Render(t: Tables): seq<string> {
    CleanLines(t.clean) + Concat(Blocks(t.dirty))
  }

  /** The first lines name the clean repositories, one each, in the order of
      the clean set, and the not-clean blocks follow them. */
  lemma RenderCleanFirst(t: Tables)
    ensures |Render(t)| >= |t.clean|
    ensures forall i :: 0 <= i < |t.clean| ==> Render(t)[i] == FileName(t.clean[i])
    ensures Render(t)[|t.clean|..] == Concat(Blocks(t.dirty))
  {
  }

  function CleanLines(clean: seq<Path>): seq<string> {
    seq(|clean|, i requires 0 <= i < |clean| => FileName(clean[i]))
  }

  function Blocks(es: seq<Entry>): seq<seq<string>> {
    seq(|es|, k requires 0 <= k < |es| => Block(es[k]))
  }

  /** The report around the k-th not-clean repository: the clean names, the
      blocks of the repositories before it, its own block, and the blocks of
      the repositories after it. */
  lemma RenderLayout(t: Tables, k: nat)
    requires k < |t.dirty|
    ensures Render(t) == CleanLines(t.clean) + Concat(Blocks(t.dirty[..k])) + Block(t.dirty[k]) + Concat(Blocks(t.dirty[k + 1..]))
  {
    var blocks := Blocks(t.dirty);
    ConcatSplit(blocks, k);
    assert blocks[..k] == Blocks(t.dirty[..k]);
    assert blocks[k + 1..] == Blocks(t.dirty[k + 1..]);
  }

  /** Receive every message, then print: nothing is printed if any message
      is an error, and the error reported is the first one received. */
  function Run(msgs: seq<Message>): (r: Result<seq<string>>)
    ensures r.Err? <==> exists i :: 0 <= i < |msgs| && msgs[i].Err?
    ensures r.Err? ==> exists i :: FirstErrAt(msgs, i) && msgs[i].error == r.error
    ensures r.Ok? ==> exists t :: Describes(t, msgs) && r.value == Render(t)
  {
    match Collect(msgs)
    case Err(e) => Err(e)
    case Ok(t) => Ok(Render(t))
  }

  /** The run fails exactly when some received message is an error, and the
      error it reports is one of those received. */
  lemma RunFailsOnErrorMessage(msgs: seq<Message>)
    ensures Run(msgs).Err? <==> exists m :: m in msgs && m.Err?
    ensures Run(msgs).Err? ==> Err(Run(msgs).error) in msgs
  {
  }

  /** End to end: whatever order the messages arrive in, the run fails
      exactly when the scan of some subdirectory fails, and then it reports
      one of those scans' errors. */
  lemma RunFailsIffSomeScanFails(jobs: seq<Job>, recv: seq<Message>)
    requires multiset(recv) == multiset(Outbox(jobs))
    ensures Run(recv).Err? <==> exists k :: 0 <= k < |jobs| && Scan(jobs[k].path, jobs[k].opening).Err?
    ensures Run(recv).Err? ==> exists k :: 0 <= k < |jobs| && Scan(jobs[k].path, jobs[k].opening) == Err(Run(recv).error)
  {
    SameElements(recv, Outbox(jobs));
    RunFailsOnErrorMessage(recv);
    OutboxFails(jobs);
  }

  /** The report does not depend on the order in which the channel delivered
      the messages, as long as no two of them are about the same repository. */
  lemma RunIgnoresReceiveOrder(m1: seq<Message>, m2: seq<Message>)
    requires multiset(m1) == multiset(m2)
    requires DistinctPaths(m1)
    ensures Run(m1).Err? <==> Run(m2).Err?
    ensures Run(m1).Ok? ==> Run(m1) == Run(m2)
  {
    CollectIgnoresOrder(m1, m2);
  }

  /** End to end: for subdirectories listed once each, however the scans
      finish and however the channel interleaves their messages, the run
      either fails in every order or prints the same report in every order. */
  lemma ReportIndependentOfCompletionOrder(jobs: seq<Job>, recv1: seq<Message>, recv2: seq<Message>)
    requires DistinctJobs(jobs)
    requires multiset(recv1) == multiset(Outbox(jobs))
    requires multiset(recv2) == multiset(Outbox(jobs))
    ensures Run(recv1).Err? <==> Run(recv2).Err?
    ensures Run(recv1).Ok? ==> Run(recv1) == Run(recv2)
  {
    OutboxDistinct(jobs);
    RunIgnoresReceiveOrder(Outbox(jobs), recv1);
    RunIgnoresReceiveOrder(Outbox(jobs), recv2);
  }
}
