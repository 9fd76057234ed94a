/** The collection side of `main` (src/main.rs:104-133): each scan thread
    sends at most one message, and the receiver files every reported status
    into an ordered set of clean paths or an ordered map of dirty ones,
    stopping at the first error it receives. */
module Aggregate {
  import opened Orders
  import opened Model
  import opened Scanner

  /** A scanned repository: the payload of a successful message. */
  datatype Entry = Entry(path: Path, status: Status)

  /** What a scan thread sends over the channel. */
  type Message = Result<Entry>

  /** The body of a scan thread (src/main.rs:112-116): a repository is sent
      with its path, a failure is sent as is, and a non-repository sends
      nothing. */
  function Forward(path: Path, scanned: Result<Option<Status>>): (sent: seq<Message>)
    ensures |sent| <= 1
    ensures sent == [] <==> scanned == Ok(None)
    ensures forall m :: m in sent ==> (m.Ok? <==> scanned.Ok?)
    ensures forall m :: m in sent && m.Ok? ==> m.value.path == path && scanned.value == Some(m.value.status)
    ensures forall m :: m in sent && m.Err? ==> m.error == scanned.error
  {
    match scanned
    case Ok(None) => []
    case Ok(Some(st)) => [Ok(Entry(path, st))]
    case Err(e) => [Err(e)]
  }

  /** A subdirectory to scan and what opening it as a repository yields. */
  datatype Job = Job(path: Path, opening: OpenResult)

  /** How many of the jobs' threads send the message `m`: each thread sends
      at most one message. */
  function Senders(jobs: seq<Job>, m: Message): nat
    decreases |jobs|
  {
    if |jobs| == 0 then 0
    else (if m in Forward(jobs[0].path, Scan(jobs[0].path, jobs[0].opening)) then 1 else 0) + Senders(jobs[1..], m)
  }

  /** Every message the scan threads send, one thread per job, in spawn
      order. The channel may deliver them in any order. */
  function Outbox(jobs: seq<Job>): (sent: seq<Message>)
    ensures |sent| <= |jobs|
    ensures forall m :: m in sent && m.Ok? ==>
      exists k :: 0 <= k < |jobs| && jobs[k].path == m.value.path && Scan(jobs[k].path, jobs[k].opening) == Ok(Some(m.value.status))
    ensures forall k :: 0 <= k < |jobs| && Scan(jobs[k].path, jobs[k].opening).Ok? && Scan(jobs[k].path, jobs[k].opening).value.Some? ==>
      Ok(Entry(jobs[k].path, Scan(jobs[k].path, jobs[k].opening).value.value)) in sent
    ensures forall k :: 0 <= k < |jobs| && Scan(jobs[k].path, jobs[k].opening).Err? ==>
      Err(Scan(jobs[k].path, jobs[k].opening).error) in sent
    ensures forall m :: m in sent && m.Err? ==>
      exists k :: 0 <= k < |jobs| && Scan(jobs[k].path, jobs[k].opening) == Err(m.error)
    decreases |jobs|
  {
    if |jobs| == 0 then []
    else
      var first := Forward(jobs[0].path, Scan(jobs[0].path, jobs[0].opening));
      var rest := Outbox(jobs[1..]);
      assert forall k :: 1 <= k < |jobs| ==> jobs[k] == jobs[1..][k - 1];
      first + rest
  }

  /** Each message is sent exactly as many times as there are threads that
      send it: a thread sends at most once, and only its own scan's result. */
  lemma {:induction false} OutboxCounts(jobs: seq<Job>)
    ensures forall m :: multiset(Outbox(jobs))[m] == Senders(jobs, m)
    decreases |jobs|
  {
    if |jobs| > 0 {
      OutboxCounts(jobs[1..]);
      CountAfter(Forward(jobs[0].path, Scan(jobs[0].path, jobs[0].opening)), Outbox(jobs[1..]));
    }
  }

  /** Putting at most one message in front adds one to its count only. */
  lemma CountAfter<T>(first: seq<T>, rest: seq<T>)
    requires |first| <= 1
    ensures forall m :: multiset(first + rest)[m] == (if m in first then 1 else 0) + multiset(rest)[m]
  {
  }

  /** Some thread sends an error exactly when the scan of some job fails. */
  lemma OutboxFails(jobs: seq<Job>)
    ensures (exists m :: m in Outbox(jobs) && m.Err?) <==> exists k :: 0 <= k < |jobs| && Scan(jobs[k].path, jobs[k].opening).Err?
  {
  }

  /** Two arrangements of the same multiset hold the same elements. */
  lemma SameElements<T>(a: seq<T>, b: seq<T>)
    requires multiset(a) == multiset(b)
    ensures forall x :: x in a <==> x in b
  {
    forall x ensures x in a <==> x in b {
      assert x in a <==> x in multiset(a);
      assert x in b <==> x in multiset(b);
    }
  }

  /** No two successful messages name the same repository. */
  predicate DistinctPaths(msgs: seq<Message>) {
    forall i, j :: 0 <= i < j < |msgs| && msgs[i].Ok? && msgs[j].Ok? ==> msgs[i].value.path != msgs[j].value.path
  }

  predicate DistinctJobs(jobs: seq<Job>) {
    forall i, j :: 0 <= i < j < |jobs| ==> jobs[i].path != jobs[j].path
  }

  /** Directories listed once each produce messages for distinct repositories. */
  lemma {:induction false} OutboxDistinct(jobs: seq<Job>)
    requires DistinctJobs(jobs)
    ensures DistinctPaths(Outbox(jobs))
    decreases |jobs|
  {
    if |jobs| > 0 {
      var first := Forward(jobs[0].path, Scan(jobs[0].path, jobs[0].opening));
      var rest := Outbox(jobs[1..]);
      assert DistinctJobs(jobs[1..]) by {
        forall i, j | 0 <= i < j < |jobs| - 1 ensures jobs[1..][i].path != jobs[1..][j].path {
          assert jobs[1..][i] == jobs[i + 1] && jobs[1..][j] == jobs[j + 1];
        }
      }
      OutboxDistinct(jobs[1..]);
      assert forall m :: m in rest && m.Ok? ==> m.value.path != jobs[0].path by {
        forall m | m in rest && m.Ok? ensures m.value.path != jobs[0].path {
          var k :| 0 <= k < |jobs| - 1 && jobs[1..][k].path == m.value.path && Scan(jobs[1..][k].path, jobs[1..][k].opening) == Ok(Some(m.value.status));
          assert jobs[1..][k] == jobs[k + 1];
        }
      }
      assert forall m :: m in first && m.Ok? ==> m.value.path == jobs[0].path;
      DistinctAppend(first, rest);
    }
  }

  /** Appending messages about other repositories keeps paths distinct. */
  lemma DistinctAppend(first: seq<Message>, rest: seq<Message>)
    requires |first| <= 1 && DistinctPaths(rest)
    requires forall m, n :: m in first && m.Ok? && n in rest && n.Ok? ==> m.value.path != n.value.path
    ensures DistinctPaths(first + rest)
  {
  }

  /* ---------- the ordered set and map of src/main.rs:122-133 ---------- */

  function PathKey(p: Path): Path {
    p
  }

  function EntryKey(e: Entry): Path {
    e.path
  }

  /** The receiver's state: `BTreeSet` of clean paths and `BTreeMap` of
      dirty ones, each held as its contents in ascending path order. */
  datatype Tables = Tables(clean: seq<Path>, dirty: seq<Entry>)

  predicate WellFormed(t: Tables) {
    StrictlySortedBy(t.clean, PathKey, PathLess) && StrictlySortedBy(t.dirty, EntryKey, PathLess)
  }

  /** One iteration of the receive loop for a successful message. */
  function Receive(t: Tables, e: Entry): (r: Tables)
    requires WellFormed(t)
    ensures WellFormed(r)
    ensures IsClean(e.status) ==> r.dirty == t.dirty && forall p :: p in r.clean <==> p in t.clean || p == e.path
    ensures !IsClean(e.status) ==> r.clean == t.clean && forall x :: x in r.dirty <==> x == e || (x in t.dirty && x.path != e.path)
  {
    PathLessTotal();
    if IsClean(e.status) then t.(clean := Upsert(t.clean, e.path, PathKey, PathLess))
    else t.(dirty := Upsert(t.dirty, e, EntryKey, PathLess))
  }

  /** The first failure the receiver sees. */
  predicate FirstErrAt(msgs: seq<Message>, i: int) {
    0 <= i < |msgs| && msgs[i].Err? && forall j :: 0 <= j < i ==> msgs[j].Ok?
  }

  /** Some message reports `p` as clean (a clean status is the default one). */
  predicate ReportedClean(msgs: seq<Message>, p: Path) {
    Ok(Entry(p, EmptyStatus)) in msgs
  }

  /** Some message reports `p` as not clean. */
  predicate ReportedDirty(msgs: seq<Message>, p: Path) {
    exists i :: 0 <= i < |msgs| && msgs[i].Ok? && msgs[i].value.path == p && !IsClean(msgs[i].value.status)
  }

  /** `x` is the last not-clean report for its path: `BTreeMap::insert`
      keeps the most recent value. */
  predicate LastDirty(msgs: seq<Message>, x: Entry) {
    && !IsClean(x.status)
    && (exists i :: 0 <= i < |msgs| && msgs[i] == Ok(x) &&
         forall j :: i < j < |msgs| ==> !(msgs[j].Ok? && msgs[j].value.path == x.path && !IsClean(msgs[j].value.status)))
  }

  /** `t` is what the receiver holds after the successful messages `msgs`. */
  ghost predicate Describes(t: Tables, msgs: seq<Message>) {
    && WellFormed(t)
    && (forall p :: p in t.clean <==> ReportedClean(msgs, p))
    && (forall p :: ReportedDirty(msgs, p) <==> exists x :: x in t.dirty && x.path == p)
    && (forall x :: x in t.dirty ==> LastDirty(msgs, x))
  }

  lemma ReceiveStep(pre: seq<Message>, t: Tables, e: Entry)
    requires Describes(t, pre)
    ensures Describes(Receive(t, e), pre + [Ok(e)])
  {
    var msgs := pre + [Ok(e)];
    var r := Receive(t, e);
    forall i | 0 <= i < |pre| ensures msgs[i] == pre[i] { }
    assert msgs[|pre|] == Ok(e);
    forall p ensures p in r.clean <==> ReportedClean(msgs, p) {
      assert Ok(Entry(p, EmptyStatus)) in msgs <==> Ok(Entry(p, EmptyStatus)) in pre || Ok(Entry(p, EmptyStatus)) == Ok(e);
    }
    forall p ensures ReportedDirty(msgs, p) <==> ReportedDirty(pre, p) || (e.path == p && !IsClean(e.status)) {
      if ReportedDirty(msgs, p) {
        var i :| 0 <= i < |msgs| && msgs[i].Ok? && msgs[i].value.path == p && !IsClean(msgs[i].value.status);
        if i < |pre| {
          assert pre[i] == msgs[i];
        }
      }
      if ReportedDirty(pre, p) {
        var i :| 0 <= i < |pre| && pre[i].Ok? && pre[i].value.path == p && !IsClean(pre[i].value.status);
        assert msgs[i] == pre[i];
      }
    }
    forall x | x in t.dirty && (IsClean(e.status) || x.path != e.path) ensures LastDirty(msgs, x) {
      assert LastDirty(pre, x);
      var i :| 0 <= i < |pre| && pre[i] == Ok(x) &&
        forall j :: i < j < |pre| ==> !(pre[j].Ok? && pre[j].value.path == x.path && !IsClean(pre[j].value.status));
      assert msgs[i] == Ok(x);
    }
    if !IsClean(e.status) {
      assert LastDirty(msgs, e) by {
        assert msgs[|pre|] == Ok(e);
      }
    }
  }

  /** The receive loop: the first error in receive order, or the tables. */
  function Collect(msgs: seq<Message>): (r: Result<Tables>)
    ensures r.Err? <==> exists i :: 0 <= i < |msgs| && msgs[i].Err?
    ensures r.Err? ==> exists i :: FirstErrAt(msgs, i) && msgs[i].error == r.error
    ensures r.Ok? ==> Describes(r.value, msgs)
    decreases |msgs|
  {
    if |msgs| == 0 then
      Ok(Tables([], []))
    else
      var pre := msgs[..|msgs| - 1];
      assert msgs == pre + [msgs[|msgs| - 1]];
      assert forall i :: 0 <= i < |pre| ==> msgs[i] == pre[i];
      match Collect(pre)
      case Err(e) =>
        ghost var i :| FirstErrAt(pre, i) && pre[i].error == e;
        assert FirstErrAt(msgs, i);
        Err(e)
      case Ok(t) =>
        match msgs[|msgs| - 1]
        case Err(e) =>
          assert FirstErrAt(msgs, |msgs| - 1);
          Err(e)
        case Ok(entry) =>
          ReceiveStep(pre, t, entry);
          Ok(Receive(t, entry))
  }

  /** With one message per repository, every reported repository lands in
      exactly one of the clean set and the dirty map, with its status. */
  lemma CollectPartitions(msgs: seq<Message>, e: Entry)
    requires Collect(msgs).Ok?
    requires DistinctPaths(msgs)
    requires Ok(e) in msgs
    ensures var t := Collect(msgs).value;
      && (IsClean(e.status) ==> e.path in t.clean && forall x :: x in t.dirty ==> x.path != e.path)
      && (!IsClean(e.status) ==> e in t.dirty && e.path !in t.clean)
  {
  }

  /** With one message per repository, the receiver's tables do not depend
      on the order in which the channel delivered the messages; whether an
      error stops the loop does not depend on it either. */
  lemma CollectIgnoresOrder(m1: seq<Message>, m2: seq<Message>)
    requires multiset(m1) == multiset(m2)
    requires DistinctPaths(m1)
    ensures Collect(m1).Err? <==> Collect(m2).Err?
    ensures Collect(m1).Ok? ==> Collect(m1) == Collect(m2)
  {
    SameElements(m1, m2);
    if exists i :: 0 <= i < |m1| && m1[i].Err? {
      var i :| 0 <= i < |m1| && m1[i].Err?;
      assert m1[i] in m2;
    }
    if exists i :: 0 <= i < |m2| && m2[i].Err? {
      var i :| 0 <= i < |m2| && m2[i].Err?;
      assert m2[i] in m1;
    }
    if Collect(m1).Ok? {
      var t1 := Collect(m1).value;
      var t2 := Collect(m2).value;
      PathLessTotal();
      forall p ensures p in t1.clean <==> p in t2.clean {
        assert ReportedClean(m1, p) <==> ReportedClean(m2, p);
      }
      StrictlySortedUnique(t1.clean, t2.clean, PathKey, PathLess);
      forall x ensures x in t1.dirty <==> x in t2.dirty {
        if x in t1.dirty {
          SameDirtyEntry(m1, m2, t1, t2, x);
        }
        if x in t2.dirty {
          SameDirtyEntry(m1, m2, t1, t2, x);
        }
      }
      StrictlySortedUnique(t1.dirty, t2.dirty, EntryKey, PathLess);
    }
  }

  /** Helper for CollectIgnoresOrder: an entry of either dirty map is in both. */
  lemma SameDirtyEntry(m1: seq<Message>, m2: seq<Message>, t1: Tables, t2: Tables, x: Entry)
    requires forall m :: m in m1 <==> m in m2
    requires DistinctPaths(m1)
    requires Describes(t1, m1) && Describes(t2, m2)
    requires x in t1.dirty || x in t2.dirty
    ensures x in t1.dirty && x in t2.dirty
  {
    // Both maps hold, for the path of x, an entry received in m1; there is only one.
    var ta, tb, ma, mb := t1, t2, m1, m2;
    if x !in t1.dirty {
      ta, tb, ma, mb := t2, t1, m2, m1;
    }
    assert LastDirty(ma, x);
    var i :| 0 <= i < |ma| && ma[i] == Ok(x);
    assert Ok(x) in mb;
    var i' :| 0 <= i' < |mb| && mb[i'] == Ok(x);
    assert ReportedDirty(mb, x.path);
    var y :| y in tb.dirty && y.path == x.path;
    assert LastDirty(mb, y);
    var k :| 0 <= k < |mb| && mb[k] == Ok(y);
    assert Ok(y) in m1 && Ok(x) in m1;
    var ix :| 0 <= ix < |m1| && m1[ix] == Ok(x);
    var iy :| 0 <= iy < |m1| && m1[iy] == Ok(y);
    assert ix == iy;
  }
}
