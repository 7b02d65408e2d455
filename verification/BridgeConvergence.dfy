/**
 Once the sources rest, clean runs make the inbox equal to them, however the past went; unless some header
 line is too long for the server. Then that file never arrives, and which others do depends on whether the
 server got to them before it was stopped for good.
 */
module BridgeConvergence {
  import opened Common
  import opened BridgePaths
  import opened BridgeWire
  import opened BridgePlan
  import opened BridgeRuns
  import opened BridgeHeaders
  import opened BridgeHistory

  /** A run in which nothing is lost: every file opens, the request and the answers arrive whole. */
  ghost predicate Clean(c: Codec, w: World, e: Push) {
    && e.closed == {} && !e.failed && e.sendSrc == w.src && e.doneSrc == w.src
    && e.cut >= |Stream(c, Items(w, e))| && e.heard >= |Items(w, e)|
  }

  function PlanFor(w: World, files: seq<LocalFile>, budget: nat): Plan {
    PlanOf(files, w.state, Contents(w.src), budget)
  }

  /** The effect of a clean run in which the server stops after the first `n` items. */
  function RunTo(w: World, files: seq<LocalFile>, budget: nat, n: nat): World {
    var p, src := PlanFor(w, files, budget), Contents(w.src);
    var items := Frames(p, src);
    var (inbox, answers) := Deliver(w.inbox, items[..Min(n, |items|)]);
    World(w.src, inbox, Update(w.state, SentOf(p, src), Statuses(answers), src))
  }

  /** The effect of a clean run: the server stops at the first header it cannot read. */
  function FaultFreeRun(c: Codec, w: World, files: seq<LocalFile>, budget: nat): World {
    RunTo(w, files, budget, Readable(c, Frames(PlanFor(w, files, budget), Contents(w.src))))
  }

  /** A clean run as an event of a history. */
  function WholePush(c: Codec, w: World, files: seq<LocalFile>, budget: nat): Push {
    var items := Frames(PlanFor(w, files, budget), Contents(w.src));
    Push(files, budget, w.src, {}, |Stream(c, items)|, |items|, false, w.src)
  }

  lemma WholeIsClean(c: Codec, w: World, files: seq<LocalFile>, budget: nat)
    requires ScanOf(files, w.src) && budget <= MAX_RUN_SERVER
    requires NoneExact(c, Frames(PlanFor(w, files, budget), Contents(w.src)))
    ensures var e := WholePush(c, w, files, budget);
            e.files == files && e.budget == budget && Clean(c, w, e) && Legal(c, w, Run(e))
  {
    hide Frames;
    hide PlanOf;
    hide Stream;
    var e := WholePush(c, w, files, budget);
    assert e.sendSrc - e.closed == w.src;
    assert Items(w, e) == Frames(PlanFor(w, files, budget), Contents(w.src));
  }

  lemma CleanIs(c: Codec, w: World, e: Push)
    requires JsonLike(c) && Legal(c, w, Run(e)) && Clean(c, w, e)
    ensures Step(c, w, Run(e)) == FaultFreeRun(c, w, e.files, e.budget)
  {
    hide Receive;
    hide Deliver;
    hide Update;
    hide Within;
    hide JsonLike;
    hide NoneExact;
    hide PlanOf;
    hide Frames;
    hide SentOf;
    hide Stream;
    hide Statuses;
    hide Readable;
    var items := Items(w, e);
    assert e.sendSrc - e.closed == w.src;
    PlanMeetsLimits(c, e.files, w.state, Contents(w.src), e.budget, Contents(w.src));
    var s := Stream(c, items);
    assert s[..Min(e.cut, |s|)] == s;
    ReceiveIs(c, items, w.inbox);
    DeliverLength(w.inbox, Reached(c, items));
    AllHeardFrom(Deliver(w.inbox, Reached(c, items)).1, Reached(c, items) == items, |items|, e.heard);
  }

  /** The answers to the items reached, and a refusal if these are not all. */
  lemma AllHeardFrom(some: seq<Answer>, all: bool, n: nat, heard: nat)
    requires |some| <= n <= heard && (!all ==> |some| < n)
    ensures var answers := some + (if all then [] else [REFUSED]);
            Statuses(answers[..Min(heard, |answers|)]) == Statuses(some)
  {
    var answers := some + (if all then [] else [REFUSED]);
    assert answers[..Min(heard, |answers|)] == answers;
    RefusalIsNoStatus(some);
    assert some + [] == some;
  }

  lemma RefusalIsNoStatus(answers: seq<Answer>)
    ensures Statuses(answers + [REFUSED]) == Statuses(answers)
  {
    assert (answers + [REFUSED])[..|answers|] == answers;
  }

  // ---------- the run, file by file ----------

  lemma {:induction false} DeliverAnswers(inbox: Inbox, items: seq<Item>)
    ensures var answers := Deliver(inbox, items).1;
            && |answers| == |items|
            && forall i :: 0 <= i < |items| ==>
                 && answers[i].path == Some(items[i].rel) && answers[i].status != Rejected
                 && (items[i].offset == 0 ==> answers[i].status == Stored)
    decreases |items|
  {
    if |items| > 0 {
      var it := items[0];
      DeliverAnswers(Store(inbox, it.rel, it.offset, |it.payload|, it.payload).0, items[1..]);
    }
  }

  lemma {:induction false} StatusesAt(answers: seq<Answer>, i: nat)
    requires i < |answers| && answers[i].path.Some?
    requires forall j :: i < j < |answers| ==> answers[j].path != answers[i].path
    ensures StatusFor(Statuses(answers), answers[i].path.value) == Some(answers[i].status)
  {
    if i < |answers| - 1 {
      assert answers[|answers| - 1].path != answers[i].path;
      StatusesAt(answers[..|answers| - 1], i);
    }
  }

  /** The last answer for a path. */
  ghost predicate LastFor(answers: seq<Answer>, r: string, i: int) {
    0 <= i < |answers| && answers[i].path == Some(r) && forall j :: i < j < |answers| ==> answers[j].path != Some(r)
  }

  /** What the client has heard of a path: the last status answered for it, and nothing if there is none. */
  lemma {:induction false} StatusesExactly(answers: seq<Answer>, r: string)
    ensures r in Statuses(answers) <==> exists i :: LastFor(answers, r, i)
    ensures forall i :: LastFor(answers, r, i) ==> Statuses(answers)[r] == answers[i].status
  {
    if |answers| > 0 {
      var n := |answers| - 1;
      var before := answers[..n];
      if answers[n].path == Some(r) {
        assert LastFor(answers, r, n);
        assert forall i :: LastFor(answers, r, i) ==> i == n;
      } else {
        StatusesExactly(before, r);
        forall i ensures LastFor(answers, r, i) <==> LastFor(before, r, i) {
          hide Statuses;
          assert forall j :: 0 <= j < n ==> before[j] == answers[j];
        }
      }
    }
  }

  ghost predicate SameEntry(a: ClientState, b: ClientState, r: string) {
    (r in a <==> r in b) && (r in a ==> a[r] == b[r])
  }

  lemma {:induction false} UpdateElsewhere(state: ClientState, sent: Plan, statuses: map<string, Status>, src: Sources,
                                           r: string)
    requires forall i :: 0 <= i < |sent| ==> sent[i].0.rel != r
    ensures SameEntry(Update(state, sent, statuses, src), state, r)
    decreases |sent|
  {
    if |sent| > 0 {
      assert sent[0].0.rel != r;
      UpdateElsewhere(Settle(state, sent[0].0, StatusFor(statuses, sent[0].0.rel), src), sent[1..], statuses, src, r);
    }
  }

  lemma {:induction false} UpdateAt(state: ClientState, sent: Plan, statuses: map<string, Status>, src: Sources, i: nat)
    requires i < |sent| && DistinctPlan(sent)
    ensures var f := sent[i].0;
            SameEntry(Update(state, sent, statuses, src), Settle(state, f, StatusFor(statuses, f.rel), src), f.rel)
    decreases |sent|
  {
    var next := Settle(state, sent[0].0, StatusFor(statuses, sent[0].0.rel), src);
    assert DistinctPlan(sent[1..]);
    if i == 0 {
      forall j | 0 <= j < |sent[1..]| ensures sent[1..][j].0.rel != sent[0].0.rel {
        assert sent[1..][j] == sent[j + 1];
      }
      UpdateElsewhere(next, sent[1..], statuses, src, sent[0].0.rel);
    } else {
      UpdateAt(next, sent[1..], statuses, src, i - 1);
      assert sent[1..][i - 1] == sent[i];
      assert SameEntry(next, state, sent[i].0.rel);
    }
  }

  /** What the client remembers of each file after a run: the file as it was scanned, with what it holds by
      now in the last 4096 bytes before its end, if the server stored it; nothing if it asked for it anew;
      and otherwise, or if it was not sent, what it remembered before. */
  lemma UpdateExactly(state: ClientState, sent: Plan, statuses: map<string, Status>, src: Sources)
    requires DistinctPlan(sent)
    ensures var v := Update(state, sent, statuses, src);
            && (forall i :: 0 <= i < |sent| ==>
                  Remembered(state, v, sent[i].0, StatusFor(statuses, sent[i].0.rel), src))
            && (forall r :: (forall i :: 0 <= i < |sent| ==> sent[i].0.rel != r) ==> SameEntry(v, state, r))
  {
    hide Update;
    hide Settle;
    forall i | 0 <= i < |sent|
      ensures Remembered(state, Update(state, sent, statuses, src), sent[i].0, StatusFor(statuses, sent[i].0.rel), src)
    {
      UpdateAt(state, sent, statuses, src, i);
      SettledIs(state, Update(state, sent, statuses, src), sent[i].0, StatusFor(statuses, sent[i].0.rel), src);
    }
    forall r | forall i :: 0 <= i < |sent| ==> sent[i].0.rel != r
      ensures SameEntry(Update(state, sent, statuses, src), state, r)
    {
      UpdateElsewhere(state, sent, statuses, src, r);
    }
  }

  ghost predicate Remembered(before: ClientState, after: ClientState, f: LocalFile, status: Option<Status>,
                             src: Sources)
  {
    && (status == Some(Stored) ==>
          && f.rel in after && after[f.rel].size == f.size && after[f.rel].mtime == f.mtime && after[f.rel].ino == f.ino
          && (f.rel in src && |src[f.rel]| >= f.size ==>
                after[f.rel].tail == Some(src[f.rel][if f.size > 4096 then f.size - 4096 else 0..f.size]))
          && (!(f.rel in src && |src[f.rel]| >= f.size) ==> after[f.rel].tail == None))
    && (status == Some(Resync) ==> f.rel !in after)
    && (status == None || status == Some(Rejected) ==> SameEntry(after, before, f.rel))
  }

  lemma SettledIs(state: ClientState, v: ClientState, f: LocalFile, status: Option<Status>, src: Sources)
    requires SameEntry(v, Settle(state, f, status, src), f.rel)
    ensures Remembered(state, v, f, status, src)
  {
  }

  lemma {:induction false} AllSent(p: Plan, src: Sources)
    requires forall x :: x in p ==> x.0.rel in src && x.1 <= x.0.size <= |src[x.0.rel]|
    ensures SentOf(p, src) == p
  {
    if |p| > 0 {
      assert p[0] in p;
      AllSent(p[1..], src);
    }
  }

  // ---------- one planned file, reached or not ----------

  /** The plan of a clean run and its items. */
  lemma PlanFrames(w: World, files: seq<LocalFile>, budget: nat)
    requires ScanOf(files, w.src)
    ensures var p, src := PlanFor(w, files, budget), Contents(w.src);
            var items := Frames(p, src);
            && SentOf(p, src) == p && |items| == |p| && DistinctPlan(p) && DistinctItems(items)
            && (forall i :: 0 <= i < |p| ==>
                  && p[i].0 in files && ToSend(p[i].0, w.state, src)
                  && p[i].1 == OffsetFor(p[i].0, w.state, src) <= p[i].0.size
                  && p[i].0.rel in src && p[i].0.size == |src[p[i].0.rel]|
                  && items[i] == Item(p[i].0.rel, p[i].1, src[p[i].0.rel][p[i].1..p[i].0.size]))
  {
    hide ToSend;
    hide OffsetFor;
    hide PlanOf;
    hide Frames;
    hide SentOf;
    var p, src := PlanFor(w, files, budget), Contents(w.src);
    PlanIs(files, w.state, src, budget);
    AllSent(p, src);
    FramesOf(p, src);
    FramedDistinct(p, src, Frames(p, src));
    forall i | 0 <= i < |p| ensures p[i] in p {}
  }

  lemma FramedDistinct(p: Plan, src: Sources, items: seq<Item>)
    requires Framed(p, src, items, p)
    ensures DistinctItems(items)
  {
  }

  function HeadLen(c: Codec, f: LocalFile, off: nat): nat {
    |c.enc(Head(None, false, Some(f.rel), Some(off), Some(f.size - off)))|
  }

  /** And the length of its header lines. */
  lemma PlanHeads(c: Codec, w: World, files: seq<LocalFile>, budget: nat)
    requires ScanOf(files, w.src)
    ensures var p := PlanFor(w, files, budget);
            var items := Frames(p, Contents(w.src));
            |items| == |p| && forall i :: 0 <= i < |p| ==> HeaderLen(c, items[i]) == HeadLen(c, p[i].0, p[i].1)
  {
    hide ToSend;
    hide OffsetFor;
    hide PlanFor;
    hide Frames;
    hide SentOf;
    PlanFrames(w, files, budget);
  }

  /** A file the server gets to is stored on what was there, and the client hears its status. */
  lemma ReachedFile(w: World, files: seq<LocalFile>, budget: nat, n: nat, i: nat)
    requires ScanOf(files, w.src) && i < n && i < |PlanFor(w, files, budget)|
    ensures var v, x, src := RunTo(w, files, budget, n), PlanFor(w, files, budget)[i], Contents(w.src);
            && x.0.rel in src && x.1 <= x.0.size == |src[x.0.rel]|
            && var (stored, status) := Store(w.inbox, x.0.rel, x.1, x.0.size - x.1, src[x.0.rel][x.1..x.0.size]);
               && SameAt(stored, v.inbox, x.0.rel)
               && SameEntry(v.state, Settle(w.state, x.0, Some(status), src), x.0.rel)
  {
    hide ToSend;
    hide OffsetFor;
    hide PlanFor;
    hide Frames;
    hide SentOf;
    hide Store;
    hide Update;
    hide Deliver;
    hide Statuses;
    hide ScanOf;
    hide DistinctRels;
    var p, src := PlanFor(w, files, budget), Contents(w.src);
    PlanFrames(w, files, budget);
    var items := Frames(p, src);
    var front, x := items[..Min(n, |items|)], p[i];
    assert front[i] == items[i] == Item(x.0.rel, x.1, src[x.0.rel][x.1..x.0.size]);
    forall a, b | 0 <= a < b < |front| ensures front[a].rel != front[b].rel { assert items[a].rel != items[b].rel; }
    FrontAnswered(w.inbox, front, i);
    hide DistinctItems;
    UpdateAt(w.state, p, Statuses(Deliver(w.inbox, front).1), src, i);
  }

  /** Each item is stored on what was there, and its status is heard. */
  lemma FrontAnswered(inbox: Inbox, items: seq<Item>, i: nat)
    requires DistinctItems(items) && i < |items|
    ensures var it := items[i];
            var (final, answers) := Deliver(inbox, items);
            var (stored, status) := Store(inbox, it.rel, it.offset, |it.payload|, it.payload);
            SameAt(stored, final, it.rel) && StatusFor(Statuses(answers), it.rel) == Some(status)
  {
    hide Store;
    hide Deliver;
    DeliverAt(inbox, items, i);
    DeliverLength(inbox, items);
    var answers := Deliver(inbox, items).1;
    forall j | i < j < |answers| ensures answers[j].path != answers[i].path {
      assert items[j].rel != items[i].rel;
    }
    StatusesAt(answers, i);
  }

  lemma {:induction false} DeliverAt(inbox: Inbox, items: seq<Item>, i: nat)
    requires DistinctItems(items) && i < |items|
    ensures var it := items[i];
            var (final, answers) := Deliver(inbox, items);
            var (stored, status) := Store(inbox, it.rel, it.offset, |it.payload|, it.payload);
            && |answers| == |items| && answers[i] == Answer(Some(it.rel), status)
            && SameAt(stored, final, it.rel)
    decreases |items|
  {
    var first, rest := items[0], items[1..];
    var stored := Store(inbox, first.rel, first.offset, |first.payload|, first.payload).0;
    DeliverAnswers(stored, rest);
    forall j | 0 <= j < |rest| ensures rest[j] == items[j + 1] && rest[j].rel != first.rel {}
    if i == 0 {
      DeliverElsewhere(stored, rest, first.rel);
    } else {
      DeliverAt(stored, rest, i - 1);
      assert rest[i - 1] == items[i];
      assert SameAt(inbox, stored, items[i].rel);
    }
  }

  lemma {:induction false} NotHeard(answers: seq<Answer>, r: string)
    requires forall i :: 0 <= i < |answers| ==> answers[i].path != Some(r)
    ensures StatusFor(Statuses(answers), r) == None
  {
    if |answers| > 0 { NotHeard(answers[..|answers| - 1], r); }
  }

  /** A file the server does not get to, or which was not planned, is as it was on both sides. */
  lemma UnreachedFile(w: World, files: seq<LocalFile>, budget: nat, n: nat, r: string)
    requires ScanOf(files, w.src)
    requires var p := PlanFor(w, files, budget); forall i :: 0 <= i < n && i < |p| ==> p[i].0.rel != r
    ensures var v := RunTo(w, files, budget, n); SameAt(w.inbox, v.inbox, r) && SameEntry(v.state, w.state, r)
  {
    hide ToSend;
    hide OffsetFor;
    hide PlanFor;
    hide Frames;
    hide SentOf;
    hide Update;
    hide Deliver;
    hide Statuses;
    hide ScanOf;
    var p, src := PlanFor(w, files, budget), Contents(w.src);
    PlanFrames(w, files, budget);
    var items := Frames(p, src);
    var front := items[..Min(n, |items|)];
    forall i | 0 <= i < |front| ensures front[i].rel != r { assert front[i] == items[i] && p[i].0.rel != r; }
    DeliverElsewhere(w.inbox, front, r);
    DeliverLength(w.inbox, front);
    var statuses := Statuses(Deliver(w.inbox, front).1);
    NotHeard(Deliver(w.inbox, front).1, r);
    if i :| 0 <= i < |p| && p[i].0.rel == r {
      UpdateAt(w.state, p, statuses, src, i);
    } else {
      UpdateElsewhere(w.state, p, statuses, src, r);
    }
  }

  lemma SameRelSameFile(files: seq<LocalFile>, a: LocalFile, b: LocalFile)
    requires DistinctRels(files) && a in files && b in files && a.rel == b.rel
    ensures a == b
  {
    var i :| 0 <= i < |files| && files[i] == a;
    var j :| 0 <= j < |files| && files[j] == b;
    assert i == j;
  }

  /** The same, for a file of the scan. */
  lemma UntouchedFile(w: World, files: seq<LocalFile>, budget: nat, n: nat, f: LocalFile)
    requires ScanOf(files, w.src) && f in files
    requires var p := PlanFor(w, files, budget); forall i :: 0 <= i < n && i < |p| ==> p[i].0 != f
    ensures var v := RunTo(w, files, budget, n);
            SameAt(w.inbox, v.inbox, f.rel) && SameEntry(v.state, w.state, f.rel)
  {
    hide PlanFor;
    hide RunTo;
    var p := PlanFor(w, files, budget);
    PlanFrames(w, files, budget);
    forall i | 0 <= i < n && i < |p| ensures p[i].0.rel != f.rel {
      if p[i].0.rel == f.rel { SameRelSameFile(files, p[i].0, f); }
    }
    UnreachedFile(w, files, budget, n, f.rel);
  }

  lemma {:induction false} UpdateNone(state: ClientState, sent: Plan, src: Sources)
    ensures Update(state, sent, map[], src) == state
    decreases |sent|
  {
    if |sent| > 0 { UpdateNone(state, sent[1..], src); }
  }

  /** A run in which the server gets to nothing changes nothing. */
  lemma NothingReached(w: World, files: seq<LocalFile>, budget: nat)
    ensures RunTo(w, files, budget, 0) == w
  {
    hide PlanFor;
    hide Frames;
    hide SentOf;
    var p, src := PlanFor(w, files, budget), Contents(w.src);
    assert Frames(p, src)[..0] == [];
    assert Statuses([]) == map[];
    UpdateNone(w.state, SentOf(p, src), src);
  }

  // ---------- progress ----------

  function Weight(f: LocalFile, state: ClientState, src: Sources): nat {
    if !ToSend(f, state, src) then 0 else if OffsetFor(f, state, src) > 0 then 2 else 1
  }

  /** How far the client is from done: two for a file it would send the tail of, one for a whole one. */
  function Distance(files: seq<LocalFile>, state: ClientState, src: Sources): nat {
    if |files| == 0 then 0 else Weight(files[0], state, src) + Distance(files[1..], state, src)
  }

  /** A file that was reached is up to date, or is to be sent whole next. */
  lemma SettledIsLighter(w: World, v: World, f: LocalFile, off: nat)
    requires v.src == w.src && f.rel in w.src && off <= f.size == |w.src[f.rel].data|
    requires ToSend(f, w.state, Contents(w.src)) && off == OffsetFor(f, w.state, Contents(w.src))
    requires var status := Store(w.inbox, f.rel, off, f.size - off, w.src[f.rel].data[off..f.size]).1;
             SameEntry(v.state, Settle(w.state, f, Some(status), Contents(w.src)), f.rel)
    ensures UpToDate(f, v.state) || (off > 0 && f.rel !in v.state)
    ensures Weight(f, v.state, Contents(w.src)) < Weight(f, w.state, Contents(w.src))
  {
  }

  lemma RunWeight(w: World, files: seq<LocalFile>, budget: nat, n: nat, f: LocalFile)
    requires ScanOf(files, w.src) && f in files
    ensures var v, p, src := RunTo(w, files, budget, n), PlanFor(w, files, budget), Contents(w.src);
            && Weight(f, v.state, src) <= Weight(f, w.state, src)
            && ((exists i :: 0 <= i < n && i < |p| && p[i].0 == f) ==>
                  Weight(f, v.state, src) < Weight(f, w.state, src))
  {
    hide PlanFor;
    hide RunTo;
    hide Weight;
    hide Frames;
    hide SentOf;
    hide Store;
    hide Settle;
    hide ToSend;
    hide OffsetFor;
    var p, v := PlanFor(w, files, budget), RunTo(w, files, budget, n);
    RunToKeepsSources(w, files, budget, n);
    PlanFrames(w, files, budget);
    if i :| 0 <= i < n && i < |p| && p[i].0 == f {
      ReachedFile(w, files, budget, n, i);
      SettledIsLighter(w, v, f, p[i].1);
    } else {
      UntouchedFile(w, files, budget, n, f);
      SameWeight(f, w.state, v.state, Contents(w.src));
    }
  }

  lemma RunToKeepsSources(w: World, files: seq<LocalFile>, budget: nat, n: nat)
    ensures RunTo(w, files, budget, n).src == w.src
  {
  }

  lemma SameWeight(f: LocalFile, a: ClientState, b: ClientState, src: Sources)
    requires SameEntry(b, a, f.rel)
    ensures Weight(f, b, src) == Weight(f, a, src)
  {
  }

  lemma {:induction false} DistanceFalls(w: World, all: seq<LocalFile>, budget: nat, n: nat, files: seq<LocalFile>)
    requires ScanOf(all, w.src) && forall f :: f in files ==> f in all
    ensures var v, p, src := RunTo(w, all, budget, n), PlanFor(w, all, budget), Contents(w.src);
            && Distance(files, v.state, src) <= Distance(files, w.state, src)
            && ((exists i :: 0 <= i < n && i < |p| && p[i].0 in files) ==>
                  Distance(files, v.state, src) < Distance(files, w.state, src))
  {
    hide RunTo;
    hide PlanFor;
    hide Weight;
    hide ScanOf;
    if |files| > 0 {
      assert files[0] in files;
      RunWeight(w, all, budget, n, files[0]);
      DistanceFalls(w, all, budget, n, files[1..]);
      forall f | f in files ensures f == files[0] || f in files[1..] {}
    }
  }

  /** While anything is left, a fault-free run brings the client strictly nearer if and only if the server
      can read the header of the first file planned; otherwise the run changes nothing at all. */
  lemma {:induction false} RunProgresses(c: Codec, w: World, files: seq<LocalFile>, budget: nat)
    requires ScanOf(files, w.src) && Distance(files, w.state, Contents(w.src)) > 0
    ensures var v, p, src := FaultFreeRun(c, w, files, budget), PlanFor(w, files, budget), Contents(w.src);
            && |p| > 0 && p[0].0 in files && ToSend(p[0].0, w.state, src) && p[0].1 == OffsetFor(p[0].0, w.state, src)
            && (Distance(files, v.state, src) < Distance(files, w.state, src)
                <==> HeadLen(c, p[0].0, p[0].1) < HEADER_LIMIT)
            && (HeadLen(c, p[0].0, p[0].1) >= HEADER_LIMIT ==> v == w)
  {
    hide ToSend;
    hide OffsetFor;
    hide RunTo;
    hide Distance;
    hide Frames;
    hide SentOf;
    var p, src := PlanFor(w, files, budget), Contents(w.src);
    var f := SomeLeft(files, w.state, src);
    PlanIs(files, w.state, src, budget);
    hide PlanFor;
    PlanFrames(w, files, budget);
    PlanHeads(c, w, files, budget);
    var n := Readable(c, Frames(p, src));
    if HeadLen(c, p[0].0, p[0].1) < HEADER_LIMIT {
      DistanceFalls(w, files, budget, n, files);
    } else {
      NothingReached(w, files, budget);
    }
  }

  /** The same of the run itself. */
  lemma CleanRunProgresses(c: Codec, w: World, e: Push)
    requires JsonLike(c) && Legal(c, w, Run(e)) && Clean(c, w, e) && Distance(e.files, w.state, Contents(w.src)) > 0
    ensures var v, p, src := Step(c, w, Run(e)), PlanFor(w, e.files, e.budget), Contents(w.src);
            && |p| > 0
            && (Distance(e.files, v.state, src) < Distance(e.files, w.state, src)
                <==> HeadLen(c, p[0].0, p[0].1) < HEADER_LIMIT)
            && (HeadLen(c, p[0].0, p[0].1) >= HEADER_LIMIT ==> v == w)
  {
    hide Step;
    hide FaultFreeRun;
    hide PlanFor;
    hide Distance;
    CleanIs(c, w, e);
    RunProgresses(c, w, e.files, e.budget);
  }

  lemma {:induction false} SomeLeft(files: seq<LocalFile>, state: ClientState, src: Sources) returns (f: LocalFile)
    requires Distance(files, state, src) > 0
    ensures f in files && ToSend(f, state, src)
  {
    if Weight(files[0], state, src) > 0 {
      f := files[0];
    } else {
      f := SomeLeft(files[1..], state, src);
    }
  }

  lemma {:induction false} NoDistance(files: seq<LocalFile>, state: ClientState, src: Sources, f: LocalFile)
    requires Distance(files, state, src) == 0 && f in files
    ensures UpToDate(f, state)
  {
    if f == files[0] {
      assert Weight(f, state, src) == 0;
    } else {
      NoDistance(files[1..], state, src, f);
    }
  }

  lemma {:induction false} DistanceBound(files: seq<LocalFile>, state: ClientState, src: Sources)
    ensures Distance(files, state, src) <= 2 * |files|
  {
    if |files| > 0 { DistanceBound(files[1..], state, src); }
  }

  // ---------- headers that are too long ----------

  /** The header of what would be sent of `f` is too long, now or after the resync that is due. */
  predicate Blocked(c: Codec, w: World, f: LocalFile) {
    var src := Contents(w.src);
    var off := OffsetFor(f, w.state, src);
    && ToSend(f, w.state, src)
    && (HeadLen(c, f, off) > HEADER_LIMIT
        || (off > 0 && !(f.rel in w.inbox && |w.inbox[f.rel]| == off) && HeadLen(c, f, 0) > HEADER_LIMIT))
  }

  /** No header that is due for `f`, now or after a resync, is exactly as long as the limit. */
  ghost predicate AvoidsExact(c: Codec, w: World, f: LocalFile) {
    var src := Contents(w.src);
    var off := OffsetFor(f, w.state, src);
    ToSend(f, w.state, src) ==> HeadLen(c, f, off) != HEADER_LIMIT && (off > 0 ==> HeadLen(c, f, 0) != HEADER_LIMIT)
  }

  ghost predicate Avoids(c: Codec, w: World, files: seq<LocalFile>) {
    forall f :: f in files ==> AvoidsExact(c, w, f)
  }

  /** The header of `f` as it is to be sent now. */
  ghost predicate StopsRun(c: Codec, w: World, f: LocalFile) {
    ToSend(f, w.state, Contents(w.src)) && HeadLen(c, f, OffsetFor(f, w.state, Contents(w.src))) > HEADER_LIMIT
  }

  /** What one clean run does with one file: nothing, or ... */
  ghost predicate Untouched(w: World, v: World, f: LocalFile) {
    v.src == w.src && SameAt(w.inbox, v.inbox, f.rel) && SameEntry(v.state, w.state, f.rel)
  }

  /** ... its payload is stored on what was there and the client hears of it. */
  ghost predicate Served(c: Codec, w: World, v: World, f: LocalFile) {
    var src := Contents(w.src);
    var off := OffsetFor(f, w.state, src);
    && v.src == w.src
    && ToSend(f, w.state, src) && HeadLen(c, f, off) < HEADER_LIMIT
    && f.rel in src && off <= f.size == |src[f.rel]|
    && var (stored, status) := Store(w.inbox, f.rel, off, f.size - off, src[f.rel][off..f.size]);
       && SameAt(stored, v.inbox, f.rel)
       && SameEntry(v.state, Settle(w.state, f, Some(status), src), f.rel)
  }

  lemma UntouchedOrServed(c: Codec, w: World, files: seq<LocalFile>, budget: nat, f: LocalFile)
    requires ScanOf(files, w.src) && f in files
    ensures var v := FaultFreeRun(c, w, files, budget); Untouched(w, v, f) || Served(c, w, v, f)
  {
    hide PlanFor;
    hide Frames;
    hide ToSend;
    hide OffsetFor;
    hide Store;
    hide Settle;
    hide ScanOf;
    var p, src := PlanFor(w, files, budget), Contents(w.src);
    var n := Readable(c, Frames(p, src));
    assert RunTo(w, files, budget, n).src == w.src;
    hide RunTo;
    PlanFrames(w, files, budget);
    PlanHeads(c, w, files, budget);
    if i :| 0 <= i < n && i < |p| && p[i].0 == f {
      ReachedFile(w, files, budget, n, i);
    } else {
      UntouchedFile(w, files, budget, n, f);
    }
  }

  /** All that is said of one file depends on its own entry and its own copy only. */
  lemma UntouchedIsSame(c: Codec, w: World, v: World, f: LocalFile)
    requires Untouched(w, v, f)
    ensures ToSend(f, v.state, Contents(v.src)) == ToSend(f, w.state, Contents(w.src))
    ensures OffsetFor(f, v.state, Contents(v.src)) == OffsetFor(f, w.state, Contents(w.src))
    ensures UpToDate(f, v.state) == UpToDate(f, w.state)
    ensures Blocked(c, v, f) == Blocked(c, w, f) && StopsRun(c, v, f) == StopsRun(c, w, f)
    ensures AvoidsExact(c, v, f) == AvoidsExact(c, w, f)
  {
  }

  /** A served file is up to date, or was at an offset the server does not store at, and is then to be sent
      whole: if it was blocked, by a header that stops the run. */
  lemma ServedIs(c: Codec, w: World, v: World, f: LocalFile)
    requires Served(c, w, v, f)
    ensures Blocked(c, w, f) ==> Blocked(c, v, f) && StopsRun(c, v, f) && SameAt(w.inbox, v.inbox, f.rel)
    ensures !Blocked(c, w, f) && AvoidsExact(c, w, f) ==> !Blocked(c, v, f)
    ensures AvoidsExact(c, w, f) ==> AvoidsExact(c, v, f)
  {
  }

  lemma StaleEntry(state: ClientState, f: LocalFile, src: Sources)
    ensures ToSend(f, state, src) <==> !UpToDate(f, state)
    ensures ToSend(f, state, src) && OffsetFor(f, state, src) > 0 ==> f.rel in state
  {
  }

  /** What stays as it is over a clean run. */
  lemma FileStays(c: Codec, w: World, files: seq<LocalFile>, budget: nat, f: LocalFile)
    requires ScanOf(files, w.src) && f in files
    ensures var v := FaultFreeRun(c, w, files, budget);
            && v.src == w.src
            && (Blocked(c, w, f) ==> Blocked(c, v, f) && SameAt(w.inbox, v.inbox, f.rel))
            && (!Blocked(c, w, f) && AvoidsExact(c, w, f) ==> !Blocked(c, v, f))
            && (AvoidsExact(c, w, f) ==> AvoidsExact(c, v, f))
            && (UpToDate(f, w.state) ==> Untouched(w, v, f))
  {
    hide Blocked;
    hide AvoidsExact;
    hide StopsRun;
    hide FaultFreeRun;
    hide OffsetFor;
    hide ToSend;
    hide UpToDate;
    hide Store;
    hide Settle;
    hide SameAt;
    hide SameEntry;
    var v := FaultFreeRun(c, w, files, budget);
    UntouchedOrServed(c, w, files, budget, f);
    StaleEntry(w.state, f, Contents(w.src));
    if Served(c, w, v, f) {
      ServedIs(c, w, v, f);
    } else {
      UntouchedIsSame(c, w, v, f);
    }
  }

  // ---------- over many runs ----------

  function FaultFreeRuns(c: Codec, w: World, files: seq<LocalFile>, budget: nat, n: nat): World {
    if n == 0 then w else FaultFreeRun(c, FaultFreeRuns(c, w, files, budget, n - 1), files, budget)
  }

  /** A blocked file never arrives: however many clean runs there are, its copy stays as it is, and it is
      never up to date; and a file that is not blocked never gets to be. */
  lemma {:induction false} BlockedForever(c: Codec, w: World, files: seq<LocalFile>, budget: nat, n: nat, f: LocalFile)
    requires ScanOf(files, w.src) && f in files
    ensures var v := FaultFreeRuns(c, w, files, budget, n);
            && v.src == w.src
            && (Blocked(c, w, f) ==> Blocked(c, v, f) && SameAt(w.inbox, v.inbox, f.rel) && !UpToDate(f, v.state))
            && (AvoidsExact(c, w, f) ==> AvoidsExact(c, v, f) && Blocked(c, v, f) == Blocked(c, w, f))
  {
    hide FaultFreeRun;
    hide Blocked;
    hide AvoidsExact;
    hide ScanOf;
    hide UpToDate;
    if n > 0 {
      BlockedForever(c, w, files, budget, n - 1, f);
      FileStays(c, FaultFreeRuns(c, w, files, budget, n - 1), files, budget, f);
    }
    BlockedIsBehind(c, FaultFreeRuns(c, w, files, budget, n), f);
  }

  lemma BlockedIsBehind(c: Codec, w: World, f: LocalFile)
    ensures Blocked(c, w, f) ==> !UpToDate(f, w.state)
    ensures StopsRun(c, w, f) ==> Blocked(c, w, f)
  {
  }

  lemma {:induction false} TodoHas(files: seq<LocalFile>, state: ClientState, src: Sources, i: nat) returns (x: nat)
    requires i < |files| && ToSend(files[i], state, src)
    ensures x < |Todo(files, state, src)| && Todo(files, state, src)[x].0 == files[i]
  {
    hide ToSend;
    hide OffsetFor;
    if i == 0 {
      x := 0;
    } else {
      x := TodoHas(files[1..], state, src, i - 1);
      if ToSend(files[0], state, src) { x := x + 1; }
    }
  }

  lemma {:induction false} TodoKeepsOrder(files: seq<LocalFile>, state: ClientState, src: Sources, i: nat, j: nat)
    returns (x: nat, y: nat)
    requires i < j < |files| && ToSend(files[i], state, src) && ToSend(files[j], state, src)
    ensures var t := Todo(files, state, src); x < y < |t| && t[x].0 == files[i] && t[y].0 == files[j]
  {
    hide ToSend;
    hide OffsetFor;
    if i == 0 {
      x := 0;
      y := TodoHas(files[1..], state, src, j - 1);
      y := y + 1;
    } else {
      x, y := TodoKeepsOrder(files[1..], state, src, i - 1, j - 1);
      if ToSend(files[0], state, src) { x, y := x + 1, y + 1; }
    }
  }

  /** What precedes a planned file and is to be sent is planned before it. */
  lemma PlannedBefore(w: World, files: seq<LocalFile>, budget: nat, f: LocalFile, j: nat) returns (i: nat)
    requires ScanOf(files, w.src) && ToSend(f, w.state, Contents(w.src))
    requires j < |PlanFor(w, files, budget)| && Precedes(files, f, PlanFor(w, files, budget)[j].0)
    ensures i < j && PlanFor(w, files, budget)[i].0 == f
  {
    hide ToSend;
    hide OffsetFor;
    hide Take;
    hide Todo;
    hide SortByMtime;
    var p, src := PlanFor(w, files, budget), Contents(w.src);
    var sorted := SortByMtime(files);
    var todo := Todo(sorted, w.state, src);
    SortedTodo(files, w.state, src);
    TakeIs(todo, budget, 0, 0);
    assert p[j] == todo[j] && p[j] in todo;
    var a, b :| 0 <= a < b < |sorted| && sorted[a] == f && sorted[b] == p[j].0;
    var y;
    i, y := TodoKeepsOrder(sorted, w.state, src, a, b);
    assert y == j;
    assert p[i] == todo[i];
  }

  lemma OneOrTheOther(files: seq<LocalFile>, f: LocalFile, g: LocalFile)
    requires f in files && g in files && f != g
    ensures Precedes(files, f, g) || Precedes(files, g, f)
  {
    hide SortByMtime;
    var sorted := SortByMtime(files);
    SortedByMtime(files);
    assert f in multiset(sorted) && g in multiset(sorted);
    var i :| 0 <= i < |sorted| && sorted[i] == f;
    var j :| 0 <= j < |sorted| && sorted[j] == g;
  }

  /** The first planned file precedes whatever else is to be sent. */
  lemma FirstPlanned(w: World, files: seq<LocalFile>, budget: nat, f: LocalFile)
    requires ScanOf(files, w.src) && f in files && ToSend(f, w.state, Contents(w.src))
    ensures var p := PlanFor(w, files, budget); |p| > 0 && (p[0].0 == f || Precedes(files, p[0].0, f))
  {
    hide ToSend;
    hide OffsetFor;
    hide PlanOf;
    hide Precedes;
    var p := PlanFor(w, files, budget);
    PlanIs(files, w.state, Contents(w.src), budget);
    assert p[0] in p;
    if p[0].0 != f {
      OneOrTheOther(files, f, p[0].0);
      if Precedes(files, f, p[0].0) {
        var i := PlannedBefore(w, files, budget, f, 0);
      }
    }
  }

  /** A file with an over-long header stands before `f`. */
  ghost predicate Behind(c: Codec, w: World, files: seq<LocalFile>, f: LocalFile) {
    exists g :: g in files && Precedes(files, g, f) && StopsRun(c, w, g)
  }

  lemma NotServed(c: Codec, w: World, files: seq<LocalFile>, budget: nat, f: LocalFile)
    requires ScanOf(files, w.src) && f in files && (Behind(c, w, files, f) || StopsRun(c, w, f))
    ensures Untouched(w, FaultFreeRun(c, w, files, budget), f)
  {
    hide PlanFor;
    hide Frames;
    hide ToSend;
    hide OffsetFor;
    hide Precedes;
    hide ScanOf;
    var p, src := PlanFor(w, files, budget), Contents(w.src);
    PlanFrames(w, files, budget);
    PlanHeads(c, w, files, budget);
    var n := Readable(c, Frames(p, src));
    assert RunTo(w, files, budget, n).src == w.src;
    forall j | 0 <= j < n && j < |p| ensures p[j].0 != f {
      if p[j].0 == f && Behind(c, w, files, f) {
        var g :| g in files && Precedes(files, g, f) && StopsRun(c, w, g);
        var i := PlannedBefore(w, files, budget, g, j);
      }
    }
    hide RunTo;
    UntouchedFile(w, files, budget, n, f);
  }

  /** What stands behind such a file is neither stored nor remembered any more, nor is that file. */
  lemma {:induction false} NewerFilesStarve(c: Codec, w: World, files: seq<LocalFile>, budget: nat, n: nat,
                                            f: LocalFile, g: LocalFile)
    requires ScanOf(files, w.src) && f in files && g in files && StopsRun(c, w, f) && Precedes(files, f, g)
    ensures var v := FaultFreeRuns(c, w, files, budget, n);
            Untouched(w, v, f) && Untouched(w, v, g) && StopsRun(c, v, f)
  {
    hide FaultFreeRun;
    hide StopsRun;
    hide ScanOf;
    hide Precedes;
    if n > 0 {
      NewerFilesStarve(c, w, files, budget, n - 1, f, g);
      var u := FaultFreeRuns(c, w, files, budget, n - 1);
      assert Behind(c, u, files, g);
      NotServed(c, u, files, budget, f);
      NotServed(c, u, files, budget, g);
      UntouchedIsSame(c, u, FaultFreeRun(c, u, files, budget), f);
    }
  }

  // ---------- when a file becomes complete ----------

  /** A clean run is one of the runs of a history, so it keeps the invariant. */
  lemma FaultFreeRunKeepsInv(c: Codec, w: World, files: seq<LocalFile>, budget: nat)
    requires JsonLike(c) && Inv(w) && ScanOf(files, w.src) && Avoids(c, w, files) && budget <= MAX_RUN_SERVER
    ensures Inv(FaultFreeRun(c, w, files, budget))
  {
    hide Frames;
    hide PlanFor;
    hide ToSend;
    hide OffsetFor;
    hide FaultFreeRun;
    hide Step;
    hide Stream;
    PlanFrames(w, files, budget);
    PlanHeads(c, w, files, budget);
    assert NoneExact(c, Frames(PlanFor(w, files, budget), Contents(w.src)));
    WholeIsClean(c, w, files, budget);
    var e := WholePush(c, w, files, budget);
    CleanIs(c, w, e);
    BridgeHistory.RunKeepsInv(c, w, e);
  }

  lemma {:induction false} FaultFreeRunsKeepInv(c: Codec, w: World, files: seq<LocalFile>, budget: nat, n: nat)
    requires JsonLike(c) && Inv(w) && ScanOf(files, w.src) && Avoids(c, w, files) && budget <= MAX_RUN_SERVER
    ensures var v := FaultFreeRuns(c, w, files, budget, n); Inv(v) && v.src == w.src && Avoids(c, v, files)
  {
    hide FaultFreeRun;
    hide Inv;
    hide AvoidsExact;
    hide ScanOf;
    if n > 0 {
      FaultFreeRunsKeepInv(c, w, files, budget, n - 1);
      var u := FaultFreeRuns(c, w, files, budget, n - 1);
      FaultFreeRunKeepsInv(c, u, files, budget);
      RunKeepsSources(c, u, files, budget);
      forall f | f in files ensures AvoidsExact(c, FaultFreeRun(c, u, files, budget), f) {
        FileStays(c, u, files, budget, f);
      }
    }
  }

  lemma RunKeepsSources(c: Codec, w: World, files: seq<LocalFile>, budget: nat)
    ensures FaultFreeRun(c, w, files, budget).src == w.src
  {
  }

  ghost predicate Complete(w: World, f: LocalFile) {
    f.rel in w.inbox && f.rel in w.src && w.inbox[f.rel] == w.src[f.rel].data && UpToDate(f, w.state)
  }

  lemma UpToDateIsComplete(w: World, files: seq<LocalFile>, f: LocalFile)
    requires Inv(w) && ScanOf(files, w.src) && f in files
    ensures UpToDate(f, w.state) <==> Complete(w, f)
  {
    if UpToDate(f, w.state) { assert w.state[f.rel].size == |Contents(w.src)[f.rel]|; }
  }

  /** While no over-long header comes to stand before a file that is not blocked, each run brings the
      client nearer, until the file is there. */
  lemma {:induction false} NearerOrThere(c: Codec, w: World, files: seq<LocalFile>, budget: nat, n: nat, f: LocalFile)
    requires ScanOf(files, w.src) && f in files && Avoids(c, w, files) && !Blocked(c, w, f)
    requires forall k :: 0 <= k < n ==> !Behind(c, FaultFreeRuns(c, w, files, budget, k), files, f)
    ensures var v, src := FaultFreeRuns(c, w, files, budget, n), Contents(w.src);
            UpToDate(f, v.state) || Distance(files, v.state, src) <= Max(0, Distance(files, w.state, src) - n)
  {
    hide FaultFreeRun;
    hide Blocked;
    hide AvoidsExact;
    hide ScanOf;
    hide UpToDate;
    hide Distance;
    hide Behind;
    if n > 0 {
      NearerOrThere(c, w, files, budget, n - 1, f);
      var u := FaultFreeRuns(c, w, files, budget, n - 1);
      forall g | g in files ensures AvoidsExact(c, u, g) && u.src == w.src {
        BlockedForever(c, w, files, budget, n - 1, g);
      }
      BlockedForever(c, w, files, budget, n - 1, f);
      NearerOnce(c, u, files, budget, f);
    }
  }

  lemma NearerOnce(c: Codec, u: World, files: seq<LocalFile>, budget: nat, f: LocalFile)
    requires ScanOf(files, u.src) && f in files && Avoids(c, u, files) && !Blocked(c, u, f) && !Behind(c, u, files, f)
    ensures var v, src := FaultFreeRun(c, u, files, budget), Contents(u.src);
            && (UpToDate(f, v.state) || Distance(files, v.state, src) < Distance(files, u.state, src))
            && (UpToDate(f, u.state) ==> UpToDate(f, v.state))
  {
    hide FaultFreeRun;
    hide OffsetFor;
    hide ToSend;
    hide UpToDate;
    hide Distance;
    hide Precedes;
    hide PlanFor;
    hide ScanOf;
    StaleEntry(u.state, f, Contents(u.src));
    if UpToDate(f, u.state) {
      FileStays(c, u, files, budget, f);
      UntouchedIsSame(c, u, FaultFreeRun(c, u, files, budget), f);
    } else {
      LeftHasDistance(files, u.state, Contents(u.src), f);
      RunProgresses(c, u, files, budget);
      FirstPlanned(u, files, budget, f);
      var first := PlanFor(u, files, budget)[0].0;
      assert AvoidsExact(c, u, first);
      if StopsRun(c, u, first) { BlockedIsBehind(c, u, first); }
    }
  }

  lemma {:induction false} LeftHasDistance(files: seq<LocalFile>, state: ClientState, src: Sources, f: LocalFile)
    requires f in files && ToSend(f, state, src)
    ensures Distance(files, state, src) > 0
  {
    hide ToSend;
    hide OffsetFor;
    if f != files[0] { LeftHasDistance(files[1..], state, src, f); }
  }

  /** For every scanned file, however a history went before: it is complete after twice as many clean runs
      as there are files, or as many as the distance says, whatever the budget, if and only if it is not
      blocked by a header of its own, and was complete by the time, if ever, that an over-long header came
      to stand before it. */
  lemma FileBecomesComplete(c: Codec, w: World, files: seq<LocalFile>, budget: nat, n: nat, f: LocalFile)
    requires JsonLike(c) && Inv(w) && ScanOf(files, w.src) && Avoids(c, w, files) && budget <= MAX_RUN_SERVER
    requires f in files && (n >= 2 * |files| || n >= Distance(files, w.state, Contents(w.src)))
    ensures Complete(FaultFreeRuns(c, w, files, budget, n), f)
            <==> && !Blocked(c, w, f)
                 && forall k :: 0 <= k <= n && Behind(c, FaultFreeRuns(c, w, files, budget, k), files, f) ==>
                      Complete(FaultFreeRuns(c, w, files, budget, k), f)
  {
    hide FaultFreeRuns;
    hide Blocked;
    hide AvoidsExact;
    hide ScanOf;
    hide UpToDate;
    hide Distance;
    hide Behind;
    hide Inv;
    hide Complete;
    var v := FaultFreeRuns(c, w, files, budget, n);
    BlockedIsNeverComplete(c, w, files, budget, n, f);
    if Complete(v, f) {
      forall k | 0 <= k <= n && Behind(c, FaultFreeRuns(c, w, files, budget, k), files, f)
        ensures Complete(FaultFreeRuns(c, w, files, budget, k), f)
      {
        FrozenFrom(c, w, files, budget, k, n, f);
      }
    } else if k :| 0 <= k <= n && Behind(c, FaultFreeRuns(c, w, files, budget, k), files, f) {
      FrozenFrom(c, w, files, budget, k, n, f);
    } else if !Blocked(c, w, f) {
      NeverBehind(c, w, files, budget, n, f);
    }
  }

  lemma BlockedIsNeverComplete(c: Codec, w: World, files: seq<LocalFile>, budget: nat, n: nat, f: LocalFile)
    requires ScanOf(files, w.src) && f in files
    ensures Complete(FaultFreeRuns(c, w, files, budget, n), f) ==> !Blocked(c, w, f)
  {
    hide FaultFreeRuns;
    hide Blocked;
    BlockedForever(c, w, files, budget, n, f);
  }

  lemma NeverBehind(c: Codec, w: World, files: seq<LocalFile>, budget: nat, n: nat, f: LocalFile)
    requires JsonLike(c) && Inv(w) && ScanOf(files, w.src) && Avoids(c, w, files) && budget <= MAX_RUN_SERVER
    requires f in files && (n >= 2 * |files| || n >= Distance(files, w.state, Contents(w.src)))
    requires !Blocked(c, w, f)
    requires forall k :: 0 <= k <= n ==> !Behind(c, FaultFreeRuns(c, w, files, budget, k), files, f)
    ensures Complete(FaultFreeRuns(c, w, files, budget, n), f)
  {
    hide FaultFreeRuns;
    hide Blocked;
    hide AvoidsExact;
    hide ScanOf;
    hide UpToDate;
    hide Distance;
    hide Behind;
    hide Inv;
    hide Complete;
    var v := FaultFreeRuns(c, w, files, budget, n);
    FaultFreeRunsKeepInv(c, w, files, budget, n);
    UpToDateIsComplete(v, files, f);
    DistanceBound(files, w.state, Contents(w.src));
    NearerOrThere(c, w, files, budget, n, f);
    if !UpToDate(f, v.state) { NoDistance(files, v.state, Contents(w.src), f); }
  }

  /** Once behind, a file stays as it is. */
  lemma FrozenFrom(c: Codec, w: World, files: seq<LocalFile>, budget: nat, m: nat, n: nat, f: LocalFile)
    requires ScanOf(files, w.src) && f in files && m <= n && Behind(c, FaultFreeRuns(c, w, files, budget, m), files, f)
    ensures Complete(FaultFreeRuns(c, w, files, budget, n), f) == Complete(FaultFreeRuns(c, w, files, budget, m), f)
  {
    hide FaultFreeRuns;
    hide ScanOf;
    hide StopsRun;
    hide Precedes;
    var u := FaultFreeRuns(c, w, files, budget, m);
    BlockedForever(c, w, files, budget, m, f);
    var g :| g in files && Precedes(files, g, f) && StopsRun(c, u, g);
    NewerFilesStarve(c, u, files, budget, n - m, g, f);
    RunsCompose(c, w, files, budget, m, n - m);
  }

  lemma {:induction false} RunsCompose(c: Codec, w: World, files: seq<LocalFile>, budget: nat, m: nat, n: nat)
    ensures FaultFreeRuns(c, FaultFreeRuns(c, w, files, budget, m), files, budget, n)
            == FaultFreeRuns(c, w, files, budget, m + n)
  {
    hide FaultFreeRun;
    if n > 0 { RunsCompose(c, w, files, budget, m, n - 1); }
  }

  /** In particular: a file with no blocked file before it becomes complete if and only if it is not blocked
      itself; so blocked files never keep an older one from arriving. */
  lemma {:induction false} NothingInTheWay(c: Codec, w: World, files: seq<LocalFile>, budget: nat, n: nat, f: LocalFile)
    requires JsonLike(c) && Inv(w) && ScanOf(files, w.src) && Avoids(c, w, files) && budget <= MAX_RUN_SERVER
    requires f in files && (n >= 2 * |files| || n >= Distance(files, w.state, Contents(w.src)))
    requires forall g :: g in files && Precedes(files, g, f) ==> !Blocked(c, w, g)
    ensures Complete(FaultFreeRuns(c, w, files, budget, n), f) <==> !Blocked(c, w, f)
  {
    hide FaultFreeRuns;
    hide Blocked;
    hide AvoidsExact;
    hide ScanOf;
    hide Distance;
    hide StopsRun;
    hide Precedes;
    hide Inv;
    hide Complete;
    FileBecomesComplete(c, w, files, budget, n, f);
    forall k | 0 <= k <= n ensures !Behind(c, FaultFreeRuns(c, w, files, budget, k), files, f) {
      var u := FaultFreeRuns(c, w, files, budget, k);
      forall g | g in files && Precedes(files, g, f) ensures !StopsRun(c, u, g) {
        BlockedForever(c, w, files, budget, k, g);
        BlockedIsBehind(c, u, g);
      }
    }
  }

  /** And all of them: the inbox becomes equal to the scanned sources, with the client having nothing to
      send, if and only if no file is blocked. */
  lemma InboxBecomesComplete(c: Codec, w: World, files: seq<LocalFile>, budget: nat, n: nat)
    requires JsonLike(c) && Inv(w) && ScanOf(files, w.src) && Avoids(c, w, files) && budget <= MAX_RUN_SERVER
    requires n >= 2 * |files| || n >= Distance(files, w.state, Contents(w.src))
    ensures (forall f :: f in files ==> Complete(FaultFreeRuns(c, w, files, budget, n), f))
            <==> forall f :: f in files ==> !Blocked(c, w, f)
  {
    hide FaultFreeRuns;
    hide Blocked;
    hide AvoidsExact;
    hide ScanOf;
    hide Distance;
    hide Precedes;
    hide Inv;
    hide Complete;
    if forall f :: f in files ==> !Blocked(c, w, f) {
      forall f | f in files ensures Complete(FaultFreeRuns(c, w, files, budget, n), f) {
        NothingInTheWay(c, w, files, budget, n, f);
      }
    } else {
      var f :| f in files && Blocked(c, w, f);
      FileBecomesComplete(c, w, files, budget, n, f);
    }
  }
}
