/** What a run of the client sends, and what it remembers afterwards (pskit/bridge.py). */
module BridgePlan {
  import opened Common
  import opened BridgePaths
  import opened BridgeWire

  const TAIL: nat := 4096

  datatype LocalFile = LocalFile(rel: string, size: nat, mtime: int, ino: nat)

  /** A digest is as good as the bytes it was computed from: collisions are not part of this model. */
  type Digest = Bytes

  datatype Entry = Entry(size: nat, mtime: int, ino: nat, tail: Option<Digest>)

  type ClientState = map<string, Entry>

  /** The contents of the files that can be opened at some moment. */
  type Sources = map<string, Bytes>

  type Plan = seq<(LocalFile, nat)>

  // ---------- the plan ----------

  /** `tail_hash`: the last bytes before `end`, if the file has that many. */
  function TailHash(src: Sources, rel: string, end: nat): Option<Digest> {
    if rel !in src || |src[rel]| < end then None else Some(src[rel][Max(0, end - TAIL)..end])
  }

  predicate UpToDate(f: LocalFile, state: ClientState) {
    && f.rel in state && state[f.rel].ino == f.ino && state[f.rel].size == f.size && state[f.rel].mtime == f.mtime
  }

  function OffsetFor(f: LocalFile, state: ClientState, src: Sources): nat {
    if f.rel in state && state[f.rel].ino == f.ino && f.size > state[f.rel].size && state[f.rel].tail.Some?
       && TailHash(src, f.rel, state[f.rel].size) == state[f.rel].tail
    then state[f.rel].size else 0
  }

  predicate ToSend(f: LocalFile, state: ClientState, src: Sources) {
    && !UpToDate(f, state)
    && !(f.size == OffsetFor(f, state, src) && OffsetFor(f, state, src) > 0)
  }

  /** When a file is sent from where the server has it: it is the same file, it has grown since the client
      remembered it, and its last 4096 bytes of then are as they were. Otherwise it is sent whole. */
  lemma AppendsExactly(f: LocalFile, state: ClientState, src: Sources, was: Bytes)
    requires f.rel in state && state[f.rel].size == |was|
    requires state[f.rel].tail == Some(was[if |was| > 4096 then |was| - 4096 else 0..])
    ensures var e, n := state[f.rel], if |was| > 4096 then 4096 else |was|;
            OffsetFor(f, state, src)
            == if e.ino == f.ino && f.size > |was| && f.rel in src && |src[f.rel]| >= |was|
                  && src[f.rel][|was| - n..|was|] == was[|was| - n..] then |was| else 0
  {
  }

  /** A file the client has no digest of is sent whole; and what is sent is all that is not as remembered. */
  lemma SentUnlessAsRemembered(f: LocalFile, state: ClientState, src: Sources)
    ensures !(f.rel in state && state[f.rel].tail.Some?) ==> OffsetFor(f, state, src) == 0
    ensures ToSend(f, state, src)
            <==> !(f.rel in state && state[f.rel].size == f.size && state[f.rel].mtime == f.mtime
                   && state[f.rel].ino == f.ino)
  {
  }

  function Todo(files: seq<LocalFile>, state: ClientState, src: Sources): Plan {
    if |files| == 0 then []
    else
      (if ToSend(files[0], state, src) then [(files[0], OffsetFor(files[0], state, src))] else [])
      + Todo(files[1..], state, src)
  }

  function Cost(p: (LocalFile, nat)): int {
    p.0.size - p.1
  }

  /** The part of `todo` that fits, `n` files and `used` bytes being taken already. */
  function Take(todo: Plan, budget: nat, n: nat, used: int): Plan {
    if |todo| == 0 || (n > 0 && (used + Cost(todo[0]) > budget || n >= MAX_FILES_RUN)) then []
    else [todo[0]] + Take(todo[1..], budget, n + 1, used + Cost(todo[0]))
  }

  /** `sorted(files, key=mtime)`, which is stable. */
  function Insert(f: LocalFile, sorted: seq<LocalFile>): seq<LocalFile> {
    if |sorted| == 0 || f.mtime <= sorted[0].mtime then [f] + sorted
    else [sorted[0]] + Insert(f, sorted[1..])
  }

  function SortByMtime(files: seq<LocalFile>): seq<LocalFile> {
    if |files| == 0 then [] else Insert(files[0], SortByMtime(files[1..]))
  }

  function PlanOf(files: seq<LocalFile>, state: ClientState, src: Sources, budget: nat): Plan {
    Take(Todo(SortByMtime(files), state, src), budget, 0, 0)
  }

  // ---------- what a plan guarantees ----------

  ghost predicate DistinctRels(files: seq<LocalFile>) {
    forall i, j :: 0 <= i < j < |files| ==> files[i].rel != files[j].rel
  }

  ghost predicate DistinctPlan(p: Plan) {
    forall i, j :: 0 <= i < j < |p| ==> p[i].0.rel != p[j].0.rel
  }

  ghost predicate Ordered(files: seq<LocalFile>) {
    forall i, j :: 0 <= i < j < |files| ==> files[i].mtime <= files[j].mtime
  }

  lemma {:induction false} InsertPermutes(f: LocalFile, sorted: seq<LocalFile>)
    ensures multiset(Insert(f, sorted)) == multiset(sorted) + multiset{f}
  {
    if |sorted| > 0 && f.mtime > sorted[0].mtime {
      assert sorted == [sorted[0]] + sorted[1..];
      InsertPermutes(f, sorted[1..]);
    }
  }

  lemma {:induction false} InsertOrders(f: LocalFile, sorted: seq<LocalFile>)
    requires Ordered(sorted)
    ensures Ordered(Insert(f, sorted))
  {
    if |sorted| > 0 && f.mtime > sorted[0].mtime {
      InsertOrders(f, sorted[1..]);
      var t := Insert(f, sorted[1..]);
      InsertPermutes(f, sorted[1..]);
      forall k | 0 <= k < |t| ensures sorted[0].mtime <= t[k].mtime {
        assert t[k] in multiset(t);
        if t[k] != f { assert t[k] in sorted[1..]; }
      }
    }
  }

  /** Oldest change first, nothing lost, nothing twice. */
  lemma {:induction false} SortedByMtime(files: seq<LocalFile>)
    ensures multiset(SortByMtime(files)) == multiset(files)
    ensures Ordered(SortByMtime(files))
  {
    hide Insert;
    if |files| > 0 {
      SortedByMtime(files[1..]);
      InsertPermutes(files[0], SortByMtime(files[1..]));
      InsertOrders(files[0], SortByMtime(files[1..]));
      assert files == [files[0]] + files[1..];
    }
  }

  lemma DistinctByCount(files: seq<LocalFile>, sorted: seq<LocalFile>)
    requires multiset(files) == multiset(sorted) && DistinctRels(files)
    ensures DistinctRels(sorted)
  {
    forall i, j | 0 <= i < j < |sorted| ensures sorted[i].rel != sorted[j].rel {
      var a, b := sorted[i], sorted[j];
      assert a in multiset(files) && b in multiset(files);
      if a.rel == b.rel {
        var x :| 0 <= x < |files| && files[x] == a;
        var y :| 0 <= y < |files| && files[y] == b;
        assert x == y;
        TwiceCounted(sorted, i, j);
        OnceCounted(files, x);
        assert false;
      }
    }
  }

  lemma TwiceCounted(s: seq<LocalFile>, i: nat, j: nat)
    requires i < j < |s| && s[i] == s[j]
    ensures multiset(s)[s[i]] >= 2
  {
    assert s == s[..i] + [s[i]] + s[i + 1..j] + [s[j]] + s[j + 1..];
  }

  lemma OnceCounted(s: seq<LocalFile>, i: nat)
    requires i < |s| && DistinctRels(s)
    ensures multiset(s)[s[i]] == 1
  {
    assert s == s[..i] + [s[i]] + s[i + 1..];
    assert s[i] !in s[..i] && s[i] !in s[i + 1..];
  }

  lemma {:induction false} TodoIs(files: seq<LocalFile>, state: ClientState, src: Sources)
    requires DistinctRels(files)
    ensures var t := Todo(files, state, src);
            && DistinctPlan(t)
            && (forall p :: p in t <==> p.0 in files && ToSend(p.0, state, src) && p.1 == OffsetFor(p.0, state, src))
  {
    if |files| > 0 {
      TodoIs(files[1..], state, src);
      var t := Todo(files[1..], state, src);
      assert files == [files[0]] + files[1..];
      forall i | 0 <= i < |t| ensures t[i].0.rel != files[0].rel {
        assert t[i] in t;
        var k :| 0 <= k < |files[1..]| && files[1..][k] == t[i].0;
        assert files[k + 1].rel != files[0].rel;
      }
    }
  }

  function PlanCost(p: Plan): int {
    if |p| == 0 then 0 else Cost(p[0]) + PlanCost(p[1..])
  }

  lemma {:induction false} TakeIs(todo: Plan, budget: nat, n: nat, used: int)
    ensures var p := Take(todo, budget, n, used);
            && p <= todo
            && n + |p| <= Max(n + (if n == 0 && |todo| > 0 then 1 else 0), MAX_FILES_RUN)
            && (|p| > 0 && n > 0 ==> used + PlanCost(p) <= budget)
            && (|p| > 0 && n == 0 ==> used + PlanCost(p) <= Max(budget, used + Cost(todo[0])))
            && (n == 0 && |todo| > 0 ==> |p| > 0)
            && (|p| < |todo| ==> n + |p| >= MAX_FILES_RUN || used + PlanCost(p) + Cost(todo[|p|]) > budget)
  {
    if |todo| > 0 && !(n > 0 && (used + Cost(todo[0]) > budget || n >= MAX_FILES_RUN)) {
      TakeIs(todo[1..], budget, n + 1, used + Cost(todo[0]));
      var rest := Take(todo[1..], budget, n + 1, used + Cost(todo[0]));
      assert todo == [todo[0]] + todo[1..];
      var p := Take(todo, budget, n, used);
      assert p == [todo[0]] + rest && p[1..] == rest;
    }
  }

  lemma SortedTodo(files: seq<LocalFile>, state: ClientState, src: Sources)
    requires DistinctRels(files)
    ensures var todo := Todo(SortByMtime(files), state, src);
            && DistinctPlan(todo)
            && (forall p :: p in todo <==> p.0 in files && ToSend(p.0, state, src) && p.1 == OffsetFor(p.0, state, src))
  {
    hide ToSend;
    hide OffsetFor;
    var sorted := SortByMtime(files);
    SortedByMtime(files);
    DistinctByCount(files, sorted);
    TodoIs(sorted, state, src);
    forall f ensures f in files <==> f in sorted {
      assert f in files <==> f in multiset(files);
      assert f in sorted <==> f in multiset(sorted);
    }
  }

  /** What `plan` promises: only files that changed, each once and from the offset the state allows;
      within the file limit; within the budget unless it is a single file; and never nothing while
      something is to be sent, so that no budget can starve a file. */
  lemma PlanIs(files: seq<LocalFile>, state: ClientState, src: Sources, budget: nat)
    requires DistinctRels(files)
    requires forall f :: f in files ==> f.size <= MAX_FILE
    ensures var p := PlanOf(files, state, src, budget);
            && DistinctPlan(p)
            && (forall x :: x in p ==>
                  x.0 in files && ToSend(x.0, state, src) && x.1 == OffsetFor(x.0, state, src) <= x.0.size)
            && |p| <= MAX_FILES_RUN
            && PlanCost(p) <= Max(budget, MAX_FILE)
            && ((exists f :: f in files && ToSend(f, state, src)) ==> |p| > 0)
  {
    hide ToSend;
    hide Todo;
    hide Take;
    var todo := Todo(SortByMtime(files), state, src);
    SortedTodo(files, state, src);
    TakeIs(todo, budget, 0, 0);
    var p := PlanOf(files, state, src, budget);
    forall x | x in p ensures x in todo {
      var i :| 0 <= i < |p| && p[i] == x;
      assert x == todo[i];
    }
    forall f | f in files && ToSend(f, state, src) ensures |todo| > 0 {
      assert (f, OffsetFor(f, state, src)) in todo;
    }
    if |p| > 0 {
      assert p[0] in todo && p[0] == todo[0];
    }
  }

  // ---------- in which order, and how much ----------

  /** `f` comes before `g` in the order of plans. */
  ghost predicate Precedes(files: seq<LocalFile>, f: LocalFile, g: LocalFile) {
    var sorted := SortByMtime(files);
    exists i, j :: 0 <= i < j < |sorted| && sorted[i] == f && sorted[j] == g
  }

  /** Sorting is stable: what was not changed later, and is scanned earlier, stays before. */
  lemma {:induction false} SortIsStable(files: seq<LocalFile>, i: nat, j: nat)
    requires i < j < |files| && files[i].mtime <= files[j].mtime
    ensures Precedes(files, files[i], files[j])
  {
    if i == 0 {
      FirstStays(files, j);
    } else {
      SortIsStable(files[1..], i - 1, j - 1);
      var rest := SortByMtime(files[1..]);
      var a, b :| 0 <= a < b < |rest| && rest[a] == files[i] && rest[b] == files[j];
      var t, k := Insert(files[0], rest), InsertAt(files[0], rest);
      InsertShifts(files[0], rest);
      hide Insert;
      hide InsertAt;
      assert t[if a < k then a else a + 1] == rest[a] && t[if b < k then b else b + 1] == rest[b];
      assert SortByMtime(files) == t;
    }
  }

  lemma FirstStays(files: seq<LocalFile>, j: nat)
    requires 0 < j < |files| && files[0].mtime <= files[j].mtime
    ensures Precedes(files, files[0], files[j])
  {
    var rest := SortByMtime(files[1..]);
    SortedByMtime(files[1..]);
    assert files[j] in files[1..] by { assert files[1..][j - 1] == files[j]; }
    assert files[j] in multiset(rest);
    var b :| 0 <= b < |rest| && rest[b] == files[j];
    InsertBefore(files[0], rest, b);
    InsertShifts(files[0], rest);
    hide Insert;
    hide InsertAt;
    var t, k := Insert(files[0], rest), InsertAt(files[0], rest);
    assert k < b + 1 < |t| && t[k] == files[0] && t[b + 1] == files[j];
    assert SortByMtime(files) == t;
  }

  /** Where a file is inserted. */
  function InsertAt(f: LocalFile, sorted: seq<LocalFile>): nat {
    if |sorted| == 0 || f.mtime <= sorted[0].mtime then 0 else 1 + InsertAt(f, sorted[1..])
  }

  lemma InsertShifts(f: LocalFile, sorted: seq<LocalFile>)
    ensures var k, t := InsertAt(f, sorted), Insert(f, sorted);
            && k <= |sorted| && |t| == |sorted| + 1 && t[k] == f
            && forall a :: 0 <= a < |sorted| ==> t[if a < k then a else a + 1] == sorted[a]
  {
    InsertSplits(f, sorted);
    hide Insert;
    hide InsertAt;
  }

  lemma {:induction false} InsertSplits(f: LocalFile, sorted: seq<LocalFile>)
    ensures var k := InsertAt(f, sorted);
            k <= |sorted| && Insert(f, sorted) == sorted[..k] + [f] + sorted[k..]
  {
    if |sorted| > 0 && f.mtime > sorted[0].mtime {
      var rest, k := sorted[1..], InsertAt(f, sorted);
      InsertSplits(f, rest);
      assert sorted[..k] == [sorted[0]] + rest[..k - 1] && sorted[k..] == rest[k - 1..];
    }
  }

  lemma {:induction false} InsertBefore(f: LocalFile, sorted: seq<LocalFile>, b: nat)
    requires Ordered(sorted) && b < |sorted| && f.mtime <= sorted[b].mtime
    ensures InsertAt(f, sorted) <= b
  {
    if |sorted| > 0 && f.mtime > sorted[0].mtime {
      InsertBefore(f, sorted[1..], b - 1);
    }
  }

  /** A file changed earlier precedes one changed later, and of two changed at once the one scanned first. */
  lemma PrecedesIs(files: seq<LocalFile>, i: nat, j: nat)
    requires DistinctRels(files) && i < |files| && j < |files|
    ensures Precedes(files, files[i], files[j])
            <==> files[i].mtime < files[j].mtime || (files[i].mtime == files[j].mtime && i < j)
  {
    var f, g := files[i], files[j];
    if i == j {
      NotTwice(files, f, f);
    } else if f.mtime < g.mtime {
      OlderPrecedes(files, f, g);
    } else if f.mtime > g.mtime {
      OlderPrecedes(files, g, f);
    } else if i < j {
      SortIsStable(files, i, j);
    } else {
      SortIsStable(files, j, i);
      NotTwice(files, f, g);
    }
  }

  lemma NotTwice(files: seq<LocalFile>, f: LocalFile, g: LocalFile)
    requires DistinctRels(files)
    ensures Precedes(files, f, g) ==> f != g && !Precedes(files, g, f)
  {
    hide SortByMtime;
    SortedByMtime(files);
    DistinctByCount(files, SortByMtime(files));
  }

  lemma OlderPrecedes(files: seq<LocalFile>, f: LocalFile, g: LocalFile)
    requires f in files && g in files && f.mtime < g.mtime
    ensures Precedes(files, f, g) && !Precedes(files, g, f)
  {
    hide SortByMtime;
    var sorted := SortByMtime(files);
    SortedByMtime(files);
    assert f in multiset(sorted) && g in multiset(sorted);
    var i :| 0 <= i < |sorted| && sorted[i] == f;
    var j :| 0 <= j < |sorted| && sorted[j] == g;
    assert i < j;
  }

  lemma {:induction false} TodoFollows(files: seq<LocalFile>, state: ClientState, src: Sources, i: nat, j: nat)
    returns (a: nat, b: nat)
    requires i < j < |Todo(files, state, src)|
    ensures a < b < |files| && files[a] == Todo(files, state, src)[i].0 && files[b] == Todo(files, state, src)[j].0
  {
    TodoStep(files, state, src, i);
    TodoStep(files, state, src, j);
    hide ToSend;
    hide Todo;
    if ToSend(files[0], state, src) {
      if i == 0 {
        a := 0;
        b := TodoFrom(files[1..], state, src, j - 1);
        b := b + 1;
      } else {
        a, b := TodoFollows(files[1..], state, src, i - 1, j - 1);
        a, b := a + 1, b + 1;
      }
    } else {
      a, b := TodoFollows(files[1..], state, src, i, j);
      a, b := a + 1, b + 1;
    }
  }

  lemma TodoStep(files: seq<LocalFile>, state: ClientState, src: Sources, k: nat)
    requires k < |Todo(files, state, src)|
    ensures |files| > 0
    ensures var all, rest := Todo(files, state, src), Todo(files[1..], state, src);
            if !ToSend(files[0], state, src) then all == rest
            else if k == 0 then all[k].0 == files[0]
            else k - 1 < |rest| && all[k] == rest[k - 1]
  {
    hide ToSend;
    hide OffsetFor;
  }

  lemma {:induction false} TodoFrom(files: seq<LocalFile>, state: ClientState, src: Sources, i: nat) returns (a: nat)
    requires i < |Todo(files, state, src)|
    ensures a < |files| && files[a] == Todo(files, state, src)[i].0
  {
    hide ToSend;
    hide OffsetFor;
    if !ToSend(files[0], state, src) {
      a := TodoFrom(files[1..], state, src, i);
      a := a + 1;
    } else if i == 0 {
      a := 0;
    } else {
      a := TodoFrom(files[1..], state, src, i - 1);
      a := a + 1;
    }
  }

  ghost predicate Planned(p: Plan, f: LocalFile) {
    exists i :: 0 <= i < |p| && p[i].0 == f
  }

  /** And all that fits: a plan is in the order of change, and whatever of the files to be sent is not in it
      comes after all of it. If there is such a file, then the first one of them would exceed the budget,
      or the plan is as long as a plan may be. */
  lemma PlanTakesAllThatFits(files: seq<LocalFile>, state: ClientState, src: Sources, budget: nat)
    requires DistinctRels(files)
    ensures var p := PlanOf(files, state, src, budget);
            && (forall i, j :: 0 <= i < j < |p| ==> Precedes(files, p[i].0, p[j].0))
            && (forall i, f :: 0 <= i < |p| && f in files && ToSend(f, state, src) && !Planned(p, f) ==>
                  Precedes(files, p[i].0, f))
            && (forall f :: f in files && ToSend(f, state, src) && !Planned(p, f)
                            && (forall g :: g in files && ToSend(g, state, src) && !Planned(p, g) ==>
                                  g == f || Precedes(files, f, g)) ==>
                  |p| >= MAX_FILES_RUN || PlanCost(p) + f.size - OffsetFor(f, state, src) > budget)
  {
    hide ToSend;
    hide OffsetFor;
    hide Todo;
    hide Take;
    hide SortByMtime;
    hide Precedes;
    var sorted := SortByMtime(files);
    var todo, p := Todo(sorted, state, src), PlanOf(files, state, src, budget);
    SortedTodo(files, state, src);
    TakeIs(todo, budget, 0, 0);
    forall i, j | 0 <= i < j < |todo| ensures Precedes(files, todo[i].0, todo[j].0) {
      TodoInOrder(files, state, src, i, j);
    }
    forall i | 0 <= i < |p| ensures p[i] == todo[i] && Planned(p, todo[i].0) {}
    forall f | f in files && ToSend(f, state, src) && !Planned(p, f)
      ensures exists k :: |p| <= k < |todo| && todo[k] == (f, OffsetFor(f, state, src))
    {
      assert (f, OffsetFor(f, state, src)) in todo;
      var k :| 0 <= k < |todo| && todo[k] == (f, OffsetFor(f, state, src));
    }
    if |p| < |todo| { FirstLeft(files, state, src, budget); }
  }

  lemma TodoInOrder(files: seq<LocalFile>, state: ClientState, src: Sources, i: nat, j: nat)
    requires i < j < |Todo(SortByMtime(files), state, src)|
    ensures var todo := Todo(SortByMtime(files), state, src); Precedes(files, todo[i].0, todo[j].0)
  {
    hide Todo;
    hide SortByMtime;
    var a, b := TodoFollows(SortByMtime(files), state, src, i, j);
  }

  /** The first file that is left over is the first of `todo` behind the plan, and no other. */
  lemma FirstLeft(files: seq<LocalFile>, state: ClientState, src: Sources, budget: nat)
    requires DistinctRels(files)
    requires |PlanOf(files, state, src, budget)| < |Todo(SortByMtime(files), state, src)|
    ensures var p, x := PlanOf(files, state, src, budget), Todo(SortByMtime(files), state, src);
            && x[|p|].0 in files && ToSend(x[|p|].0, state, src) && !Planned(p, x[|p|].0)
            && (forall f :: Precedes(files, f, x[|p|].0) ==> !Precedes(files, x[|p|].0, f) && f != x[|p|].0)
  {
    hide ToSend;
    hide OffsetFor;
    hide Todo;
    hide Take;
    hide SortByMtime;
    hide Precedes;
    var todo, p := Todo(SortByMtime(files), state, src), PlanOf(files, state, src, budget);
    SortedTodo(files, state, src);
    TakeIs(todo, budget, 0, 0);
    assert todo[|p|] in todo;
    forall i | 0 <= i < |p| ensures p[i].0 != todo[|p|].0 { assert p[i] == todo[i]; }
    forall f | Precedes(files, f, todo[|p|].0) ensures !Precedes(files, todo[|p|].0, f) && f != todo[|p|].0 {
      NotTwice(files, f, todo[|p|].0);
    }
  }

  /** The plan for a single file. */
  lemma PlanOfOne(f: LocalFile, state: ClientState, src: Sources, budget: nat)
    requires ToSend(f, state, src)
    ensures PlanOf([f], state, src, budget) == [(f, OffsetFor(f, state, src))]
  {
    hide ToSend;
    hide OffsetFor;
    assert SortByMtime([f]) == [f] by { assert [f][1..] == []; }
    var x := (f, OffsetFor(f, state, src));
    assert Todo([f], state, src) == [x] by { assert [f][1..] == []; }
    var none: Plan := [];
    assert [x][1..] == none && Take(none, budget, 1, Cost(x)) == none;
  }
}
