/**
 Order of delivery, for messages whose file names grow as they are queued: what is handed over comes in
 queueing order, repeated only after a crash, and the retry folder holds at most the oldest message.
 */
module SpoolOrder {
  import opened Common
  import opened Cooldown
  import opened Spool

  /** Names are a clock reading and a counter: each is above all names queued before. */
  ghost predicate Growing(s: Machine, e: Event) {
    e.Enqueue? ==> forall n :: n in s.past.queued ==> n < e.name
  }

  ghost predicate Orderly(es: seq<Event>)
    requires Runs(es)
    decreases |es|
  {
    |es| == 0 || (Orderly(es[..|es| - 1]) && Growing(After(es[..|es| - 1]), es[|es| - 1]))
  }

  lemma OrderlySnoc(es: seq<Event>, e: Event)
    requires Runs(es) && Orderly(es) && Legal(After(es), e) && Growing(After(es), e)
    ensures Runs(es + [e]) && After(es + [e]) == Next(After(es), e) && Orderly(es + [e])
  {
    assert (es + [e])[..|es|] == es;
  }

  ghost predicate OnDisk(d: Disk, n: nat) {
    n in d.incoming || n in d.retry
  }

  /** The pending writes, the stamp aside. */
  function Unstamped(todo: seq<Write>): seq<Write> {
    if |todo| > 0 && todo[0].Stamp? then todo[1..] else todo
  }

  /** They end with the removal of the file in hand; what comes before it is about the same message. */
  predicate Shaped(t: seq<Write>) {
    && |t| <= 2
    && (|t| == 1 ==> t[0].Drop?)
    && (|t| == 2 ==> t[1].Drop? && (t[0].HandOver? || t[0].Keep?) && t[0].name == t[1].ref.name
                     && t[1].why == if t[0].HandOver? then Done else Moved)
  }

  /** What a delivery still has in hand: the file being worked on, then the queue. */
  function Work(todo: seq<Write>, queue: seq<Ref>): seq<Ref> {
    var t := Unstamped(todo);
    (if |t| > 0 && t[|t| - 1].Drop? then [t[|t| - 1].ref] else []) + queue
  }

  ghost predicate FoldersInv(s: Machine) {
    && (forall n :: OnDisk(s.disk, n) ==> n in s.past.queued)
    && (forall a, b :: a in s.disk.retry && b in s.disk.retry ==> a == b)
    && (forall r, n :: r in s.disk.retry && n in s.disk.incoming ==> r <= n)
  }

  ghost predicate OutInv(s: Machine) {
    && (forall i, j :: 0 <= i < j < |s.past.out| ==> s.past.out[i].name <= s.past.out[j].name)
    && (forall i, n :: 0 <= i < |s.past.out| && OnDisk(s.disk, n) ==> s.past.out[i].name <= n)
    && (forall i :: 0 <= i < |s.past.out| ==> s.past.out[i].name in s.past.queued)
  }

  /** Retry before incoming, each by name, and so by name throughout. */
  ghost predicate Sorted(w: seq<Ref>) {
    && (forall i, j :: 0 <= i < j < |w| ==> w[i].name <= w[j].name)
    && (forall i, j :: 0 <= i < j < |w| && w[j].place.Retry? ==> w[i].place.Retry?)
  }

  /** The work is on disk, sorted, starts with the lowest name there is, and leaves out only what came later. */
  ghost predicate WorkFits(d: Disk, w: seq<Ref>, whole: bool) {
    && Sorted(w)
    && (forall i :: 0 <= i < |w| ==> Has(d, w[i]))
    && (forall i, j :: 0 <= i < j < |w| ==> w[i] != w[j])
    && (|w| > 0 ==> forall n :: OnDisk(d, n) ==> w[0].name <= n)
    && (whole ==> forall r :: Has(d, r) ==> r in w || forall i :: 0 <= i < |w| ==> w[i].name < r.name)
  }

  ghost predicate TodoInv(d: Disk, todo: seq<Write>, queue: seq<Ref>) {
    var t := Unstamped(todo);
    && Shaped(t)
    && (|t| == 0 && |todo| > 0 ==> queue == [])
    && (|t| == 2 && t[0].Keep? ==> d.retry == map[] && queue == [])
  }

  ghost predicate ProcInv(s: Machine) {
    s.proc.Busy? ==>
      && TodoInv(s.disk, s.proc.todo, s.proc.queue)
      && WorkFits(s.disk, Work(s.proc.todo, s.proc.queue), |s.proc.queue| > 0)
  }

  ghost predicate Inv(s: Machine) {
    FoldersInv(s) && OutInv(s) && ProcInv(s)
  }

  // ---------- it is kept ----------

  lemma EnqueueKeepsOrder(s: Machine, e: Event)
    requires Inv(s) && e.Enqueue? && Legal(s, e) && Growing(s, e)
    ensures Inv(Next(s, e))
  {
    var t := Next(s, e);
    assert forall n :: OnDisk(t.disk, n) <==> OnDisk(s.disk, n) || n == e.name;
    forall n | n in s.disk.retry ensures n < e.name { assert OnDisk(s.disk, n); }
    if s.proc.Busy? {
      ArrivalKeepsWork(s, e, Work(s.proc.todo, s.proc.queue), |s.proc.queue| > 0);
    }
  }

  lemma ArrivalKeepsWork(s: Machine, e: Event, w: seq<Ref>, whole: bool)
    requires FoldersInv(s) && e.Enqueue? && Legal(s, e) && Growing(s, e) && WorkFits(s.disk, w, whole)
    ensures WorkFits(Next(s, e).disk, w, whole)
  {
    var d := Next(s, e).disk;
    forall i | 0 <= i < |w| ensures w[i].name < e.name && Has(d, w[i]) {
      assert OnDisk(s.disk, w[i].name);
    }
    forall n | OnDisk(d, n) && |w| > 0 ensures w[0].name <= n {
      assert n == e.name || OnDisk(s.disk, n);
    }
    forall r | Has(d, r) && whole ensures r in w || forall i :: 0 <= i < |w| ==> w[i].name < r.name {
      assert r == Ref(Incoming, e.name) || Has(s.disk, r);
    }
  }

  lemma BeginKeepsOrder(s: Machine, e: Event)
    requires Inv(s) && e.Begin? && Legal(s, e)
    ensures Inv(Next(s, e))
  {
    ListingFits(s, e.inRetry, e.inSpool);
  }

  lemma ListingFits(s: Machine, inRetry: seq<nat>, inSpool: seq<nat>)
    requires FoldersInv(s) && Listing(s.disk.retry, inRetry) && Listing(s.disk.incoming, inSpool)
    ensures WorkFits(s.disk, Work([], Refs(Retry, inRetry) + Refs(Incoming, inSpool)), true)
  {
    var w := Refs(Retry, inRetry) + Refs(Incoming, inSpool);
    assert Work([], w) == w;
    ListingSorted(s, inRetry, inSpool, w);
    ListingCovers(s, inRetry, inSpool, w);
    hide FoldersInv;
    hide Listing;
    hide Sorted;
    hide Has;
    hide OnDisk;
    forall n | OnDisk(s.disk, n) && |w| > 0 ensures w[0].name <= n {
      var r := OnDiskHas(s.disk, n);
      FirstIsLowest(w, r);
    }
  }

  lemma FirstIsLowest(w: seq<Ref>, r: Ref)
    requires Sorted(w) && r in w
    ensures w[0].name <= r.name
  {
  }

  lemma ListingSorted(s: Machine, inRetry: seq<nat>, inSpool: seq<nat>, w: seq<Ref>)
    requires FoldersInv(s) && Listing(s.disk.retry, inRetry) && Listing(s.disk.incoming, inSpool)
    requires w == Refs(Retry, inRetry) + Refs(Incoming, inSpool)
    ensures Sorted(w)
    ensures forall i, j :: 0 <= i < j < |w| ==> w[i] != w[j]
  {
    forall i | 0 <= i < |w|
      ensures w[i] == if i < |inRetry| then Ref(Retry, inRetry[i]) else Ref(Incoming, inSpool[i - |inRetry|])
    {
    }
    forall i, j | 0 <= i < |inRetry| && 0 <= j < |inSpool| ensures inRetry[i] <= inSpool[j] {
      assert inRetry[i] in s.disk.retry && inSpool[j] in s.disk.incoming;
    }
  }

  lemma ListingCovers(s: Machine, inRetry: seq<nat>, inSpool: seq<nat>, w: seq<Ref>)
    requires Listing(s.disk.retry, inRetry) && Listing(s.disk.incoming, inSpool)
    requires w == Refs(Retry, inRetry) + Refs(Incoming, inSpool)
    ensures forall i :: 0 <= i < |w| ==> Has(s.disk, w[i])
    ensures forall r :: Has(s.disk, r) ==> r in w
  {
    forall i | 0 <= i < |w| ensures Has(s.disk, w[i]) {
      if i < |inRetry| { assert inRetry[i] in inRetry; } else { assert inSpool[i - |inRetry|] in inSpool; }
    }
    forall r | Has(s.disk, r) ensures r in w {
      if r.place.Retry? {
        var i :| 0 <= i < |inRetry| && inRetry[i] == r.name;
        assert w[i] == r;
      } else {
        var i :| 0 <= i < |inSpool| && inSpool[i] == r.name;
        assert w[|inRetry| + i] == r;
      }
    }
  }

  /** The shape of what `deliver` does for one file. */
  lemma ScriptShape(d: Disk, now: real, r: Ref, up: bool)
    requires Has(d, r)
    ensures var t := Unstamped(Script(d, now, r, up));
            && Shaped(t)
            && (|t| > 0 ==> t[|t| - 1].Drop? && t[|t| - 1].ref == r)
            && (|t| == 0 ==> Stops(d, now, r, up))
            && (|t| == 2 && t[0].Keep? ==> Stops(d, now, r, up) && r.place.Incoming?)
  {
    hide Accept;
    hide Verdict;
  }

  lemma HandleKeepsOrder(s: Machine, e: Event)
    requires Inv(s) && e.Handle? && Legal(s, e)
    ensures Inv(Next(s, e))
  {
    hide Script;
    hide Stops;
    hide ProcInv;
    SameFolders(s, Next(s, e));
    HandleKeepsWork(s, e);
  }

  lemma HandleKeepsWork(s: Machine, e: Event)
    requires FoldersInv(s) && ProcInv(s) && e.Handle? && Legal(s, e)
    ensures ProcInv(Next(s, e))
  {
    hide Script;
    hide Stops;
    hide WorkFits;
    hide FoldersInv;
    hide Shaped;
    hide Legal;
    hide Next;
    hide Has;
    hide TodoInv;
    HandleIs(s, e);
    var q, d := s.proc.queue, s.disk;
    var r := q[0];
    var todo, queue := Next(s, e).proc.todo, Next(s, e).proc.queue;
    assert Work([], q) == q;
    WorkCut(d, q);
    if r.place.Incoming? { NothingToRetry(s); }
    HandledTodo(d, r, todo, queue);
    HandledWork(d, q, todo, queue);
  }

  lemma HandleIs(s: Machine, e: Event)
    requires e.Handle? && Legal(s, e)
    ensures s.proc.Busy? && s.proc.todo == [] && |s.proc.queue| > 0 && Has(s.disk, s.proc.queue[0])
    ensures var r, t := s.proc.queue[0], Next(s, e);
            var u := Unstamped(t.proc.todo);
            && t == s.(proc := Busy(s.proc.now, t.proc.queue, t.proc.todo))
            && t.proc.queue == (if Stops(s.disk, s.proc.now, r, e.up) then [] else s.proc.queue[1..])
            && Shaped(u)
            && (|u| > 0 ==> u[|u| - 1].Drop? && u[|u| - 1].ref == r)
            && (|u| == 0 ==> t.proc.queue == [])
            && (|u| == 2 && u[0].Keep? ==> t.proc.queue == [] && r.place.Incoming?)
  {
    hide Script;
    hide Stops;
    ScriptShape(s.disk, s.proc.now, s.proc.queue[0], e.up);
  }

  lemma HandledTodo(d: Disk, r: Ref, todo: seq<Write>, queue: seq<Ref>)
    requires var t := Unstamped(todo);
             && Shaped(t) && (|t| == 0 ==> queue == [])
             && (|t| == 2 && t[0].Keep? ==> queue == [] && r.place.Incoming?)
    requires r.place.Incoming? ==> d.retry == map[]
    ensures TodoInv(d, todo, queue)
  {
  }

  lemma HandledWork(d: Disk, q: seq<Ref>, todo: seq<Write>, queue: seq<Ref>)
    requires |q| > 0 && (queue == [] || queue == q[1..])
    requires WorkFits(d, q, |q| > 1) && WorkFits(d, q[..1], false) && WorkFits(d, [], false)
    requires var t := Unstamped(todo);
             && Shaped(t)
             && (|t| > 0 ==> t[|t| - 1].Drop? && t[|t| - 1].ref == q[0])
             && (|t| == 0 ==> queue == [])
    ensures WorkFits(d, Work(todo, queue), |queue| > 0)
  {
    hide WorkFits;
    hide Shaped;
    var t := Unstamped(todo);
    if |t| == 0 {
      assert Work(todo, queue) == [];
    } else if queue == [] {
      assert Work(todo, queue) == q[..1];
    } else {
      assert Work(todo, queue) == q && |q| > 1;
    }
  }

  /** Only the first file of the work, or none. */
  lemma WorkCut(d: Disk, w: seq<Ref>)
    requires |w| > 0 && WorkFits(d, w, true)
    ensures WorkFits(d, w, |w| > 1) && WorkFits(d, w[..1], false) && WorkFits(d, [], false)
  {
  }

  /** Nothing here depends on the stamps or on what is pending. */
  lemma SameFolders(s: Machine, t: Machine)
    requires FoldersInv(s) && OutInv(s)
    requires t.disk.incoming == s.disk.incoming && t.disk.retry == s.disk.retry
    requires t.past.out == s.past.out && t.past.queued == s.past.queued
    ensures FoldersInv(t) && OutInv(t)
    ensures forall w, whole :: WorkFits(s.disk, w, whole) ==> WorkFits(t.disk, w, whole)
  {
    assert forall n :: OnDisk(t.disk, n) <==> OnDisk(s.disk, n);
    forall w, whole | WorkFits(s.disk, w, whole) ensures WorkFits(t.disk, w, whole) {
      forall r ensures Has(t.disk, r) <==> Has(s.disk, r) {}
    }
  }

  /** When the next file is in the spool, nothing is left in the retry folder. */
  lemma NothingToRetry(s: Machine)
    requires FoldersInv(s) && s.proc.Busy? && |s.proc.queue| > 0 && s.proc.queue[0].place.Incoming?
    requires WorkFits(s.disk, s.proc.queue, true)
    ensures s.disk.retry == map[]
  {
    var q := s.proc.queue;
    forall i | 0 <= i < |q| ensures q[i].place.Incoming? {}
    var low := q[0].name;
    assert Has(s.disk, q[0]) && low in s.disk.incoming;
    forall n ensures n !in s.disk.retry {
      assert Has(s.disk, Ref(Retry, n)) ==> low < n;
    }
  }

  lemma StampKeepsOrder(s: Machine, e: Event)
    requires Inv(s) && e.Do? && Legal(s, e) && s.proc.todo[0].Stamp?
    ensures Inv(Next(s, e))
  {
    hide Stamped;
    hide WorkFits;
    var t := Next(s, e);
    SameFolders(s, t);
    assert t.proc.todo == Unstamped(s.proc.todo);
    assert |t.proc.todo| > 0 ==> !t.proc.todo[0].Stamp?;
    assert Unstamped(t.proc.todo) == t.proc.todo;
    assert Work(t.proc.todo, t.proc.queue) == Work(s.proc.todo, s.proc.queue);
  }

  lemma HandOverKeepsOrder(s: Machine, e: Event)
    requires Inv(s) && e.Do? && Legal(s, e) && s.proc.todo[0].HandOver?
    ensures Inv(Next(s, e))
  {
    var t := Next(s, e);
    assert t.proc.todo == [s.proc.todo[1]];
    var w := Work(s.proc.todo, s.proc.queue);
    assert Work(t.proc.todo, t.proc.queue) == w;
    assert Has(s.disk, w[0]) && OnDisk(s.disk, w[0].name) && w[0].name == s.proc.todo[0].name;
    WorkSome(s.disk, w, |s.proc.queue| > 0);
    hide WorkFits;
    hide OnDisk;
    LowestGoesOut(s, t, w);
  }

  lemma WorkSome(d: Disk, w: seq<Ref>, whole: bool)
    requires WorkFits(d, w, whole)
    ensures WorkFits(d, w, false)
  {
  }

  lemma LowestGoesOut(s: Machine, t: Machine, w: seq<Ref>)
    requires FoldersInv(s) && OutInv(s) && |w| > 0 && WorkFits(s.disk, w, false)
    requires t.disk == s.disk && t.past.queued == s.past.queued
    requires exists h: Handed :: h.name == w[0].name && t.past.out == s.past.out + [h]
    ensures OutInv(t)
  {
    hide Sorted;
    assert Has(s.disk, w[0]) && OnDisk(s.disk, w[0].name);
  }

  lemma KeepKeepsOrder(s: Machine, e: Event)
    requires Inv(s) && e.Do? && Legal(s, e) && s.proc.todo[0].Keep?
    ensures Inv(Next(s, e))
  {
    var t := Next(s, e);
    assert t.proc.todo == [s.proc.todo[1]];
    var w := Work(s.proc.todo, s.proc.queue);
    assert Work(t.proc.todo, t.proc.queue) == w && w == [s.proc.todo[1].ref];
    assert Has(s.disk, w[0]) && OnDisk(s.disk, w[0].name) && w[0].name == s.proc.todo[0].name;
    assert forall n :: OnDisk(t.disk, n) <==> OnDisk(s.disk, n);
    forall n | n in t.disk.incoming ensures w[0].name <= n { assert OnDisk(s.disk, n); }
    assert t.disk.retry == map[w[0].name := s.proc.todo[0].file];
  }

  lemma DropKeepsOrder(s: Machine, e: Event)
    requires Inv(s) && e.Do? && Legal(s, e) && s.proc.todo[0].Drop?
    ensures Inv(Next(s, e))
  {
    hide WorkFits;
    hide FoldersInv;
    hide OutInv;
    hide Legal;
    hide Next;
    DropIs(s, e);
    var t := Next(s, e);
    DropKeepsFolders(s, t);
    var w, q := Work(s.proc.todo, s.proc.queue), s.proc.queue;
    assert w == [s.proc.todo[0].ref] + q && Work(t.proc.todo, q) == q;
    DropKeepsWork(s.disk, t.disk, w, |q| > 0);
    assert w[1..] == q;
  }

  lemma DropIs(s: Machine, e: Event)
    requires ProcInv(s) && e.Do? && Legal(s, e) && s.proc.todo[0].Drop?
    ensures s.proc.Busy? && |s.proc.todo| == 1
    ensures var t, r := Next(s, e), s.proc.todo[0].ref;
            && t.proc == s.proc.(todo := [])
            && (forall q :: Has(t.disk, q) <==> Has(s.disk, q) && q != r)
            && t.past.out == s.past.out && t.past.queued == s.past.queued
  {
    hide WorkFits;
  }

  lemma DropKeepsFolders(s: Machine, t: Machine)
    requires FoldersInv(s) && OutInv(s)
    requires forall q :: Has(t.disk, q) ==> Has(s.disk, q)
    requires t.past.out == s.past.out && t.past.queued == s.past.queued
    ensures FoldersInv(t) && OutInv(t)
  {
    forall n | n in t.disk.retry ensures n in s.disk.retry { assert Has(t.disk, Ref(Retry, n)); }
    forall n | n in t.disk.incoming ensures n in s.disk.incoming { assert Has(t.disk, Ref(Incoming, n)); }
    assert forall n :: OnDisk(t.disk, n) ==> OnDisk(s.disk, n);
  }

  lemma DropKeepsWork(d: Disk, d': Disk, w: seq<Ref>, whole: bool)
    requires |w| > 0 && WorkFits(d, w, whole) && whole == (|w| > 1)
    requires forall r :: Has(d', r) <==> Has(d, r) && r != w[0]
    ensures WorkFits(d', w[1..], whole)
  {
    hide Has;
    hide OnDisk;
    var q := w[1..];
    forall i | 0 <= i < |q| ensures q[i] == w[i + 1] {}
    assert Sorted(q);
    hide Sorted;
    forall r | Has(d', r) && whole ensures r in q || forall i :: 0 <= i < |q| ==> q[i].name < r.name {
      if r in w {
        var i :| 0 <= i < |w| && w[i] == r;
        assert q[i - 1] == r;
      }
    }
    forall n | OnDisk(d', n) && |q| > 0 ensures q[0].name <= n {
      var r := OnDiskHas(d', n);
    }
  }

  lemma OnDiskHas(d: Disk, n: nat) returns (r: Ref)
    requires OnDisk(d, n)
    ensures r.name == n && Has(d, r)
  {
    r := if n in d.incoming then Ref(Incoming, n) else Ref(Retry, n);
  }

  lemma StepKeepsOrder(s: Machine, e: Event)
    requires Inv(s) && Legal(s, e) && Growing(s, e)
    ensures Inv(Next(s, e))
  {
    hide FoldersInv;
    hide OutInv;
    hide WorkFits;
    match e {
      case Enqueue(_, _) => EnqueueKeepsOrder(s, e);
      case Begin(_, _, _) => BeginKeepsOrder(s, e);
      case Handle(_) => HandleKeepsOrder(s, e);
      case Do =>
        match s.proc.todo[0] {
          case Stamp(_, _) => StampKeepsOrder(s, e);
          case HandOver(_, _) => HandOverKeepsOrder(s, e);
          case Keep(_, _) => KeepKeepsOrder(s, e);
          case Drop(_, _) => DropKeepsOrder(s, e);
        }
      case _ => SameFolders(s, Next(s, e));
    }
  }

  lemma {:induction false} RunKeepsOrder(es: seq<Event>)
    requires Runs(es) && Orderly(es)
    ensures Inv(After(es))
  {
    if |es| > 0 {
      RunKeepsOrder(es[..|es| - 1]);
      StepKeepsOrder(After(es[..|es| - 1]), es[|es| - 1]);
    }
  }

  // ---------- without crashes ----------

  /** The last write for message `n` is about to be made. */
  ghost predicate Leaving(s: Machine, n: nat, why: Why) {
    && s.proc.Busy? && |s.proc.todo| == 1
    && s.proc.todo[0].Drop? && s.proc.todo[0].why == why && s.proc.todo[0].ref.name == n
  }

  /** A message is handed over once, and is still on disk afterwards, or in both folders, only until the
      removal that comes next. */
  ghost predicate OnceInv(s: Machine) {
    && (forall i, j :: 0 <= i < j < |s.past.out| ==> s.past.out[i].name < s.past.out[j].name)
    && (forall i :: 0 <= i < |s.past.out| && OnDisk(s.disk, s.past.out[i].name) ==>
          Leaving(s, s.past.out[i].name, Done))
    && (forall n :: n in s.disk.retry && n in s.disk.incoming ==> Leaving(s, n, Moved))
  }

  lemma StepKeepsOnce(s: Machine, e: Event)
    requires Inv(s) && OnceInv(s) && Legal(s, e) && Growing(s, e) && !e.Crash?
    ensures OnceInv(Next(s, e))
  {
    hide WorkFits;
    hide Script;
    match e {
      case Do =>
        match s.proc.todo[0] {
          case Stamp(_, _) =>
          case HandOver(_, _) => HandOverKeepsOnce(s, e);
          case Keep(_, _) => KeepKeepsOnce(s, e);
          case Drop(_, _) => DropKeepsOnce(s, e);
        }
      case _ =>
    }
  }

  lemma HandOverKeepsOnce(s: Machine, e: Event)
    requires Inv(s) && OnceInv(s) && e.Do? && Legal(s, e) && s.proc.todo[0].HandOver?
    ensures OnceInv(Next(s, e))
  {
    hide FoldersInv;
    hide Sorted;
    var t, r := Next(s, e), s.proc.todo[1].ref;
    assert t.proc.todo == [s.proc.todo[1]];
    assert Work(s.proc.todo, s.proc.queue)[0] == r;
    assert Has(s.disk, r) && OnDisk(s.disk, r.name);
    hide WorkFits;
  }

  lemma KeepKeepsOnce(s: Machine, e: Event)
    requires Inv(s) && OnceInv(s) && e.Do? && Legal(s, e) && s.proc.todo[0].Keep?
    ensures OnceInv(Next(s, e))
  {
    var t, r := Next(s, e), s.proc.todo[1].ref;
    assert t.proc.todo == [s.proc.todo[1]];
    assert Work(s.proc.todo, s.proc.queue)[0] == r;
    assert Has(s.disk, r) && OnDisk(s.disk, r.name);
    forall n | OnDisk(t.disk, n) ensures OnDisk(s.disk, n) {}
    assert forall n :: !Leaving(s, n, Done);
    assert t.disk.retry == map[r.name := s.proc.todo[0].file];
  }

  lemma DropKeepsOnce(s: Machine, e: Event)
    requires Inv(s) && OnceInv(s) && e.Do? && Legal(s, e) && s.proc.todo[0].Drop?
    ensures OnceInv(Next(s, e))
  {
    assert |s.proc.todo| == 1;
    var t, w := Next(s, e), s.proc.todo[0];
    assert Work(s.proc.todo, s.proc.queue)[0] == w.ref && Has(s.disk, w.ref);
    hide WorkFits;
    forall n | OnDisk(t.disk, n) ensures OnDisk(s.disk, n) {}
    forall n | Leaving(s, n, Done) ensures !OnDisk(t.disk, n) {
      assert !Leaving(s, n, Moved);
    }
  }

  ghost predicate NoCrash(es: seq<Event>) {
    forall i :: 0 <= i < |es| ==> !es[i].Crash?
  }

  lemma {:induction false} RunKeepsOnce(es: seq<Event>)
    requires Runs(es) && Orderly(es) && NoCrash(es)
    ensures OnceInv(After(es))
  {
    if |es| > 0 {
      RunKeepsOnce(es[..|es| - 1]);
      RunKeepsOrder(es[..|es| - 1]);
      StepKeepsOnce(After(es[..|es| - 1]), es[|es| - 1]);
    }
  }

  // ---------- main results ----------

  /** At any moment of any run, crashes and outages included, what was handed over came in queueing order,
      nothing older is still queued, and the retry folder holds at most one message, none queued before it. */
  lemma HandedOverInOrder(es: seq<Event>)
    requires Runs(es) && Orderly(es)
    ensures var s := After(es);
            && (forall i, j :: 0 <= i < j < |s.past.out| ==> s.past.out[i].name <= s.past.out[j].name)
            && (forall i, n :: 0 <= i < |s.past.out| && OnDisk(s.disk, n) ==> s.past.out[i].name <= n)
            && (forall a, b :: a in s.disk.retry && b in s.disk.retry ==> a == b)
            && (forall r, n :: r in s.disk.retry && n in s.disk.incoming ==> r <= n)
  {
    RunKeepsOrder(es);
  }

  /** Without crashes each message is handed over once, strictly in order, and between deliveries what was
      handed over is gone and the retried message is older than all in the spool. */
  lemma HandedOverOnce(es: seq<Event>)
    requires Runs(es) && Orderly(es) && NoCrash(es)
    ensures var s := After(es);
            && (forall i, j :: 0 <= i < j < |s.past.out| ==> s.past.out[i].name < s.past.out[j].name)
            && (s.proc.Idle? ==>
                  && (forall i, n :: 0 <= i < |s.past.out| && OnDisk(s.disk, n) ==> s.past.out[i].name < n)
                  && (forall r, n :: r in s.disk.retry && n in s.disk.incoming ==> r < n))
  {
    RunKeepsOrder(es);
    RunKeepsOnce(es);
    var s := After(es);
    if s.proc.Idle? {
      forall i, n | 0 <= i < |s.past.out| && OnDisk(s.disk, n) ensures s.past.out[i].name < n {
        assert s.past.out[i].name == n ==> Leaving(s, n, Done);
      }
      forall r, n | r in s.disk.retry && n in s.disk.incoming ensures r < n {
        assert r == n ==> Leaving(s, n, Moved);
      }
    }
  }
}
