/** Sources that are rewritten between runs, and the server's delivery of its own sessions. */
module BridgeGuard {
  import opened Common
  import opened BridgePaths
  import opened BridgeWire
  import opened BridgePlan
  import opened BridgeRuns
  import opened BridgeHeaders
  import opened BridgeHistory
  import opened BridgeConvergence

  // ---------- the tail guard ----------

  /** The client's entry describes the stored copy: its length and its last bytes. */
  ghost predicate Mirrors(w: World) {
    forall r :: r in w.state ==>
      r in w.inbox && |w.inbox[r]| == w.state[r].size && w.state[r].tail == TailHash(w.inbox, r, w.state[r].size)
  }

  /** How far back of an append at `offset` the guard looks. */
  function Window(offset: nat): nat {
    Max(0, offset - TAIL)
  }

  /** An append after a part with the same last bytes: from the window on, the copy is the source, and
      it has the same last bytes again. */
  lemma AppendAgrees(inbox: Inbox, src: Sources, r: string, off: nat, size: nat)
    requires r in inbox && |inbox[r]| == off && off <= size && r in src && size <= |src[r]|
    requires TailHash(src, r, off) == TailHash(inbox, r, off)
    ensures var copy := inbox[r] + src[r][off..size];
            && copy[Window(off)..] == src[r][Window(off)..size]
            && TailHash(inbox[r := copy], r, size) == TailHash(src, r, size)
  {
    var lo, copy := Window(off), inbox[r] + src[r][off..size];
    assert inbox[r][lo..off] == src[r][lo..off];
    assert copy[lo..] == inbox[r][lo..off] + src[r][off..size];
    assert src[r][lo..size] == src[r][lo..off] + src[r][off..size];
    var hi := Max(0, size - TAIL);
    assert copy[hi..size] == copy[lo..][hi - lo..];
    assert src[r][hi..size] == src[r][lo..size][hi - lo..];
  }

  lemma StoredMirrors(w: World, src: Sources, f: LocalFile, off: nat)
    requires Mirrors(w) && f.rel in src && f.size == |src[f.rel]| && off == OffsetFor(f, w.state, src)
    ensures off <= f.size
    ensures var (stored, status) := Store(w.inbox, f.rel, off, f.size - off, src[f.rel][off..f.size]);
            && status == Stored && f.rel in stored && |stored[f.rel]| == f.size
            && stored[f.rel][Window(off)..] == src[f.rel][Window(off)..]
            && (off > 0 ==> f.rel in w.inbox && |w.inbox[f.rel]| == off && w.inbox[f.rel] <= stored[f.rel])
            && TailHash(stored, f.rel, f.size) == TailHash(src, f.rel, f.size)
  {
    if off > 0 {
      AppendAgrees(w.inbox, src, f.rel, off, f.size);
      assert src[f.rel][Window(off)..f.size] == src[f.rel][Window(off)..];
    } else {
      assert src[f.rel][0..f.size] == src[f.rel];
    }
  }

  /** One file the server gets to, in a clean run from a state that mirrors the inbox: it is stored, its copy
      is the source from the window on, and the new entry describes the new copy. */
  lemma PlannedMirrors(w: World, files: seq<LocalFile>, budget: nat, n: nat, i: nat)
    requires Mirrors(w) && ScanOf(files, w.src) && i < n && i < |PlanFor(w, files, budget)|
    ensures var v, src, x := RunTo(w, files, budget, n), Contents(w.src), PlanFor(w, files, budget)[i];
            var f := x.0;
            && f.rel in src && x.1 <= f.size == |src[f.rel]|
            && f.rel in v.inbox && |v.inbox[f.rel]| == f.size
            && v.inbox[f.rel][Window(x.1)..] == src[f.rel][Window(x.1)..]
            && (x.1 > 0 ==> f.rel in w.inbox && |w.inbox[f.rel]| == x.1 && w.inbox[f.rel] <= v.inbox[f.rel])
            && f.rel in v.state && v.state[f.rel] == NewEntry(f, src)
            && NewEntry(f, src).tail == TailHash(v.inbox, f.rel, f.size)
  {
    hide PlanFor;
    hide RunTo;
    hide ToSend;
    hide OffsetFor;
    hide Mirrors;
    hide ScanOf;
    hide Store;
    hide TailHash;
    hide Frames;
    hide SentOf;
    PlanFrames(w, files, budget);
    ReachedFile(w, files, budget, n, i);
    var x := PlanFor(w, files, budget)[i];
    StoredMirrors(w, Contents(w.src), x.0, x.1);
    SameCopy(RunTo(w, files, budget, n).inbox, Store(w.inbox, x.0.rel, x.1, x.0.size - x.1,
             Contents(w.src)[x.0.rel][x.1..x.0.size]).0, x.0.rel, x.0.size);
    NewTail(x.0, Contents(w.src));
  }

  lemma SameCopy(a: Inbox, b: Inbox, r: string, size: nat)
    requires SameAt(b, a, r)
    ensures TailHash(a, r, size) == TailHash(b, r, size)
  {
  }

  lemma NewTail(f: LocalFile, src: Sources)
    ensures NewEntry(f, src).tail == TailHash(src, f.rel, f.size) && NewEntry(f, src).size == f.size
  {
  }

  lemma RunMirrors(w: World, files: seq<LocalFile>, budget: nat, n: nat)
    requires Mirrors(w) && ScanOf(files, w.src)
    ensures Mirrors(RunTo(w, files, budget, n))
  {
    hide RunTo;
    hide PlanFor;
    hide ScanOf;
    var v, p := RunTo(w, files, budget, n), PlanFor(w, files, budget);
    forall r | r in v.state
      ensures r in v.inbox && |v.inbox[r]| == v.state[r].size
              && v.state[r].tail == TailHash(v.inbox, r, v.state[r].size)
    {
      if i :| 0 <= i < n && i < |p| && p[i].0.rel == r {
        PlannedMirrors(w, files, budget, n, i);
        NewTail(p[i].0, Contents(w.src));
      } else {
        UnreachedFile(w, files, budget, n, r);
      }
    }
  }

  // ---------- rewrites and runs ----------

  /** Between two runs the sources may become anything at all. */
  datatype Turn = Rewrite(src: Disk) | Sync(push: Push)

  function TurnStep(c: Codec, w: World, e: Turn): World {
    match e
    case Rewrite(src) => w.(src := src)
    case Sync(push) => Step(c, w, Run(push))
  }

  function Turns(c: Codec, w: World, es: seq<Turn>): World {
    if |es| == 0 then w else TurnStep(c, Turns(c, w, es[..|es| - 1]), es[|es| - 1])
  }

  ghost predicate TurnLegal(c: Codec, w: World, e: Turn) {
    e.Sync? ==> Legal(c, w, Run(e.push))
  }

  /** No run loses anything on the way. */
  ghost predicate TurnClean(c: Codec, w: World, e: Turn) {
    e.Sync? ==> Clean(c, w, e.push)
  }

  ghost predicate TurnsLegal(c: Codec, w: World, es: seq<Turn>) {
    forall k :: 0 <= k < |es| ==> TurnLegal(c, Turns(c, w, es[..k]), es[k])
  }

  ghost predicate TurnsClean(c: Codec, w: World, es: seq<Turn>) {
    forall k :: 0 <= k < |es| ==> TurnClean(c, Turns(c, w, es[..k]), es[k])
  }

  lemma TurnMirrors(c: Codec, w: World, e: Turn)
    requires JsonLike(c) && Mirrors(w) && TurnLegal(c, w, e) && TurnClean(c, w, e)
    ensures Mirrors(TurnStep(c, w, e))
  {
    hide RunTo;
    hide Step;
    if e.Sync? {
      CleanIs(c, w, e.push);
      var p := PlanFor(w, e.push.files, e.push.budget);
      RunMirrors(w, e.push.files, e.push.budget, Readable(c, Frames(p, Contents(w.src))));
    }
  }

  lemma {:induction false} TurnsMirror(c: Codec, w: World, es: seq<Turn>)
    requires JsonLike(c) && Mirrors(w) && TurnsLegal(c, w, es) && TurnsClean(c, w, es)
    ensures Mirrors(Turns(c, w, es))
  {
    hide Mirrors;
    hide TurnLegal;
    hide TurnClean;
    hide TurnStep;
    hide JsonLike;
    if |es| > 0 {
      var front, e := es[..|es| - 1], es[|es| - 1];
      forall k | 0 <= k < |front| ensures front[k] == es[k] && front[..k] == es[..k] {}
      TurnsMirror(c, w, front);
      TurnMirrors(c, Turns(c, w, front), e);
    }
  }

  /** The guard, over any history of rewrites and clean runs: after another clean run every planned file the
      server got to has its full length in the inbox, and from 4096 bytes before the place where the append
      started the copy is the source. Nothing is said of the bytes before that: the copy is right exactly
      if they were. Any other planned file is as it was on both sides. */
  lemma {:induction false} GuardedDelivery(c: Codec, w: World, es: seq<Turn>, e: Push, i: nat)
    requires JsonLike(c) && Mirrors(w) && TurnsLegal(c, w, es) && TurnsClean(c, w, es)
    requires Legal(c, Turns(c, w, es), Run(e)) && Clean(c, Turns(c, w, es), e)
    requires i < |PlanFor(Turns(c, w, es), e.files, e.budget)|
    ensures var u := Turns(c, w, es);
            var p, v := PlanFor(u, e.files, e.budget), Step(c, u, Run(e));
            p[i].0.rel in u.src &&
            var x, data, r, lo := p[i], u.src[p[i].0.rel].data, p[i].0.rel, Window(p[i].1);
            if i < Readable(c, Frames(p, Contents(u.src))) then
              && r in v.inbox && |v.inbox[r]| == |data| && lo <= x.1 <= |data|
              && v.inbox[r][lo..] == data[lo..]
              && (x.1 > 0 ==> r in u.inbox && |u.inbox[r]| == x.1
                              && (v.inbox[r] == data <==> u.inbox[r][..lo] == data[..lo]))
              && (x.1 == 0 ==> v.inbox[r] == data)
            else SameAt(u.inbox, v.inbox, r) && SameEntry(v.state, u.state, r)
  {
    hide RunTo;
    hide PlanFor;
    hide Frames;
    hide Step;
    hide Clean;
    hide JsonLike;
    hide Turns;
    hide TurnsLegal;
    hide TurnsClean;
    hide Mirrors;
    hide SentOf;
    hide ToSend;
    hide OffsetFor;
    var u := Turns(c, w, es);
    TurnsMirror(c, w, es);
    CleanIs(c, u, e);
    PlanFrames(u, e.files, e.budget);
    var p := PlanFor(u, e.files, e.budget);
    var n := Readable(c, Frames(p, Contents(u.src)));
    if i < n {
      PlannedMirrors(u, e.files, e.budget, n, i);
      var r, lo := p[i].0.rel, Window(p[i].1);
      var copy, data := RunTo(u, e.files, e.budget, n).inbox[r], Contents(u.src)[r];
      RightIffFront(copy, data, lo);
      if p[i].1 > 0 { assert copy[..lo] == u.inbox[r][..lo]; }
    } else {
      forall j | 0 <= j < n && j < |p| ensures p[j].0.rel != p[i].0.rel {}
      UnreachedFile(u, e.files, e.budget, n, p[i].0.rel);
    }
  }

  lemma RightIffFront(copy: Bytes, data: Bytes, lo: nat)
    requires lo <= |copy| && lo <= |data| && copy[lo..] == data[lo..]
    ensures copy == data <==> copy[..lo] == data[..lo]
  {
    assert copy == copy[..lo] + copy[lo..] && data == data[..lo] + data[lo..];
  }

  // ---------- a mixture ----------

  function OneFile(r: string, data: Bytes, mtime: int, ino: nat): Disk {
    map[r := SourceFile(data, mtime, ino)]
  }

  function FileOf(r: string, data: Bytes, mtime: int, ino: nat): LocalFile {
    LocalFile(r, |data|, mtime, ino)
  }

  lemma OneFileScanned(r: string, data: Bytes, mtime: int, ino: nat)
    requires SafeRel(r) == Some(r) && |data| <= MAX_FILE
    ensures ScanOf([FileOf(r, data, mtime, ino)], OneFile(r, data, mtime, ino))
  {
  }

  /** A clean run over a single file that is to be sent, its header within the limit. */
  lemma OneDelivered(c: Codec, w: World, r: string, data: Bytes, mtime: int, ino: nat, budget: nat) returns (e: Push)
    requires JsonLike(c) && SafeRel(r) == Some(r) && |data| <= MAX_FILE && budget <= MAX_RUN_SERVER
    requires w.src == OneFile(r, data, mtime, ino) && ToSend(FileOf(r, data, mtime, ino), w.state, Contents(w.src))
    requires var f := FileOf(r, data, mtime, ino);
             HeadLen(c, f, OffsetFor(f, w.state, Contents(w.src))) < HEADER_LIMIT
    ensures e.files == [FileOf(r, data, mtime, ino)] && e.budget == budget && Legal(c, w, Run(e)) && Clean(c, w, e)
    ensures var f := FileOf(r, data, mtime, ino);
            var off, v := OffsetFor(f, w.state, Contents(w.src)), Step(c, w, Run(e));
            && v.src == w.src && off <= |data|
            && var (stored, status) := Store(w.inbox, r, off, |data| - off, data[off..]);
               && SameAt(stored, v.inbox, r)
               && SameEntry(v.state, Settle(w.state, f, Some(status), Contents(w.src)), r)
  {
    hide RunTo;
    hide ToSend;
    hide OffsetFor;
    hide Store;
    hide Settle;
    hide Step;
    hide JsonLike;
    var f := FileOf(r, data, mtime, ino);
    OneFileScanned(r, data, mtime, ino);
    PlanOfOne(f, w.state, Contents(w.src), budget);
    hide PlanFor;
    hide ScanOf;
    e := WholePush(c, w, [f], budget);
    PlanFrames(w, [f], budget);
    PlanHeads(c, w, [f], budget);
    var n := Readable(c, Frames(PlanFor(w, [f], budget), Contents(w.src)));
    assert n == 1;
    WholeIsClean(c, w, [f], budget);
    CleanIs(c, w, e);
    ReachedFile(w, [f], budget, n, 0);
    RunToKeepsSources(w, [f], budget, n);
    var off := OffsetFor(f, w.state, Contents(w.src));
    assert data[off..|data|] == data[off..];
  }

  lemma TurnsSnoc(c: Codec, w: World, es: seq<Turn>, e: Turn)
    requires TurnsLegal(c, w, es) && TurnLegal(c, Turns(c, w, es), e)
    ensures Turns(c, w, es + [e]) == TurnStep(c, Turns(c, w, es), e) && TurnsLegal(c, w, es + [e])
    ensures TurnsClean(c, w, es) && TurnClean(c, Turns(c, w, es), e) ==> TurnsClean(c, w, es + [e])
  {
    hide TurnStep;
    hide TurnLegal;
    hide TurnClean;
    var more := es + [e];
    assert more[..|es|] == es;
    forall k | 0 <= k < |es| ensures more[k] == es[k] && more[..k] == es[..k] {}
    forall k | 0 <= k < |more| ensures TurnLegal(c, Turns(c, w, more[..k]), more[k]) {
      if k < |es| { assert TurnLegal(c, Turns(c, w, es[..k]), es[k]); }
    }
    if TurnsClean(c, w, es) && TurnClean(c, Turns(c, w, es), e) {
      forall k | 0 <= k < |more| ensures TurnClean(c, Turns(c, w, more[..k]), more[k]) {
        if k < |es| { assert TurnClean(c, Turns(c, w, es[..k]), es[k]); }
      }
    }
  }

  /** One rewrite more, and one run. */
  ghost predicate Adds(es: seq<Turn>, more: seq<Turn>, src: Disk) {
    |more| == |es| + 2 && more[..|es|] == es && more[|es|] == Rewrite(src) && more[|es| + 1].Sync?
  }

  /** The owner writes a single file, and a clean run delivers it. */
  lemma WrittenAndSent(c: Codec, w: World, es: seq<Turn>, r: string, data: Bytes, mtime: int, ino: nat, budget: nat)
    returns (more: seq<Turn>)
    requires JsonLike(c) && SafeRel(r) == Some(r) && |data| <= MAX_FILE && budget <= MAX_RUN_SERVER
    requires TurnsLegal(c, w, es)
    requires var f, u := FileOf(r, data, mtime, ino), Turns(c, w, es);
             ToSend(f, u.state, map[r := data]) && HeadLen(c, f, OffsetFor(f, u.state, map[r := data])) < HEADER_LIMIT
    ensures Adds(es, more, OneFile(r, data, mtime, ino))
    ensures TurnsLegal(c, w, more) && (TurnsClean(c, w, es) ==> TurnsClean(c, w, more))
    ensures var f, u, v := FileOf(r, data, mtime, ino), Turns(c, w, es), Turns(c, w, more);
            var off := OffsetFor(f, u.state, map[r := data]);
            && v.src == OneFile(r, data, mtime, ino) && off <= |data|
            && var (stored, status) := Store(u.inbox, r, off, |data| - off, data[off..]);
               && SameAt(stored, v.inbox, r)
               && SameEntry(v.state, Settle(u.state, f, Some(status), map[r := data]), r)
  {
    hide TurnsLegal;
    hide TurnsClean;
    hide Turns;
    hide Step;
    hide ToSend;
    hide OffsetFor;
    hide Store;
    hide Settle;
    hide Clean;
    hide Legal;
    hide JsonLike;
    var u := Turns(c, w, es);
    var e0 := Rewrite(OneFile(r, data, mtime, ino));
    TurnsSnoc(c, w, es, e0);
    var u1 := u.(src := OneFile(r, data, mtime, ino));
    assert Contents(u1.src) == map[r := data];
    var push := OneDelivered(c, u1, r, data, mtime, ino, budget);
    TurnsSnoc(c, w, es + [e0], Sync(push));
    more := es + [e0] + [Sync(push)];
    assert more[..|es|] == es;
  }

  lemma WholeIsStored(inbox: Inbox, r: string, data: Bytes)
    ensures Store(inbox, r, 0, |data|, data[0..]) == (inbox[r := data], Stored)
  {
    assert data[0..] == data;
  }

  lemma TailIsStored(inbox: Inbox, r: string, off: nat, data: Bytes)
    requires r in inbox && 0 < off == |inbox[r]| <= |data|
    ensures Store(inbox, r, off, |data| - off, data[off..]) == (inbox[r := inbox[r] + data[off..]], Stored)
  {
  }

  /** What a stored file leaves on both sides. */
  ghost predicate Holds(w: World, f: LocalFile, copy: Bytes, data: Bytes) {
    && f.rel in w.inbox && w.inbox[f.rel] == copy
    && f.rel in w.state && w.state[f.rel] == NewEntry(f, map[f.rel := data])
  }

  /** Sent whole, if the client's entry is of no use. */
  lemma SentWhole(c: Codec, w: World, es: seq<Turn>, r: string, data: Bytes, mtime: int, ino: nat, budget: nat)
    returns (more: seq<Turn>)
    requires JsonLike(c) && SafeRel(r) == Some(r) && |data| <= MAX_FILE && budget <= MAX_RUN_SERVER
    requires TurnsLegal(c, w, es)
    requires var f, u := FileOf(r, data, mtime, ino), Turns(c, w, es);
             && ToSend(f, u.state, map[r := data]) && OffsetFor(f, u.state, map[r := data]) == 0
             && HeadLen(c, f, 0) < HEADER_LIMIT
    ensures Adds(es, more, OneFile(r, data, mtime, ino))
    ensures TurnsLegal(c, w, more) && (TurnsClean(c, w, es) ==> TurnsClean(c, w, more))
    ensures Turns(c, w, more).src == OneFile(r, data, mtime, ino)
    ensures Holds(Turns(c, w, more), FileOf(r, data, mtime, ino), data, data)
  {
    hide TurnsLegal;
    hide TurnsClean;
    hide Turns;
    hide ToSend;
    hide OffsetFor;
    hide Store;
    hide NewEntry;
    hide JsonLike;
    hide Adds;
    more := WrittenAndSent(c, w, es, r, data, mtime, ino, budget);
    WholeIsStored(Turns(c, w, es).inbox, r, data);
  }

  /** Or appended, where the entry is right about the length of the copy. */
  lemma SentTail(c: Codec, w: World, es: seq<Turn>, r: string, data: Bytes, mtime: int, ino: nat, budget: nat, off: nat)
    returns (more: seq<Turn>)
    requires JsonLike(c) && SafeRel(r) == Some(r) && |data| <= MAX_FILE && budget <= MAX_RUN_SERVER
    requires TurnsLegal(c, w, es)
    requires var f, u := FileOf(r, data, mtime, ino), Turns(c, w, es);
             && ToSend(f, u.state, map[r := data]) && OffsetFor(f, u.state, map[r := data]) == off
             && r in u.inbox && 0 < off == |u.inbox[r]| <= |data|
             && HeadLen(c, f, off) < HEADER_LIMIT
    ensures Adds(es, more, OneFile(r, data, mtime, ino))
    ensures TurnsLegal(c, w, more) && (TurnsClean(c, w, es) ==> TurnsClean(c, w, more))
    ensures Turns(c, w, more).src == OneFile(r, data, mtime, ino)
    ensures Holds(Turns(c, w, more), FileOf(r, data, mtime, ino), Turns(c, w, es).inbox[r] + data[off..], data)
  {
    hide TurnsLegal;
    hide TurnsClean;
    hide Turns;
    hide ToSend;
    hide OffsetFor;
    hide Store;
    hide NewEntry;
    hide JsonLike;
    hide Adds;
    more := WrittenAndSent(c, w, es, r, data, mtime, ino, budget);
    TailIsStored(Turns(c, w, es).inbox, r, off, data);
  }

  function Nothing(): World {
    World(map[], map[], map[])
  }

  /** A mixture is delivered: a file is sent, then rewritten before the window and made longer, and the
      next clean run appends to the former beginning and is content. */
  lemma {:induction false} MixtureDelivered(c: Codec, r: string, a: Bytes, b: Bytes, early: int, late: int, ino: nat,
                                            budget: nat)
    returns (es: seq<Turn>)
    requires JsonLike(c) && SafeRel(r) == Some(r) && TAIL < |a| < |b| <= MAX_FILE && budget <= MAX_RUN_SERVER
    requires b[|a| - TAIL..|a|] == a[|a| - TAIL..] && b[..|a| - TAIL] != a[..|a| - TAIL]
    requires HeadLen(c, FileOf(r, a, early, ino), 0) < HEADER_LIMIT
    requires HeadLen(c, FileOf(r, b, late, ino), |a|) < HEADER_LIMIT
    ensures Mirrors(Nothing()) && TurnsLegal(c, Nothing(), es) && TurnsClean(c, Nothing(), es)
    ensures |es| == 4 && es[0] == Rewrite(OneFile(r, a, early, ino)) && es[2] == Rewrite(OneFile(r, b, late, ino))
    ensures var v := Turns(c, Nothing(), es);
            && v.src == OneFile(r, b, late, ino)
            && r in v.inbox && v.inbox[r] == a + b[|a|..] != b && UpToDate(FileOf(r, b, late, ino), v.state)
  {
    hide JsonLike;
    hide TailHash;
    hide ToSend;
    hide OffsetFor;
    hide NewEntry;
    hide TurnLegal;
    hide TurnClean;
    hide TurnStep;
    var w, f, g := Nothing(), FileOf(r, a, early, ino), FileOf(r, b, late, ino);
    NothingKnown(f, map[r := a]);
    es := SentWhole(c, w, [], r, a, early, ino, budget);
    var u := Turns(c, w, es);
    hide Turns;
    hide TurnsLegal;
    hide TurnsClean;
    SameTail(r, a, b, f, g, u.state);
    es := SentTail(c, w, es, r, b, late, ino, budget, |a|);
    NewIsUpToDate(g, map[r := b], Turns(c, w, es).state);
    assert (a + b[|a|..])[..|a| - TAIL] == a[..|a| - TAIL];
  }

  /** A run after which the client keeps nothing, because the transport failed at its end. */
  lemma Forgotten(c: Codec, w: World, e: Push)
    requires Legal(c, w, Run(e))
    ensures var lost := e.(failed := true);
            Legal(c, w, Run(lost)) && Step(c, w, Run(lost)) == Step(c, w, Run(e)).(state := w.state)
  {
    var lost := e.(failed := true);
    assert Items(w, lost) == Items(w, e) && Request(c, w, lost) == Request(c, w, e);
  }

  lemma SentUnheard(c: Codec, w: World, es: seq<Turn>, r: string, data: Bytes, mtime: int, ino: nat, budget: nat)
    returns (more: seq<Turn>)
    requires JsonLike(c) && SafeRel(r) == Some(r) && |data| <= MAX_FILE && budget <= MAX_RUN_SERVER
    requires TurnsLegal(c, w, es)
    requires var f, u := FileOf(r, data, mtime, ino), Turns(c, w, es);
             && ToSend(f, u.state, map[r := data]) && OffsetFor(f, u.state, map[r := data]) == 0
             && HeadLen(c, f, 0) < HEADER_LIMIT
    ensures Adds(es, more, OneFile(r, data, mtime, ino)) && TurnsLegal(c, w, more)
    ensures var v := Turns(c, w, more);
            && v.src == OneFile(r, data, mtime, ino) && v.state == Turns(c, w, es).state
            && r in v.inbox && v.inbox[r] == data
  {
    hide TurnsLegal;
    hide TurnsClean;
    hide Turns;
    hide Step;
    hide ToSend;
    hide OffsetFor;
    hide Store;
    hide Settle;
    hide Clean;
    hide Legal;
    hide JsonLike;
    var u := Turns(c, w, es);
    var e0 := Rewrite(OneFile(r, data, mtime, ino));
    TurnsSnoc(c, w, es, e0);
    var u1 := u.(src := OneFile(r, data, mtime, ino));
    assert Contents(u1.src) == map[r := data];
    var push := OneDelivered(c, u1, r, data, mtime, ino, budget);
    WholeIsStored(u1.inbox, r, data);
    Forgotten(c, u1, push);
    var e1 := Sync(push.(failed := true));
    TurnsSnoc(c, w, es + [e0], e1);
    more := es + [e0] + [e1];
    assert more[..|es|] == es;
  }

  /** Without a loss, that is. With one, the guard does not even vouch for the window: a file is sent, then
      rewritten at the same length and sent again in a run whose answers are lost, and then put back and
      made longer. The client's entry is right about the source and about the length of the copy, and the
      addition is appended to the wrong file. */
  lemma {:induction false} LostAnswerDefeatsTheGuard(c: Codec, r: string, a: Bytes, b: Bytes, x: Bytes, early: int,
                                                     mid: int, late: int, ino: nat, budget: nat)
    returns (es: seq<Turn>)
    requires JsonLike(c) && SafeRel(r) == Some(r) && budget <= MAX_RUN_SERVER
    requires |a| == |b| > 0 && a != b && |x| > 0 && |a| + |x| <= MAX_FILE && early != mid
    requires HeadLen(c, FileOf(r, a, early, ino), 0) < HEADER_LIMIT
    requires HeadLen(c, FileOf(r, b, mid, ino), 0) < HEADER_LIMIT
    requires HeadLen(c, FileOf(r, a + x, late, ino), |a|) < HEADER_LIMIT
    ensures TurnsLegal(c, Nothing(), es) && |es| == 6 && es[0] == Rewrite(OneFile(r, a, early, ino))
    ensures es[2] == Rewrite(OneFile(r, b, mid, ino)) && es[4] == Rewrite(OneFile(r, a + x, late, ino))
    ensures var v := Turns(c, Nothing(), es);
            && v.src == OneFile(r, a + x, late, ino)
            && r in v.inbox && v.inbox[r] == b + x != a + x && UpToDate(FileOf(r, a + x, late, ino), v.state)
  {
    hide JsonLike;
    hide TailHash;
    hide TurnLegal;
    hide TurnClean;
    hide TurnStep;
    hide ToSend;
    hide OffsetFor;
    hide NewEntry;
    var w, f, g, h := Nothing(), FileOf(r, a, early, ino), FileOf(r, b, mid, ino), FileOf(r, a + x, late, ino);
    NothingKnown(f, map[r := a]);
    es := SentWhole(c, w, [], r, a, early, ino, budget);
    hide Turns;
    hide TurnsLegal;
    hide TurnsClean;
    SameLength(f, g, a, b, Turns(c, w, es).state);
    es := SentUnheard(c, w, es, r, b, mid, ino, budget);
    PutBack(f, h, a, x, Turns(c, w, es).state);
    es := SentTail(c, w, es, r, a + x, late, ino, budget, |a|);
    assert (a + x)[|a|..] == x;
    NewIsUpToDate(h, map[r := a + x], Turns(c, w, es).state);
    assert (b + x)[..|a|] == b && (a + x)[..|a|] == a;
  }

  lemma SameLength(f: LocalFile, g: LocalFile, a: Bytes, b: Bytes, state: ClientState)
    requires f.rel == g.rel && f.size == |a| == |b| == g.size && f.mtime != g.mtime
    requires f.rel in state && state[f.rel] == NewEntry(f, map[f.rel := a])
    ensures ToSend(g, state, map[f.rel := b]) && OffsetFor(g, state, map[f.rel := b]) == 0
  {
  }

  lemma PutBack(f: LocalFile, h: LocalFile, a: Bytes, x: Bytes, state: ClientState)
    requires f.rel == h.rel && f.ino == h.ino && f.size == |a| > 0 && h.size == |a + x| > |a|
    requires f.rel in state && state[f.rel] == NewEntry(f, map[f.rel := a])
    ensures ToSend(h, state, map[f.rel := a + x]) && OffsetFor(h, state, map[f.rel := a + x]) == |a|
  {
    assert (a + x)[Max(0, |a| - TAIL)..|a|] == a[Max(0, |a| - TAIL)..|a|];
  }

  lemma NothingKnown(f: LocalFile, src: Sources)
    ensures ToSend(f, map[], src) && OffsetFor(f, map[], src) == 0
  {
  }

  lemma NewIsUpToDate(f: LocalFile, src: Sources, state: ClientState)
    requires f.rel in state && state[f.rel] == NewEntry(f, src)
    ensures UpToDate(f, state)
  {
  }

  lemma SameTail(r: string, a: Bytes, b: Bytes, f: LocalFile, g: LocalFile, state: ClientState)
    requires TAIL < |a| < |b| && b[|a| - TAIL..|a|] == a[|a| - TAIL..]
    requires f.rel == g.rel == r && f.size == |a| && g.size == |b| && f.ino == g.ino
    requires r in state && state[r] == NewEntry(f, map[r := a])
    ensures ToSend(g, state, map[r := b]) && OffsetFor(g, state, map[r := b]) == |a|
  {
    assert a[|a| - TAIL..|a|] == a[|a| - TAIL..];
  }

  // ---------- local delivery ----------

  /** The loop of `deliver_local`, on files that open and keep their length. */
  function LocalRun(p: Plan, inbox: Inbox, state: ClientState, src: Sources, delivered: nat): (Inbox, ClientState, nat)
    decreases |p|
  {
    if |p| == 0 then (inbox, state, delivered)
    else
      var (f, off) := p[0];
      if f.rel !in src || off > f.size then LocalRun(p[1..], inbox, state, src, delivered)
      else
        var data := src[f.rel];
        var got := data[Min(off, |data|)..Min(f.size, |data|)];
        var (stored, status) := Store(inbox, f.rel, off, f.size - off, got);
        LocalRun(p[1..], stored, Settle(state, f, Some(status), src), src,
                 delivered + if status == Stored then 1 else 0)
  }

  /** What `update_state` returns. */
  function OkCount(sent: Plan, statuses: map<string, Status>): nat
    decreases |sent|
  {
    if |sent| == 0 then 0
    else (if StatusFor(statuses, sent[0].0.rel) == Some(Stored) then 1 else 0) + OkCount(sent[1..], statuses)
  }

  /** Every planned file opens and is as long as it was. */
  ghost predicate AllOpen(p: Plan, src: Sources) {
    forall x :: x in p ==> x.0.rel in src && x.1 <= x.0.size <= |src[x.0.rel]|
  }

  /** Each file's answer is its status. */
  ghost predicate Answered(p: Plan, answers: seq<Answer>, statuses: map<string, Status>) {
    |answers| == |p| && forall i :: 0 <= i < |p| ==> StatusFor(statuses, p[i].0.rel) == Some(answers[i].status)
  }

  lemma RestAnswered(p: Plan, src: Sources, a: Answer, rest: seq<Answer>, statuses: map<string, Status>)
    requires |p| > 0 && AllOpen(p, src) && Answered(p, [a] + rest, statuses)
    ensures p[0].0.rel in src && p[0].1 <= p[0].0.size <= |src[p[0].0.rel]|
    ensures StatusFor(statuses, p[0].0.rel) == Some(a.status)
    ensures AllOpen(p[1..], src) && Answered(p[1..], rest, statuses)
  {
    hide StatusFor;
    assert p[0] in p;
    forall i | 0 <= i < |rest| ensures StatusFor(statuses, p[1..][i].0.rel) == Some(rest[i].status) {
      assert p[1..][i] == p[i + 1] && rest[i] == ([a] + rest)[i + 1];
    }
  }

  lemma {:induction false} LocalIsNet(p: Plan, inbox: Inbox, state: ClientState, src: Sources,
                                      statuses: map<string, Status>, delivered: nat)
    requires AllOpen(p, src) && Answered(p, Deliver(inbox, Frames(p, src)).1, statuses)
    ensures LocalRun(p, inbox, state, src, delivered)
            == (Deliver(inbox, Frames(p, src)).0, Update(state, p, statuses, src), delivered + OkCount(p, statuses))
    decreases |p|
  {
    if |p| > 0 {
      var (f, off) := p[0];
      assert p[0] in p && f.rel in src;
      hide AllOpen;
      hide Answered;
      hide Store;
      hide Settle;
      hide Frames;
      hide Deliver;
      hide LocalRun;
      hide Update;
      hide OkCount;
      hide StatusFor;
      var (stored, status) := Store(inbox, f.rel, off, f.size - off, src[f.rel][off..f.size]);
      FirstOf(p, inbox, src);
      FirstStep(p, inbox, state, src, statuses, delivered);
      RestAnswered(p, src, Answer(Some(f.rel), status), Deliver(stored, Frames(p[1..], src)).1, statuses);
      LocalIsNet(p[1..], stored, Settle(state, f, Some(status), src), src, statuses,
                 delivered + if status == Stored then 1 else 0);
    }
  }

  lemma FirstStep(p: Plan, inbox: Inbox, state: ClientState, src: Sources,
                  statuses: map<string, Status>, delivered: nat)
    requires |p| > 0 && p[0].0.rel in src && p[0].1 <= p[0].0.size <= |src[p[0].0.rel]|
    ensures var (f, off) := p[0];
            var (stored, status) := Store(inbox, f.rel, off, f.size - off, src[f.rel][off..f.size]);
            && LocalRun(p, inbox, state, src, delivered)
               == LocalRun(p[1..], stored, Settle(state, f, Some(status), src), src,
                           delivered + if status == Stored then 1 else 0)
            && Update(state, p, statuses, src)
               == Update(Settle(state, f, StatusFor(statuses, f.rel), src), p[1..], statuses, src)
            && OkCount(p, statuses)
               == (if StatusFor(statuses, f.rel) == Some(Stored) then 1 else 0) + OkCount(p[1..], statuses)
  {
    hide Store;
    hide Settle;
    hide StatusFor;
  }

  /** The delivery of the first file of a plan. */
  lemma FirstOf(p: Plan, inbox: Inbox, src: Sources)
    requires |p| > 0 && p[0].0.rel in src && p[0].1 <= p[0].0.size <= |src[p[0].0.rel]|
    ensures var (f, off) := p[0];
            var (stored, status) := Store(inbox, f.rel, off, f.size - off, src[f.rel][off..f.size]);
            var rest := Deliver(stored, Frames(p[1..], src));
            Deliver(inbox, Frames(p, src)) == (rest.0, [Answer(Some(f.rel), status)] + rest.1)
  {
    hide Store;
    var (f, off) := p[0];
    var it := Item(f.rel, off, src[f.rel][off..f.size]);
    assert Frames(p, src) == [it] + Frames(p[1..], src) && Frames(p, src)[1..] == Frames(p[1..], src);
  }

  /** A run in which the server can read every header. */
  function CleanRun(w: World, files: seq<LocalFile>, budget: nat): World {
    RunTo(w, files, budget, |PlanFor(w, files, budget)|)
  }

  /** The server's own sessions, delivered without a stream, end up like those of a laptop, same inbox,
      same state, same count, if and only if the laptop's stream has no header the server cannot read. */
  lemma LocalRefinesNetwork(c: Codec, w: World, e: Push)
    requires JsonLike(c) && Legal(c, w, Run(e)) && Clean(c, w, e)
    ensures var p, src := PlanFor(w, e.files, e.budget), Contents(w.src);
            var net, items := Step(c, w, Run(e)), Items(w, e);
            var local := LocalRun(p, w.inbox, w.state, src, 0);
            && (local.0 == net.inbox && local.1 == net.state <==> Reached(c, items) == items)
            && (Reached(c, items) == items ==> local.2 == OkCount(p, Statuses(Deliver(w.inbox, items).1)))
  {
    hide PlanFor;
    hide Step;
    hide LocalRun;
    hide RunTo;
    hide Frames;
    CleanIs(c, w, e);
    LocalNet(w, e.files, e.budget);
    assert e.sendSrc - e.closed == w.src;
    assert Items(w, e) == Frames(PlanFor(w, e.files, e.budget), Contents(w.src)) by { hide *; ItemsOfPlan(w, e); }
    PlanFrames(w, e.files, e.budget);
    if Readable(c, Items(w, e)) < |Items(w, e)| {
      UnreachedDiffers(w, e.files, e.budget, Readable(c, Items(w, e)));
    } else {
      assert Reached(c, Items(w, e)) == Items(w, e);
    }
  }

  lemma ItemsOfPlan(w: World, e: Push)
    requires e.sendSrc - e.closed == w.src
    ensures Items(w, e) == Frames(PlanFor(w, e.files, e.budget), Contents(w.src))
  {
  }

  /** What the server does not get to, the laptop does not remember; local delivery does. */
  lemma UnreachedDiffers(w: World, files: seq<LocalFile>, budget: nat, n: nat)
    requires ScanOf(files, w.src) && n < |PlanFor(w, files, budget)|
    ensures RunTo(w, files, budget, n).state != CleanRun(w, files, budget).state
  {
    hide PlanFor;
    hide Frames;
    hide RunTo;
    hide ToSend;
    hide OffsetFor;
    hide Store;
    hide Settle;
    hide ScanOf;
    hide SentOf;
    var p, src := PlanFor(w, files, budget), Contents(w.src);
    PlanFrames(w, files, budget);
    var x := p[n];
    forall i | 0 <= i < |p| && i < n ensures p[i].0.rel != x.0.rel {}
    UnreachedFile(w, files, budget, n, x.0.rel);
    ReachedFile(w, files, budget, |p|, n);
    RunToKeepsSources(w, files, budget, |p|);
    SettledIsLighter(w, CleanRun(w, files, budget), x.0, x.1);
    StaleEntry(w.state, x.0, src);
  }

  lemma LocalNet(w: World, files: seq<LocalFile>, budget: nat)
    requires ScanOf(files, w.src)
    ensures var p, src, v := PlanFor(w, files, budget), Contents(w.src), CleanRun(w, files, budget);
            LocalRun(p, w.inbox, w.state, src, 0)
            == (v.inbox, v.state, OkCount(p, Statuses(Deliver(w.inbox, Frames(p, src)).1)))
  {
    hide PlanOf;
    hide ToSend;
    hide OffsetFor;
    hide Deliver;
    hide Frames;
    hide SentOf;
    hide LocalRun;
    hide Update;
    hide OkCount;
    hide StatusFor;
    hide Statuses;
    var p, src := PlanFor(w, files, budget), Contents(w.src);
    PlanIs(files, w.state, src, budget);
    PlanFrames(w, files, budget);
    assert Frames(p, src)[..|p|] == Frames(p, src);
    var answers := Deliver(w.inbox, Frames(p, src)).1;
    AllHeard(w.inbox, p, src);
    LocalIsNet(p, w.inbox, w.state, src, Statuses(answers), 0);
  }

  lemma AllHeard(inbox: Inbox, p: Plan, src: Sources)
    requires DistinctPlan(p)
    requires forall x :: x in p ==> x.0.rel in src && x.1 <= x.0.size <= |src[x.0.rel]|
    ensures var answers := Deliver(inbox, Frames(p, src)).1;
            && |answers| == |p|
            && forall i :: 0 <= i < |p| ==> StatusFor(Statuses(answers), p[i].0.rel) == Some(answers[i].status)
  {
    hide Deliver;
    hide Frames;
    hide SentOf;
    AllSent(p, src);
    FramesOf(p, src);
    var answers := Deliver(inbox, Frames(p, src)).1;
    DeliverAnswers(inbox, Frames(p, src));
    forall i | 0 <= i < |p| ensures StatusFor(Statuses(answers), p[i].0.rel) == Some(answers[i].status) {
      forall j | i < j < |answers| ensures answers[j].path != answers[i].path { assert p[j].0.rel != p[i].0.rel; }
      StatusesAt(answers, i);
    }
  }
}
