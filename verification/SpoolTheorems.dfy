/** No message is lost: conservation over every run of deliveries, arrivals and crashes. */
module SpoolTheorems {
  import opened Common
  import opened Cooldown
  import opened Spool

  // ---------- the invariant ----------

  ghost predicate HandedOver(out: seq<Handed>, name: nat) {
    exists i :: 0 <= i < |out| && out[i].name == name
  }

  ghost predicate Backed(d: Disk, past: Past, name: nat) {
    || name in d.incoming
    || name in d.retry
    || HandedOver(past.out, name)
    || name in past.refused
    || name in past.held
  }

  /** `m` came under a stamp younger than its cooldown. */
  ghost predicate TooSoon(past: Past, h: Held, m: Message) {
    h.calls <= |past.calls| && !Verdict(Table(past.calls[..h.calls]), m.key, m.hours, h.at)
  }

  ghost predicate FilesInv(d: Disk, past: Past) {
    && (forall n :: n in d.incoming ==> n in past.queued && d.incoming[n] == past.queued[n])
    && (forall n :: n in d.retry ==> n in past.queued && d.retry[n] == past.queued[n])
  }

  ghost predicate PastInv(past: Past) {
    && (forall i :: 0 <= i < |past.out| ==>
          past.out[i].name in past.queued && Accept(past.queued[past.out[i].name]) == Some(past.out[i].message))
    && (forall n :: n in past.refused ==> n in past.queued && Accept(past.queued[n]) == None)
    && (forall n :: n in past.held ==>
          n in past.queued && Accept(past.queued[n]).Some? && TooSoon(past, past.held[n], Accept(past.queued[n]).value))
  }

  ghost predicate StampsInv(d: Disk, past: Past) {
    && d.stamps == Table(past.calls)
    && forall i :: 0 <= i < |past.calls| ==> !Free(past.calls[i].key, past.calls[i].hours) && Accepted(past.calls, i)
  }

  /** What the pending writes of a delivery are good for, the stamp aside. */
  ghost predicate TailOk(s: Machine, now: real, todo: seq<Write>) {
    |todo| == 0 ||
    match todo[0]
    case Stamp(_, _) => false
    case HandOver(n, m) =>
      && |todo| == 2 && todo[1].Drop? && todo[1].why.Done? && todo[1].ref.name == n
      && Has(s.disk, todo[1].ref) && Accept(FileAt(s.disk, todo[1].ref)) == Some(m)
    case Keep(n, file) =>
      && |todo| == 2 && todo[1] == Drop(Ref(Incoming, n), Moved)
      && n in s.disk.incoming && s.disk.incoming[n] == file
    case Drop(r, why) =>
      && |todo| == 1 && Has(s.disk, r)
      && match why
         case Invalid => Accept(FileAt(s.disk, r)) == None
         case HeldBack =>
           var m := Accept(FileAt(s.disk, r));
           m.Some? && !Verdict(s.disk.stamps, m.value.key, m.value.hours, now)
         case Done => HandedOver(s.past.out, r.name)
         case Moved => r.place.Incoming? && r.name in s.disk.retry
  }

  ghost predicate TodoOk(s: Machine, now: real, todo: seq<Write>) {
    if |todo| > 0 && todo[0].Stamp? then
      && !Free(todo[0].key, todo[0].hours) && Verdict(s.disk.stamps, todo[0].key, todo[0].hours, now)
      && TailOk(s, now, todo[1..]) && (|todo| > 1 ==> !(todo[1].Drop? && todo[1].why.HeldBack?))
    else TailOk(s, now, todo)
  }

  ghost predicate QueueOk(s: Machine, queue: seq<Ref>, todo: seq<Write>) {
    && (forall i :: 0 <= i < |queue| ==> Has(s.disk, queue[i]))
    && (forall i, j :: 0 <= i < j < |queue| ==> queue[i] != queue[j])
    && (forall i, j :: 0 <= i < |queue| && 0 <= j < |todo| && todo[j].Drop? ==> queue[i] != todo[j].ref)
  }

  ghost predicate ProcInv(s: Machine) {
    s.proc.Busy? ==> TodoOk(s, s.proc.now, s.proc.todo) && QueueOk(s, s.proc.queue, s.proc.todo)
  }

  ghost predicate AllBacked(s: Machine) {
    forall n :: n in s.past.queued ==> Backed(s.disk, s.past, n)
  }

  ghost predicate Inv(s: Machine) {
    FilesInv(s.disk, s.past) && PastInv(s.past) && StampsInv(s.disk, s.past) && ProcInv(s) && AllBacked(s)
  }

  // ---------- it is kept ----------

  lemma EnqueueKeepsInv(s: Machine, e: Event)
    requires Inv(s) && e.Enqueue? && Legal(s, e)
    ensures Inv(Next(s, e))
  {
    EnqueueKeepsRecord(s, e);
    EnqueueKeepsProc(s, e);
    EnqueueKeepsBacked(s, e);
  }

  lemma EnqueueKeepsRecord(s: Machine, e: Event)
    requires Inv(s) && e.Enqueue? && Legal(s, e)
    ensures var t := Next(s, e); FilesInv(t.disk, t.past) && PastInv(t.past) && StampsInv(t.disk, t.past)
  {
    hide ProcInv;
    hide AllBacked;
    hide Accept;
    hide Verdict;
    hide Table;
  }

  lemma EnqueueKeepsProc(s: Machine, e: Event)
    requires FilesInv(s.disk, s.past) && ProcInv(s) && e.Enqueue? && Legal(s, e)
    ensures ProcInv(Next(s, e))
  {
    hide Accept;
    hide Verdict;
    hide HandedOver;
    assert e.name !in s.disk.incoming;
  }

  lemma EnqueueKeepsBacked(s: Machine, e: Event)
    requires AllBacked(s) && e.Enqueue? && Legal(s, e)
    ensures AllBacked(Next(s, e))
  {
    hide HandedOver;
    var t := Next(s, e);
    forall n | n in t.past.queued ensures Backed(t.disk, t.past, n) {
      if n != e.name { assert Backed(s.disk, s.past, n); }
    }
  }

  lemma BeginKeepsInv(s: Machine, e: Event)
    requires Inv(s) && e.Begin? && Legal(s, e)
    ensures Inv(Next(s, e))
  {
    hide Accept;
    hide Verdict;
    hide Table;
  }

  lemma HandleKeepsInv(s: Machine, e: Event)
    requires Inv(s) && e.Handle? && Legal(s, e)
    ensures Inv(Next(s, e))
  {
    hide Script;
    hide ProcInv;
    HandleKeepsProc(s, e);
  }

  lemma HandleKeepsProc(s: Machine, e: Event)
    requires ProcInv(s) && e.Handle? && Legal(s, e)
    ensures ProcInv(Next(s, e))
  {
    hide HandedOver;
    hide Accept;
    hide Verdict;
    ScriptFits(s, s.proc.now, s.proc.queue[0], e.up);
    hide Script;
    hide TodoOk;
    hide Stops;
    var q := s.proc.queue;
    assert forall i :: 1 <= i < |q| ==> q[i] != q[0];
  }

  /** What `deliver` is about to do for a file is right for it. */
  lemma ScriptFits(s: Machine, now: real, r: Ref, up: bool)
    requires Has(s.disk, r)
    ensures TodoOk(s, now, Script(s.disk, now, r, up))
    ensures TodoOk(s, now, Script(s.disk, now, r, up)) ==>
              forall t: Machine :: t.disk == s.disk && t.past == s.past ==> TodoOk(t, now, Script(s.disk, now, r, up))
    ensures var script := Script(s.disk, now, r, up);
            forall j :: 0 <= j < |script| && script[j].Drop? ==> script[j].ref == r
  {
    hide HandedOver;
    hide Accept;
    hide Verdict;
  }

  /** A write to the disk or the record that keeps each part. */
  lemma StampKeepsInv(s: Machine, e: Event)
    requires Inv(s) && e.Do? && Legal(s, e) && s.proc.todo[0].Stamp?
    ensures Inv(Next(s, e))
  {
    hide Accept;
    hide Verdict;
    hide Table;
    hide Backed;
    var t, w := Next(s, e), s.proc.todo[0];
    var before, after := s.past.calls, t.past.calls;
    StampsSnoc(s, w);
    forall n | n in t.past.held ensures TooSoon(t.past, t.past.held[n], Accept(t.past.queued[n]).value) {
      assert TooSoon(s.past, s.past.held[n], Accept(s.past.queued[n]).value);
      assert after[..s.past.held[n].calls] == before[..s.past.held[n].calls];
    }
    forall n | n in t.past.queued ensures Backed(t.disk, t.past, n) { BackedSame(s, t, n); }
    assert TailOk(t, t.proc.now, t.proc.todo);
  }

  lemma BackedSame(s: Machine, t: Machine, n: nat)
    requires Backed(s.disk, s.past, n)
    requires s.disk.incoming == t.disk.incoming && s.disk.retry == t.disk.retry
    requires s.past == t.past.(calls := s.past.calls)
    ensures Backed(t.disk, t.past, n)
  {
  }

  lemma StampsSnoc(s: Machine, w: Write)
    requires w.Stamp? && StampsInv(s.disk, s.past) && s.proc.Busy?
    requires !Free(w.key, w.hours) && Verdict(s.disk.stamps, w.key, w.hours, s.proc.now)
    ensures StampsInv(Make(s, s.proc.now, w).disk, Make(s, s.proc.now, w).past)
  {
    var calls, c := s.past.calls, Call(w.key, w.hours, s.proc.now);
    var more := calls + [c];
    assert more[..|calls|] == calls;
    forall i | 0 <= i < |more| ensures !Free(more[i].key, more[i].hours) && Accepted(more, i) {
      if i < |calls| { assert more[..i] == calls[..i] && Accepted(calls, i); }
    }
  }

  lemma HandOverKeepsInv(s: Machine, e: Event)
    requires Inv(s) && e.Do? && Legal(s, e) && s.proc.todo[0].HandOver?
    ensures Inv(Next(s, e))
  {
    HandOverKeepsRecord(s, e);
    HandOverKeepsProc(s, e);
  }

  lemma HandedMore(s: Machine, e: Event)
    requires e.Do? && Legal(s, e) && s.proc.todo[0].HandOver?
    ensures var t := Next(s, e);
            && HandedOver(t.past.out, s.proc.todo[0].name)
            && forall n :: HandedOver(s.past.out, n) ==> HandedOver(t.past.out, n)
  {
    var t := Next(s, e);
    forall n | HandedOver(s.past.out, n) ensures HandedOver(t.past.out, n) {
      var i :| 0 <= i < |s.past.out| && s.past.out[i].name == n;
      assert t.past.out[i] == s.past.out[i];
    }
    assert t.past.out[|s.past.out|].name == s.proc.todo[0].name;
  }

  lemma HandOverKeepsRecord(s: Machine, e: Event)
    requires Inv(s) && e.Do? && Legal(s, e) && s.proc.todo[0].HandOver?
    ensures var t := Next(s, e);
            FilesInv(t.disk, t.past) && PastInv(t.past) && StampsInv(t.disk, t.past) && AllBacked(t)
  {
    hide Accept;
    hide Verdict;
    hide Table;
    hide QueueOk;
    HandedMore(s, e);
    hide HandedOver;
  }

  lemma HandOverKeepsProc(s: Machine, e: Event)
    requires Inv(s) && e.Do? && Legal(s, e) && s.proc.todo[0].HandOver?
    ensures ProcInv(Next(s, e))
  {
    hide Accept;
    hide Verdict;
    hide Table;
    hide AllBacked;
    hide FilesInv;
    hide PastInv;
    hide StampsInv;
    HandedMore(s, e);
    hide HandedOver;
    assert Next(s, e).proc.todo == [s.proc.todo[1]];
  }

  lemma KeepKeepsInv(s: Machine, e: Event)
    requires Inv(s) && e.Do? && Legal(s, e) && s.proc.todo[0].Keep?
    ensures Inv(Next(s, e))
  {
    hide Accept;
    hide Verdict;
    hide Table;
    assert Next(s, e).proc.todo == [s.proc.todo[1]];
  }

  lemma DropKeepsInv(s: Machine, e: Event)
    requires Inv(s) && e.Do? && Legal(s, e) && s.proc.todo[0].Drop?
    ensures Inv(Next(s, e))
  {
    DropKeepsRecord(s, e);
    DropKeepsProc(s, e);
    DropKeepsBacked(s, e);
  }

  lemma DropKeepsRecord(s: Machine, e: Event)
    requires Inv(s) && e.Do? && Legal(s, e) && s.proc.todo[0].Drop?
    ensures var t := Next(s, e); FilesInv(t.disk, t.past) && PastInv(t.past) && StampsInv(t.disk, t.past)
  {
    hide QueueOk;
    hide AllBacked;
    hide Accept;
    hide Verdict;
    hide Table;
    hide HandedOver;
    assert s.past.calls[..|s.past.calls|] == s.past.calls;
    var w := s.proc.todo[0];
    assert FileAt(s.disk, w.ref) == s.past.queued[w.ref.name];
  }

  lemma DropKeepsProc(s: Machine, e: Event)
    requires ProcInv(s) && e.Do? && Legal(s, e) && s.proc.todo[0].Drop?
    ensures ProcInv(Next(s, e))
  {
    hide Accept;
    hide Verdict;
    hide HandedOver;
    assert s.proc.todo[1..] == [];
  }

  lemma DropKeepsBacked(s: Machine, e: Event)
    requires AllBacked(s) && ProcInv(s) && e.Do? && Legal(s, e) && s.proc.todo[0].Drop?
    ensures AllBacked(Next(s, e))
  {
    hide QueueOk;
    hide Accept;
    hide Verdict;
    hide HandedOver;
    var t := Next(s, e);
    forall n | n in t.past.queued ensures Backed(t.disk, t.past, n) {
      assert Backed(s.disk, s.past, n);
    }
  }

  lemma StepKeepsInv(s: Machine, e: Event)
    requires Inv(s) && Legal(s, e)
    ensures Inv(Next(s, e))
  {
    match e {
      case Enqueue(_, _) => EnqueueKeepsInv(s, e);
      case Begin(_, _, _) => BeginKeepsInv(s, e);
      case Handle(_) => HandleKeepsInv(s, e);
      case Do =>
        match s.proc.todo[0] {
          case Stamp(_, _) => StampKeepsInv(s, e);
          case HandOver(_, _) => HandOverKeepsInv(s, e);
          case Keep(_, _) => KeepKeepsInv(s, e);
          case Drop(_, _) => DropKeepsInv(s, e);
        }
      case _ =>
    }
  }

  lemma {:induction false} RunKeepsInv(es: seq<Event>)
    requires Runs(es)
    ensures Inv(After(es))
  {
    if |es| > 0 {
      RunKeepsInv(es[..|es| - 1]);
      StepKeepsInv(After(es[..|es| - 1]), es[|es| - 1]);
    }
  }

  // ---------- main results ----------

  /** `m` was handed over, to the channel or for info to the digest. */
  ghost predicate Delivered(past: Past, name: nat, m: Message) {
    Handed(name, m) in past.out
  }

  /** Conservation: a message that parses, is no larger than the limit and asks for no cooldown is at any
      moment of any run still in one of the folders, untouched, or has been handed over as it is. */
  lemma NothingIsLost(es: seq<Event>, name: nat)
    requires Runs(es) && name in After(es).past.queued
    ensures var s := After(es);
            var file := s.past.queued[name];
            var m := Accept(file);
            m.Some? && Free(m.value.key, m.value.hours) ==>
              || (name in s.disk.incoming && s.disk.incoming[name] == file)
              || (name in s.disk.retry && s.disk.retry[name] == file)
              || Delivered(s.past, name, m.value)
  {
    RunKeepsInv(es);
    var s := After(es);
    assert Backed(s.disk, s.past, name);
    if HandedOver(s.past.out, name) {
      var i :| 0 <= i < |s.past.out| && s.past.out[i].name == name;
      assert s.past.out[i] == Handed(name, Accept(s.past.queued[name]).value);
    }
  }

  /** What an event of the run queued is on record. */
  lemma {:induction false} EnqueuedIsKnown(es: seq<Event>, t: nat)
    requires Runs(es) && t < |es| && es[t].Enqueue?
    ensures var queued := After(es).past.queued; es[t].name in queued && queued[es[t].name] == es[t].file
  {
    hide Next;
    hide Legal;
    QueuedStays(After(es[..|es| - 1]), es[|es| - 1]);
    if t < |es| - 1 { EnqueuedIsKnown(es[..|es| - 1], t); }
  }

  lemma QueuedStays(s: Machine, e: Event)
    requires Legal(s, e)
    ensures var queued := Next(s, e).past.queued;
            && (e.Enqueue? ==> e.name in queued && queued[e.name] == e.file)
            && forall n :: n in s.past.queued ==> n in queued && queued[n] == s.past.queued[n]
  {
  }

  lemma {:induction false} ToChannelHas(out: seq<Handed>, h: Handed)
    requires h in out && h.message.severity != "info"
    ensures h in ToChannel(out)
  {
    if out[|out| - 1] != h { ToChannelHas(out[..|out| - 1], h); }
  }

  /** A message without cooldown that is in neither folder any more reached the channel. */
  lemma {:induction false} GoneIsDelivered(es: seq<Event>, t: nat)
    requires Runs(es) && t < |es| && es[t].Enqueue?
    requires var m := Accept(es[t].file); m.Some? && Free(m.value.key, m.value.hours) && m.value.severity != "info"
    requires !Has(After(es).disk, Ref(Retry, es[t].name)) && !Has(After(es).disk, Ref(Incoming, es[t].name))
    ensures Handed(es[t].name, Accept(es[t].file).value) in ToChannel(After(es).past.out)
  {
    hide Accept;
    EnqueuedIsKnown(es, t);
    NothingIsLost(es, es[t].name);
    ToChannelHas(After(es).past.out, Handed(es[t].name, Accept(es[t].file).value));
  }

  /** Nothing else is handed over, and only what cannot be read as a message is refused. */
  lemma NothingIsInvented(es: seq<Event>, i: nat, name: nat)
    requires Runs(es)
    ensures var past := After(es).past;
            && (i < |past.out| ==>
                  && past.out[i].name in past.queued
                  && Accept(past.queued[past.out[i].name]) == Some(past.out[i].message))
            && (name in past.refused ==> name in past.queued && Accept(past.queued[name]) == None)
  {
    RunKeepsInv(es);
  }

  /** A stamp of the same key, still remembered after the first `k` calls, is younger than the cooldown. */
  ghost predicate Blocks(calls: seq<Call>, i: int, m: Message, at: real) {
    Remembered(calls, i) && calls[i].key == m.key && at - calls[i].now < m.hours * 3600.0
  }

  /** A keyed message is gone without being handed over only if it was held back: when it was looked at,
      a message of its key, maybe itself, had been let through less than its cooldown before. */
  lemma LostOnlyWhenHeldBack(es: seq<Event>, name: nat)
    requires Runs(es) && name in After(es).past.queued
    ensures var s := After(es);
            var m := Accept(s.past.queued[name]);
            m.Some? && name !in s.disk.incoming && name !in s.disk.retry && !Delivered(s.past, name, m.value) ==>
              && name in s.past.held
              && !Free(m.value.key, m.value.hours)
              && s.past.held[name].calls <= |s.past.calls|
              && exists i :: Blocks(s.past.calls[..s.past.held[name].calls], i, m.value, s.past.held[name].at)
  {
    RunKeepsInv(es);
    var s := After(es);
    var m := Accept(s.past.queued[name]);
    assert Backed(s.disk, s.past, name);
    if HandedOver(s.past.out, name) {
      var i :| 0 <= i < |s.past.out| && s.past.out[i].name == name;
      assert s.past.out[i] == Handed(name, m.value);
    } else if m.Some? && name in s.past.held {
      var h := s.past.held[name];
      assert TooSoon(s.past, h, m.value);
      YoungStamp(s.past.calls[..h.calls], m.value, h.at);
    }
  }

  lemma YoungStamp(calls: seq<Call>, m: Message, at: real)
    ensures !Verdict(Table(calls), m.key, m.hours, at) <==> !Free(m.key, m.hours) && exists i :: Blocks(calls, i, m, at)
  {
    TableIs(calls, m.key);
    if exists i :: Blocks(calls, i, m, at) {
      var i :| Blocks(calls, i, m, at);
      assert Remembered(calls, i);
    }
    if !Verdict(Table(calls), m.key, m.hours, at) {
      var i :| 0 <= i < |calls| && Remembered(calls, i) && calls[i].key == m.key;
      assert Blocks(calls, i, m, at);
    }
  }

  /** And exactly then: the file looked at next is held back if and only if such a stamp blocks it. */
  lemma HeldBackIff(es: seq<Event>, up: bool)
    requires Runs(es) && Legal(After(es), Handle(up))
    ensures var s := After(es);
            var r := s.proc.queue[0];
            var m := Accept(FileAt(s.disk, r));
            m.Some? ==>
              (Next(s, Handle(up)).proc.todo == [Drop(r, HeldBack)]
               <==> !Free(m.value.key, m.value.hours) && exists i :: Blocks(s.past.calls, i, m.value, s.proc.now))
  {
    RunKeepsInv(es);
    hide Accept;
    hide Verdict;
    hide Script;
    hide Blocks;
    hide Table;
    var s := After(es);
    var m := Accept(FileAt(s.disk, s.proc.queue[0]));
    if m.Some? {
      YoungStamp(s.past.calls, m.value, s.proc.now);
      ScriptHolds(s.disk, s.proc.now, s.proc.queue[0], up);
    }
  }

  lemma ScriptHolds(d: Disk, now: real, r: Ref, up: bool)
    requires Has(d, r) && Accept(FileAt(d, r)).Some?
    ensures Script(d, now, r, up) == [Drop(r, HeldBack)]
            <==> !Verdict(d.stamps, Accept(FileAt(d, r)).value.key, Accept(FileAt(d, r)).value.hours, now)
  {
    hide Accept;
    hide Verdict;
    var script := Script(d, now, r, up);
    var m := Accept(FileAt(d, r)).value;
    if Verdict(d.stamps, m.key, m.hours, now) {
      assert script == [] || script[0] != Drop(r, HeldBack);
    }
  }

  /** With a clock that does not go back and cooldowns of at most a week, attempts under one key are at
      least the later one's cooldown apart. */
  lemma AttemptsApart(es: seq<Event>, i: nat, j: nat)
    requires Runs(es) && Forward(After(es).past.calls) && AtMostAWeek(After(es).past.calls)
    requires i < j < |After(es).past.calls| && After(es).past.calls[i].key == After(es).past.calls[j].key
    ensures var calls := After(es).past.calls; calls[j].now - calls[i].now >= calls[j].hours * 3600.0
  {
    RunKeepsInv(es);
    AcceptedApart(After(es).past.calls, i, j);
  }

  // ---------- a keyed message and an outage ----------

  lemma AfterSnoc(es: seq<Event>, e: Event)
    requires Runs(es) && Legal(After(es), e)
    ensures Runs(es + [e]) && After(es + [e]) == Next(After(es), e)
  {
    assert (es + [e])[..|es|] == es;
  }

  /** The first turn of a delivery that begins with the retry folder. */
  lemma {:induction false} RetryTurn(es: seq<Event>, second: real, inRetry: seq<nat>, inSpool: seq<nat>, up: bool)
    requires Runs(es) && Legal(After(es), Begin(second, inRetry, inSpool)) && inRetry != []
    requires inRetry[0] in After(es).disk.retry
    requires var m := Accept(After(es).disk.retry[inRetry[0]]);
             m.Some? && m.value.severity != "info" && !Free(m.value.key, m.value.hours)
    ensures var s, r := After(es), Ref(Retry, inRetry[0]);
            var run, m := es + [Begin(second, inRetry, inSpool)] + [Handle(up)], Accept(FileAt(s.disk, r)).value;
            var young, t := !Verdict(s.disk.stamps, m.key, m.hours, second), After(run);
            && Runs(run) && t.disk == s.disk && t.past == s.past && t.proc.Busy? && t.proc.now == second
            && t.proc.todo == (if young then [Drop(r, HeldBack)]
                               else if up then [Stamp(m.key, m.hours), HandOver(inRetry[0], m), Drop(r, Done)]
                               else [Stamp(m.key, m.hours)])
            && (young || up || t.proc.queue == [])
  {
    hide Accept;
    hide Runs;
    hide After;
    AfterSnoc(es, Begin(second, inRetry, inSpool));
    var t := After(es + [Begin(second, inRetry, inSpool)]);
    assert t.proc.queue[0] == Ref(Retry, inRetry[0]);
    AfterSnoc(es + [Begin(second, inRetry, inSpool)], Handle(up));
  }

  /** A delivery carries out what it has to do for the file in hand. */
  lemma {:induction false} Carried(es: seq<Event>, k: nat)
    requires Runs(es) && After(es).proc.Busy? && |After(es).proc.todo| == k
    ensures Runs(es + Dones(k)) && After(es + Dones(k)) == Made(After(es), k)
    decreases k
  {
    hide Runs;
    hide After;
    hide Make;
    if k == 0 {
      assert es + Dones(0) == es;
    } else {
      AfterSnoc(es, Do);
      Carried(es + [Do], k - 1);
      assert es + Dones(k) == es + [Do] + Dones(k - 1);
    }
  }

  function Dones(k: nat): seq<Event> {
    seq(k, _ => Do)
  }

  function Made(s: Machine, k: nat): Machine
    requires s.proc.Busy? && k <= |s.proc.todo|
    decreases k
  {
    if k == 0 then s
    else
      var t := Make(s, s.proc.now, s.proc.todo[0]).(proc := s.proc.(todo := s.proc.todo[1..]));
      Made(t, k - 1)
  }

  /** A remembered stamp of the message's key is younger than its cooldown. */
  ghost predicate Young(s: Machine, m: Message, at: real) {
    exists i :: Blocks(s.past.calls, i, m, at)
  }

  /** Gone without having been handed over, and not stamped. */
  ghost predicate Unsent(s: Machine, t: Machine, name: nat) {
    name !in t.disk.retry && name in t.past.held && t.past.out == s.past.out && t.disk.stamps == s.disk.stamps
  }

  ghost predicate Sent(s: Machine, t: Machine, name: nat, m: Message) {
    name !in t.disk.retry && t.past.out == s.past.out + [Handed(name, m)]
  }

  /** Still there, and the delivery has nothing more to do. */
  ghost predicate Waits(s: Machine, t: Machine, name: nat) {
    name in t.disk.retry && t.past.out == s.past.out && t.proc.Busy? && t.proc.queue == []
  }

  function RetryRun(es: seq<Event>, second: real, inRetry: seq<nat>, inSpool: seq<nat>, up: bool): seq<Event> {
    es + [Begin(second, inRetry, inSpool)] + [Handle(up)]
  }

  /** A delivery at `second`, after any run whatever, and the message that waits first in the retry folder.
      It was stamped before the send that failed. So it is held back, and gone without being handed over, if
      and only if a remembered stamp of its key is younger than its cooldown; otherwise it is stamped anew,
      and handed over and gone, or still waiting if the channel is down, which ends the delivery. */
  lemma {:induction false} RetryIff(es: seq<Event>, second: real, inRetry: seq<nat>, inSpool: seq<nat>, up: bool)
    returns (run: seq<Event>)
    requires Runs(es) && Legal(After(es), Begin(second, inRetry, inSpool)) && inRetry != []
    requires inRetry[0] in After(es).disk.retry
    requires var m := Accept(After(es).disk.retry[inRetry[0]]);
             m.Some? && m.value.severity != "info" && !Free(m.value.key, m.value.hours)
    ensures Runs(run) && RetryRun(es, second, inRetry, inSpool, up) <= run
    ensures forall k :: |es| + 2 <= k < |run| ==> run[k] == Do
    ensures After(run).proc.Busy? && After(run).proc.todo == []
    ensures var s, t, m := After(es), After(run), Accept(After(es).disk.retry[inRetry[0]]).value;
            && (Young(s, m, second) ==> Unsent(s, t, inRetry[0]) && t.past.held[inRetry[0]].at == second)
            && (!Young(s, m, second) ==> m.key in t.disk.stamps && t.disk.stamps[m.key] == second)
            && (!Young(s, m, second) && up ==> Sent(s, t, inRetry[0], m))
            && (!Young(s, m, second) && !up ==> Waits(s, t, inRetry[0]))
  {
    hide Accept;
    hide Runs;
    hide After;
    hide Blocks;
    hide Table;
    RunKeepsInv(es);
    var s, name := After(es), inRetry[0];
    var m := Accept(s.disk.retry[name]).value;
    assert s.disk.stamps == Table(s.past.calls);
    hide Inv;
    YoungStamp(s.past.calls, m, second);
    RetryTurn(es, second, inRetry, inSpool, up);
    run := RetryRun(es, second, inRetry, inSpool, up);
    var t := After(run);
    Carried(run, |t.proc.todo|);
    if Young(s, m, second) {
      HeldBackIsGone(t, name);
    } else if up {
      SentIsGone(t, name, m);
    } else {
      FailedIsKept(t, name, m);
    }
    run := run + Dones(|t.proc.todo|);
  }

  lemma HeldBackIsGone(t: Machine, name: nat)
    requires t.proc.Busy? && t.proc.todo == [Drop(Ref(Retry, name), HeldBack)] && name in t.disk.retry
    ensures var u := Made(t, 1);
            && u.proc == t.proc.(todo := []) && u.disk.incoming == t.disk.incoming && name !in u.disk.retry
            && u.disk.stamps == t.disk.stamps && u.past.out == t.past.out
            && name in u.past.held && u.past.held[name].at == t.proc.now
  {
  }

  lemma SentIsGone(t: Machine, name: nat, m: Message)
    requires t.proc.Busy? && t.proc.todo == [Stamp(m.key, m.hours), HandOver(name, m), Drop(Ref(Retry, name), Done)]
    ensures var u := Made(t, 3);
            && u.proc == t.proc.(todo := []) && u.disk.incoming == t.disk.incoming && name !in u.disk.retry
            && u.past.out == t.past.out + [Handed(name, m)]
            && m.key in u.disk.stamps && u.disk.stamps[m.key] == t.proc.now
  {
    var now := t.proc.now;
    assert t.proc.todo[1..] == [HandOver(name, m), Drop(Ref(Retry, name), Done)];
    assert t.proc.todo[1..][1..] == [Drop(Ref(Retry, name), Done)];
    var a := Make(t, now, t.proc.todo[0]).(proc := t.proc.(todo := t.proc.todo[1..]));
    var b := Make(a, now, a.proc.todo[0]).(proc := a.proc.(todo := a.proc.todo[1..]));
    var u := Make(b, now, b.proc.todo[0]).(proc := b.proc.(todo := b.proc.todo[1..]));
    assert Made(t, 3) == Made(a, 2);
    assert Made(a, 2) == Made(b, 1);
    assert Made(b, 1) == Made(u, 0) == u;
  }

  lemma FailedIsKept(t: Machine, name: nat, m: Message)
    requires t.proc.Busy? && t.proc.todo == [Stamp(m.key, m.hours)] && name in t.disk.retry
    ensures var u := Made(t, 1);
            && u.proc == t.proc.(todo := []) && u.disk.incoming == t.disk.incoming && name in u.disk.retry
            && u.past.out == t.past.out && m.key in u.disk.stamps && u.disk.stamps[m.key] == t.proc.now
  {
  }

  /** A keyed message that the channel did not take, looked at again later. */
  function OutageRun(name: nat, file: File, first: real, second: real): seq<Event> {
    [Enqueue(name, file), Begin(first, [], [name]), Handle(false), Do, Do, Do, Finish, Begin(second, [name], []),
     Handle(true)]
  }

  /** What the second delivery is about to do. */
  lemma OutageTurn(name: nat, file: File, first: real, second: real)
    requires Accept(file).Some? && Accept(file).value.severity != "info"
    requires !Free(Accept(file).value.key, Accept(file).value.hours)
    ensures Runs(OutageRun(name, file, first, second))
    ensures var t, m := After(OutageRun(name, file, first, second)), Accept(file).value;
            && t.past.out == [] && t.disk.incoming == map[] && name in t.disk.retry
            && t.proc == Busy(second, [],
                              if second - first >= m.hours * 3600.0
                              then [Stamp(m.key, m.hours), HandOver(name, m), Drop(Ref(Retry, name), Done)]
                              else [Drop(Ref(Retry, name), HeldBack)])
  {
    hide Accept;
    FailedOnce(name, file, first);
    var es := [Enqueue(name, file), Begin(first, [], [name]), Handle(false), Do, Do, Do];
    AfterSnoc(es, Finish);
    AfterSnoc(es + [Finish], Begin(second, [name], []));
    AfterSnoc(es + [Finish] + [Begin(second, [name], [])], Handle(true));
    assert es + [Finish] + [Begin(second, [name], [])] + [Handle(true)] == OutageRun(name, file, first, second);
  }

  /** For a message alone, whose stamp is that of its own attempt, the whole run: it reaches the channel if
      its own cooldown has passed, and is lost without a hand-over if not. */
  lemma {:induction false} OutageIff(name: nat, file: File, first: real, second: real) returns (run: seq<Event>)
    requires Accept(file).Some? && Accept(file).value.severity != "info"
    requires !Free(Accept(file).value.key, Accept(file).value.hours)
    ensures Runs(run) && OutageRun(name, file, first, second) <= run
    ensures forall k :: 9 <= k < |run| ==> run[k] == Do
    ensures var t, m := After(run), Accept(file).value;
            && t.proc == Busy(second, [], []) && t.disk.incoming == map[] && name !in t.disk.retry
            && t.past.out == if second - first >= m.hours * 3600.0 then [Handed(name, m)] else []
  {
    hide Accept;
    hide Runs;
    hide After;
    hide Free;
    OutageTurn(name, file, first, second);
    run := OutageRun(name, file, first, second);
    var t := After(run);
    Carried(run, |t.proc.todo|);
    if t.proc.todo == [Drop(Ref(Retry, name), HeldBack)] {
      HeldBackIsGone(t, name);
    } else {
      SentIsGone(t, name, Accept(file).value);
    }
    run := run + Dones(|t.proc.todo|);
  }

  lemma FailedOnce(name: nat, file: File, first: real)
    requires Accept(file).Some? && Accept(file).value.severity != "info"
    requires !Free(Accept(file).value.key, Accept(file).value.hours)
    ensures var es := [Enqueue(name, file), Begin(first, [], [name]), Handle(false), Do, Do, Do];
            && Runs(es)
            && After(es).disk == Disk(map[], map[name := file], map[Accept(file).value.key := first])
            && After(es).proc == Busy(first, [], []) && After(es).past.out == []
  {
    hide Accept;
    hide After;
    hide Runs;
    var m := Accept(file).value;
    var e0, e1, e2 := Enqueue(name, file), Begin(first, [], [name]), Handle(false);
    RunsNone();
    AfterSnoc([], e0);
    assert [] + [e0] == [e0];
    AfterSnoc([e0], e1);
    assert [e0] + [e1] == [e0, e1];
    assert Refs(Retry, []) + Refs(Incoming, [name]) == [Ref(Incoming, name)];
    AfterSnoc([e0, e1], e2);
    assert [e0, e1] + [e2] == [e0, e1, e2];
    var s := After([e0, e1, e2]);
    assert s.proc == Busy(first, [], [Stamp(m.key, m.hours), Keep(name, file), Drop(Ref(Incoming, name), Moved)]);
    AfterSnoc([e0, e1, e2], Do);
    assert [e0, e1, e2] + [Do] == [e0, e1, e2, Do];
    AfterSnoc([e0, e1, e2, Do], Do);
    assert [e0, e1, e2, Do] + [Do] == [e0, e1, e2, Do, Do];
    AfterSnoc([e0, e1, e2, Do, Do], Do);
    assert [e0, e1, e2, Do, Do] + [Do] == [e0, e1, e2, Do, Do, Do];
    var t := After([e0, e1, e2, Do, Do, Do]);
    assert t.disk.stamps == map[m.key := first];
  }

  lemma RunsNone()
    ensures Runs([]) && After([]) == Fresh()
  {
  }

  // ---------- what is read and what is written ----------

  /** A file is a message if and only if it parses, is at most 16384 bytes long and has a known severity; of
      the message, what is over the limits is cut off, and nothing else is changed. */
  lemma AcceptedExactly(file: File)
    ensures Accept(file).Some?
            <==> file.parsed.Some? && file.size <= 16384 && file.parsed.value.severity in {"critical", "warn", "info"}
    ensures Accept(file).Some? ==>
              var m, p := Accept(file).value, file.parsed.value;
              && m.severity == p.severity && m.hours == p.hours
              && m.title <= p.title && |m.title| == Min(|p.title|, 200)
              && m.body <= p.body && |m.body| == Min(|p.body|, 3000)
              && m.key <= p.key && |m.key| == Min(|p.key|, 120)
  {
  }

  ghost predicate AllSpace(s: string) {
    forall i :: 0 <= i < |s| ==> IsSpace(s[i])
  }

  lemma {:induction false} StripLeftIs(s: string)
    ensures |StripLeft(s)| <= |s| && StripLeft(s) == s[|s| - |StripLeft(s)|..]
    ensures AllSpace(s[..|s| - |StripLeft(s)|])
    ensures StripLeft(s) != "" ==> !IsSpace(StripLeft(s)[0])
  {
    if |s| > 0 && IsSpace(s[0]) {
      StripLeftIs(s[1..]);
      var n := |s| - |StripLeft(s)|;
      assert s[..n] == [s[0]] + s[1..][..n - 1];
    }
  }

  lemma {:induction false} StripRightIs(s: string)
    ensures |StripRight(s)| <= |s| && StripRight(s) == s[..|StripRight(s)|]
    ensures AllSpace(s[|StripRight(s)|..])
    ensures StripRight(s) != "" ==> !IsSpace(StripRight(s)[|StripRight(s)| - 1])
  {
    if |s| > 0 && IsSpace(s[|s| - 1]) {
      var front := s[..|s| - 1];
      StripRightIs(front);
      var n := |StripRight(front)|;
      assert s[n..] == front[n..] + [s[|s| - 1]];
    }
  }

  /** What `strip` leaves: the text between the white space around it. */
  lemma StripIs(s: string) returns (a: string, b: string)
    ensures s == a + Strip(s) + b && AllSpace(a) && AllSpace(b)
    ensures var t := Strip(s); t != "" ==> !IsSpace(t[0]) && !IsSpace(t[|t| - 1])
  {
    var t := StripLeft(s);
    StripLeftIs(s);
    StripRightIs(t);
    a, b := s[..|s| - |t|], t[|StripRight(t)|..];
    hide StripLeft;
    hide StripRight;
    hide AllSpace;
    hide IsSpace;
    assert s == a + t && t == StripRight(t) + b;
    assert a + t == a + StripRight(t) + b;
  }

  /** The channel gets what is not info and the digest the rest, each hand-over to one of them. */
  lemma {:induction false} SplitBySeverity(out: seq<Handed>)
    ensures |ToChannel(out)| + |ToDigest(out)| == |out|
    ensures forall i :: 0 <= i < |ToDigest(out)| ==> ToDigest(out)[i].message.severity == "info"
    ensures forall i :: 0 <= i < |ToChannel(out)| ==> ToChannel(out)[i].message.severity != "info"
    ensures forall i :: 0 <= i < |out| ==>
              out[i] in if out[i].message.severity == "info" then ToDigest(out) else ToChannel(out)
  {
    if |out| > 0 {
      SplitBySeverity(out[..|out| - 1]);
      HandedLast(out);
    }
    hide ToChannel;
    hide ToDigest;
    forall i | 0 <= i < |out|
      ensures out[i] in if out[i].message.severity == "info" then ToDigest(out) else ToChannel(out)
    {
      SplitAt(out, i);
    }
  }

  lemma {:induction false} SplitAt(out: seq<Handed>, i: nat)
    requires i < |out|
    ensures out[i] in if out[i].message.severity == "info" then ToDigest(out) else ToChannel(out)
  {
    HandedLast(out);
    hide ToChannel;
    hide ToDigest;
    if i < |out| - 1 { SplitAt(out[..|out| - 1], i); }
  }

  lemma HandedLast(out: seq<Handed>)
    requires |out| > 0
    ensures var front, last := out[..|out| - 1], out[|out| - 1];
            if last.message.severity == "info"
            then ToChannel(out) == ToChannel(front) && ToDigest(out) == ToDigest(front) + [last]
            else ToChannel(out) == ToChannel(front) + [last] && ToDigest(out) == ToDigest(front)
  {
  }

  function Hex(n: nat): (c: char)
    requires n < 16
    ensures 32 <= c as int < 127
  {
    (if n < 10 then '0' as int + n else 'a' as int + (n - 10)) as char
  }

  /** An escape with four hexadecimal digits. */
  function Unit(n: nat): (r: string)
    requires n < 0x10000
    ensures |r| == 6 && forall i :: 0 <= i < |r| ==> 32 <= r[i] as int < 127
  {
    ['\\', 'u', Hex(n / 4096), Hex(n / 256 % 16), Hex(n / 16 % 16), Hex(n % 16)]
  }

  /** A character in a JSON string of ASCII characters only: section 7 of RFC 8259. */
  function Escaped(c: char): string {
    var n := c as int;
    if c == '"' then "\\\""
    else if c == '\\' then "\\\\"
    else if n == 8 then "\\b"
    else if n == 9 then "\\t"
    else if n == 10 then "\\n"
    else if n == 12 then "\\f"
    else if n == 13 then "\\r"
    else if 32 <= n && n < 127 then [c]
    else if n < 0x10000 then Unit(n)
    else Unit(0xD800 + (n - 0x10000) / 0x400) + Unit(0xDC00 + (n - 0x10000) % 0x400)
  }

  function EscapedAll(s: string): string {
    if |s| == 0 then "" else EscapedAll(s[..|s| - 1]) + Escaped(s[|s| - 1])
  }

  /** The lengths that are reckoned with are those of the text as it is written, all of it ASCII. */
  lemma {:induction false} LengthAsWritten(s: string)
    ensures |EscapedAll(s)| == JsonLen(s)
    ensures forall i :: 0 <= i < |EscapedAll(s)| ==> 32 <= EscapedAll(s)[i] as int < 127
  {
    if |s| > 0 {
      LengthAsWritten(s[..|s| - 1]);
      OneAsWritten(s[|s| - 1]);
      hide Escaped;
      hide CharLen;
    }
  }

  lemma OneAsWritten(c: char)
    ensures |Escaped(c)| == CharLen(c)
    ensures forall i :: 0 <= i < |Escaped(c)| ==> 32 <= Escaped(c)[i] as int < 127
  {
    hide Unit;
  }

  // ---------- the size limit ----------

  lemma {:induction false} JsonLenBounds(s: string, low: nat, high: nat)
    requires forall i :: 0 <= i < |s| ==> low <= CharLen(s[i]) <= high
    ensures low * |s| <= JsonLen(s) <= high * |s|
  {
    hide CharLen;
    if |s| > 0 {
      var n := |s| - 1;
      JsonLenBounds(s[..n], low, high);
      OneMore(low, n);
      OneMore(high, n);
    }
  }

  lemma OneMore(a: nat, n: nat)
    ensures a * (n + 1) == a * n + a
  {
  }

  /** What `enqueue` writes, `deliver` takes as it is, if and only if the file is within the limit. */
  lemma EnqueuedIsAcceptedIff(severity: string, title: string, body: string, key: string, hours: real, frame: nat)
    requires Compose(severity, title, body, key, hours).Some?
    ensures var m := Compose(severity, title, body, key, hours).value;
            Accept(File(Encoded(m, frame), Some(m))) == if Encoded(m, frame) <= MAX_FILE_BYTES then Some(m) else None
  {
    hide Strip;
    hide Encoded;
  }

  predicate Plain(s: string) {
    forall i :: 0 <= i < |s| ==> CharLen(s[i]) <= 2
  }

  lemma SomeLen(s: string)
    ensures forall i :: 0 <= i < |s| ==> CharLen(s[i]) <= 12
  {
  }

  /** The lengths `enqueue` allows keep a plain message within the limit. */
  lemma PlainMessageFits(severity: string, title: string, body: string, key: string, hours: real, frame: nat)
    requires Compose(severity, title, body, key, hours).Some? && frame <= 1000
    requires var m := Compose(severity, title, body, key, hours).value; Plain(m.title) && Plain(m.body) && Plain(m.key)
    ensures Encoded(Compose(severity, title, body, key, hours).value, frame) <= MAX_FILE_BYTES
  {
    hide CharLen;
    var m := Compose(severity, title, body, key, hours).value;
    JsonLenBounds(m.title, 0, 2);
    JsonLenBounds(m.body, 0, 2);
    JsonLenBounds(m.key, 0, 2);
    SomeLen(m.severity);
    JsonLenBounds(m.severity, 0, 12);
  }

  /** They do not keep every message within it: a full body outside ASCII is queued, and thrown away. */
  lemma LongForeignBodyIsRefused(severity: string, title: string, body: string, key: string, hours: real, frame: nat)
    requires Compose(severity, title, body, key, hours).Some?
    requires var m := Compose(severity, title, body, key, hours).value;
             |m.body| == MAX_BODY && forall i :: 0 <= i < |m.body| ==> m.body[i] as int > 126
    ensures var m := Compose(severity, title, body, key, hours).value;
            Accept(File(Encoded(m, frame), Some(m))) == None
  {
    hide Strip;
    var m := Compose(severity, title, body, key, hours).value;
    JsonLenBounds(m.body, 6, 12);
  }
}
