/**
 Histories of the bridge over append-only sources: whatever is cut or lost, the inbox only ever holds
 beginnings of the sources, and once the sources rest, a few clean runs complete it.
 */
module BridgeHistory {
  import opened Common
  import opened BridgePaths
  import opened BridgeWire
  import opened BridgePlan
  import opened BridgeRuns
  import opened BridgeHeaders

  datatype SourceFile = SourceFile(data: Bytes, mtime: int, ino: nat)

  type Disk = map<string, SourceFile>

  datatype World = World(src: Disk, inbox: Inbox, state: ClientState)

  function Contents(src: Disk): Sources {
    map r | r in src :: src[r].data
  }

  /** One run of `bridge-push`. The sources may grow while it runs; some files may not open; the server
      gets `cut` bytes of the request and the client hears `heard` answers, or nothing is kept at all. */
  datatype Push = Push(files: seq<LocalFile>, budget: nat, sendSrc: Disk, closed: set<string>,
                       cut: nat, heard: nat, failed: bool, doneSrc: Disk)

  datatype Event = Append(src: Disk) | Run(push: Push)

  ghost predicate Grows(a: Disk, b: Disk) {
    forall r :: r in a ==> r in b && a[r].data <= b[r].data
  }

  /** What `scan` may yield on these sources. */
  ghost predicate ScanOf(files: seq<LocalFile>, src: Disk) {
    && Scanned(files)
    && (forall f :: f in files ==> f.rel in src && f.size == |src[f.rel].data|
                                   && f.mtime == src[f.rel].mtime && f.ino == src[f.rel].ino)
  }

  function Items(w: World, e: Push): seq<Item> {
    Frames(PlanOf(e.files, w.state, Contents(w.src), e.budget), Contents(e.sendSrc - e.closed))
  }

  function Sent(w: World, e: Push): Plan {
    SentOf(PlanOf(e.files, w.state, Contents(w.src), e.budget), Contents(e.sendSrc - e.closed))
  }

  function Request(c: Codec, w: World, e: Push): Bytes {
    var s := Stream(c, Items(w, e));
    s[..Min(e.cut, |s|)]
  }

  function Heard(c: Codec, w: World, e: Push): seq<Answer> {
    var r := Receive(c, Request(c, w, e), w.inbox);
    if r.None? then [] else r.value.answers[..Min(e.heard, |r.value.answers|)]
  }

  function InboxAfter(c: Codec, w: World, e: Push): Inbox {
    var r := Receive(c, Request(c, w, e), w.inbox);
    if r.None? then w.inbox else r.value.inbox
  }

  function Step(c: Codec, w: World, e: Event): World {
    match e
    case Append(src) => w.(src := src)
    case Run(p) =>
      World(p.doneSrc, InboxAfter(c, w, p),
            if p.failed then w.state else Update(w.state, Sent(w, p), Statuses(Heard(c, w, p)), Contents(p.doneSrc)))
  }

  ghost predicate Legal(c: Codec, w: World, e: Event) {
    match e
    case Append(src) => Grows(w.src, src)
    case Run(p) =>
      && ScanOf(p.files, w.src) && p.budget <= MAX_RUN_SERVER
      && NoneExact(c, Items(w, p))    // no header line is exactly as long as the limit
      && Grows(w.src, p.sendSrc) && Grows(p.sendSrc, p.doneSrc)
  }

  function After(c: Codec, w: World, es: seq<Event>): World {
    if |es| == 0 then w else Step(c, After(c, w, es[..|es| - 1]), es[|es| - 1])
  }

  ghost predicate LegalHistory(c: Codec, w: World, es: seq<Event>) {
    forall k :: 0 <= k < |es| ==> Legal(c, After(c, w, es[..k]), es[k])
  }

  // ---------- the invariant ----------

  ghost predicate Prefixes(inbox: Inbox, src: Sources) {
    forall r :: r in inbox ==> r in src && inbox[r] <= src[r]
  }

  ghost predicate SizesHeld(state: ClientState, inbox: Inbox) {
    forall r :: r in state ==> r in inbox && state[r].size <= |inbox[r]|
  }

  ghost predicate Inv(w: World) {
    Prefixes(w.inbox, Contents(w.src)) && SizesHeld(w.state, w.inbox)
  }

  // ---------- what storing does to an inbox of prefixes ----------

  ghost predicate CutFrom(it: Item, src: Sources) {
    && it.rel in src && it.offset + |it.payload| <= |src[it.rel]|
    && it.payload == src[it.rel][it.offset..it.offset + |it.payload|]
  }

  lemma StoreKeepsPrefixes(inbox: Inbox, it: Item, p: nat, src: Sources)
    requires Prefixes(inbox, src) && CutFrom(it, src) && p <= |it.payload|
    ensures Prefixes(Store(inbox, it.rel, it.offset, |it.payload|, it.payload[..p]).0, src)
  {
    var s := src[it.rel];
    if it.offset == 0 && p == |it.payload| {
      assert it.payload[..p] == s[..p];
    } else if it.rel in inbox && |inbox[it.rel]| == it.offset {
      assert inbox[it.rel] == s[..it.offset];
      assert inbox[it.rel] + it.payload[..p] == s[..it.offset + p];
    }
  }

  lemma {:induction false} DeliverKeepsPrefixes(inbox: Inbox, items: seq<Item>, src: Sources)
    requires Prefixes(inbox, src) && forall i :: 0 <= i < |items| ==> CutFrom(items[i], src)
    ensures Prefixes(Deliver(inbox, items).0, src)
    decreases |items|
  {
    if |items| > 0 {
      var it := items[0];
      StoreKeepsPrefixes(inbox, it, |it.payload|, src);
      assert it.payload[..|it.payload|] == it.payload;
      forall i | 0 <= i < |items[1..]| ensures CutFrom(items[1..][i], src) { assert items[1..][i] == items[i + 1]; }
      DeliverKeepsPrefixes(Store(inbox, it.rel, it.offset, |it.payload|, it.payload).0, items[1..], src);
    }
  }

  ghost predicate DistinctItems(items: seq<Item>) {
    forall i, j :: 0 <= i < j < |items| ==> items[i].rel != items[j].rel
  }

  /** Whole files are never shorter than what they replace. */
  ghost predicate Covers(items: seq<Item>, inbox: Inbox) {
    forall i :: 0 <= i < |items| && items[i].offset == 0 && items[i].rel in inbox ==>
      |inbox[items[i].rel]| <= |items[i].payload|
  }

  ghost predicate NoShorter(a: Inbox, b: Inbox) {
    forall r :: r in a ==> r in b && |a[r]| <= |b[r]|
  }

  /** Every `ok` answer is backed by the inbox. */
  ghost predicate Backed(items: seq<Item>, answers: seq<Answer>, inbox: Inbox) {
    forall a, i :: 0 <= a < |answers| && 0 <= i < |items| && answers[a] == Answer(Some(items[i].rel), Stored) ==>
      items[i].rel in inbox && |inbox[items[i].rel]| >= items[i].offset + |items[i].payload|
  }

  lemma {:induction false} DeliverBacks(inbox: Inbox, items: seq<Item>)
    requires DistinctItems(items) && Covers(items, inbox)
    ensures var (final, answers) := Deliver(inbox, items);
            && NoShorter(inbox, final) && Backed(items, answers, final)
            && |answers| == |items|
            && (forall a :: 0 <= a < |items| ==> answers[a].path == Some(items[a].rel))
    decreases |items|
  {
    if |items| > 0 {
      var it, rest := items[0], items[1..];
      var (stored, status) := Store(inbox, it.rel, it.offset, |it.payload|, it.payload);
      forall i | 0 <= i < |rest| ensures rest[i] == items[i + 1] && rest[i].rel != it.rel {}
      assert Covers(rest, stored);
      DeliverBacks(stored, rest);
      var (final, answers) := Deliver(stored, rest);
      assert NoShorter(stored, final);
      BackedMore(items, status, answers, stored, final);
    }
  }

  lemma {:induction false} DeliverElsewhere(inbox: Inbox, items: seq<Item>, r: string)
    requires forall i :: 0 <= i < |items| ==> items[i].rel != r
    ensures SameAt(inbox, Deliver(inbox, items).0, r)
    decreases |items|
  {
    if |items| > 0 {
      var it := items[0];
      var stored := Store(inbox, it.rel, it.offset, |it.payload|, it.payload).0;
      DeliverElsewhere(stored, items[1..], r);
      assert SameAt(inbox, stored, r);
    }
  }

  ghost predicate SameAt(a: Inbox, b: Inbox, r: string) {
    (r in a <==> r in b) && (r in a ==> a[r] == b[r])
  }

  lemma BackedMore(items: seq<Item>, status: Status, answers: seq<Answer>, stored: Inbox, final: Inbox)
    requires |items| > 0 && DistinctItems(items) && Backed(items[1..], answers, final) && NoShorter(stored, final)
    requires |answers| == |items[1..]| && forall a :: 0 <= a < |answers| ==> answers[a].path == Some(items[1..][a].rel)
    requires status == Stored ==>
               items[0].rel in stored && |stored[items[0].rel]| >= items[0].offset + |items[0].payload|
    ensures Backed(items, [Answer(Some(items[0].rel), status)] + answers, final)
  {
    var all := [Answer(Some(items[0].rel), status)] + answers;
    forall a, i | 0 <= a < |all| && 0 <= i < |items| && all[a] == Answer(Some(items[i].rel), Stored)
      ensures items[i].rel in final && |final[items[i].rel]| >= items[i].offset + |items[i].payload|
    {
      if a == 0 {
        assert i == 0;
      } else {
        assert all[a] == answers[a - 1] && answers[a - 1].path == Some(items[1..][a - 1].rel);
        assert items[1..][a - 1] == items[a];
        assert i == a && items[1..][i - 1] == items[i];
      }
    }
  }

  // ---------- a cut request keeps the invariant ----------

  lemma PartKeepsPrefixes(inbox: Inbox, items: seq<Item>, final: Inbox, answers: seq<Answer>, src: Sources)
    requires PartlyDone(inbox, items, final, answers)
    requires Prefixes(inbox, src) && forall i :: 0 <= i < |items| ==> CutFrom(items[i], src)
    ensures Prefixes(final, src)
  {
    var j, p: nat :| 0 <= j <= |items| && PartlyDoneBy(inbox, items, final, answers, j, p);
    DeliverKeepsPrefixes(inbox, items[..j], src);
    if j < |items| && p < |items[j].payload| {
      assert CutFrom(items[j], src);
      StoreKeepsPrefixes(Deliver(inbox, items[..j]).0, items[j], p, src);
    }
  }

  lemma PartBacks(inbox: Inbox, items: seq<Item>, final: Inbox, answers: seq<Answer>)
    requires PartlyDone(inbox, items, final, answers) && DistinctItems(items) && Covers(items, inbox)
    ensures NoShorter(inbox, final) && Backed(items, answers, final)
  {
    var j, p: nat :| 0 <= j <= |items| && PartlyDoneBy(inbox, items, final, answers, j, p);
    var front := items[..j];
    DeliverBacks(inbox, front);
    var (kept, some) := Deliver(inbox, front);
    BackedByFront(items, j, some, kept);
    if final == kept && answers == some {
    } else if final == kept && answers == some + [REFUSED] {
      BackedPlus(items, some, REFUSED, kept, final);
    } else {
      var it := items[j];
      assert NoShorter(kept, final);
      BackedPlus(items, some, Answer(Some(it.rel), if it.offset == 0 then Rejected else Resync), kept, final);
    }
  }

  lemma BackedByFront(items: seq<Item>, j: nat, answers: seq<Answer>, inbox: Inbox)
    requires j <= |items| && DistinctItems(items) && Backed(items[..j], answers, inbox) && |answers| == j
    requires forall a :: 0 <= a < j ==> answers[a].path == Some(items[..j][a].rel)
    ensures Backed(items, answers, inbox)
  {
    forall a, i | 0 <= a < |answers| && 0 <= i < |items| && answers[a] == Answer(Some(items[i].rel), Stored)
      ensures items[i].rel in inbox && |inbox[items[i].rel]| >= items[i].offset + |items[i].payload|
    {
      assert items[..j][a] == items[a];
      assert i == a && items[..j][i] == items[i];
    }
  }

  lemma BackedPlus(items: seq<Item>, answers: seq<Answer>, more: Answer, kept: Inbox, final: Inbox)
    requires Backed(items, answers, kept) && NoShorter(kept, final) && more.status != Stored
    ensures Backed(items, answers + [more], final)
  {
    forall a, i | 0 <= a < |answers + [more]| && 0 <= i < |items|
        && (answers + [more])[a] == Answer(Some(items[i].rel), Stored)
      ensures items[i].rel in final && |final[items[i].rel]| >= items[i].offset + |items[i].payload|
    {
      assert a < |answers| && answers[a] == Answer(Some(items[i].rel), Stored);
    }
  }

  // ---------- what the client remembers ----------

  lemma {:induction false} StatusesFrom(answers: seq<Answer>, r: string)
    requires r in Statuses(answers)
    ensures exists a :: 0 <= a < |answers| && answers[a] == Answer(Some(r), Statuses(answers)[r])
  {
    var last := answers[|answers| - 1];
    if last.path != Some(r) {
      StatusesFrom(answers[..|answers| - 1], r);
      var a :| 0 <= a < |answers| - 1 && answers[..|answers| - 1][a] == Answer(Some(r), Statuses(answers)[r]);
      assert answers[a] == Answer(Some(r), Statuses(answers)[r]);
    }
  }

  lemma {:induction false} UpdateKeepsSizes(state: ClientState, sent: Plan, statuses: map<string, Status>,
                                            src: Sources, inbox: Inbox)
    requires SizesHeld(state, inbox)
    requires forall i :: 0 <= i < |sent| && StatusFor(statuses, sent[i].0.rel) == Some(Stored) ==>
               sent[i].0.rel in inbox && sent[i].0.size <= |inbox[sent[i].0.rel]|
    ensures SizesHeld(Update(state, sent, statuses, src), inbox)
    decreases |sent|
  {
    if |sent| > 0 {
      var f := sent[0].0;
      forall i | 0 <= i < |sent[1..]| ensures sent[1..][i] == sent[i + 1] {}
      UpdateKeepsSizes(Settle(state, f, StatusFor(statuses, f.rel), src), sent[1..], statuses, src, inbox);
    }
  }

  lemma PrefixesGrow(inbox: Inbox, a: Disk, b: Disk)
    requires Prefixes(inbox, Contents(a)) && Grows(a, b)
    ensures Prefixes(inbox, Contents(b))
  {
  }

  /** The items of a run are cut from the sources as they are while it runs, and cover the inbox. */
  lemma ItemsAreCut(c: Codec, w: World, e: Push)
    requires Inv(w) && Legal(c, w, Run(e))
    ensures var items, sent := Items(w, e), Sent(w, e);
            && Within(items, 0, 0) && DistinctItems(items) && Covers(items, w.inbox)
            && |items| == |sent|
            && (forall i :: 0 <= i < |items| ==>
                  && CutFrom(items[i], Contents(e.sendSrc))
                  && items[i].rel == sent[i].0.rel && items[i].offset + |items[i].payload| == sent[i].0.size)
  {
    hide PlanOf;
    hide Frames;
    hide SentOf;
    hide Fits;
    hide ToSend;
    var plan := PlanOf(e.files, w.state, Contents(w.src), e.budget);
    var open := Contents(e.sendSrc - e.closed);
    PlanIs(e.files, w.state, Contents(w.src), e.budget);
    PlanMeetsLimits(c, e.files, w.state, Contents(w.src), e.budget, open);
    FramesOf(plan, open);
    hide Within;
    var items, sent := Items(w, e), Sent(w, e);
    forall i | 0 <= i < |items|
      ensures CutFrom(items[i], Contents(e.sendSrc))
      ensures items[i].rel == sent[i].0.rel && items[i].offset + |items[i].payload| == sent[i].0.size
      ensures items[i].offset == 0 && items[i].rel in w.inbox ==> |w.inbox[items[i].rel]| <= |items[i].payload|
    {
      assert sent[i] in plan;
      ItemIsCut(w, e, items[i], sent[i].0, sent[i].1);
    }
  }

  lemma ItemIsCut(w: World, e: Push, it: Item, f: LocalFile, off: nat)
    requires Inv(w) && f.rel in w.src && f.size == |w.src[f.rel].data|
    requires var open := Contents(e.sendSrc - e.closed);
             && off <= f.size && f.rel in open && f.size <= |open[f.rel]|
             && it == Item(f.rel, off, open[f.rel][off..f.size])
    ensures CutFrom(it, Contents(e.sendSrc))
    ensures it.rel == f.rel && it.offset + |it.payload| == f.size
    ensures it.offset == 0 && it.rel in w.inbox ==> |w.inbox[it.rel]| <= |it.payload|
  {
  }

  lemma InboxAfterIs(c: Codec, w: World, e: Push)
    requires JsonLike(c) && Inv(w) && Legal(c, w, Run(e))
    ensures var r := Receive(c, Request(c, w, e), w.inbox);
            && Prefixes(InboxAfter(c, w, e), Contents(e.sendSrc)) && NoShorter(w.inbox, InboxAfter(c, w, e))
            && (r.Some? ==> Backed(Items(w, e), r.value.answers, r.value.inbox))
  {
    hide Receive;
    hide Fits;
    hide Items;
    hide PartlyDone;
    hide JsonLike;
    hide Within;
    hide NoneExact;
    hide Scanned;
    var items := Items(w, e);
    ItemsAreCut(c, w, e);
    PrefixesGrow(w.inbox, w.src, e.sendSrc);
    AnyTruncationIsPartial(c, items, Min(e.cut, |Stream(c, items)|), w.inbox);
    var r := Receive(c, Request(c, w, e), w.inbox);
    if r.Some? {
      PartKeepsPrefixes(w.inbox, items, r.value.inbox, r.value.answers, Contents(e.sendSrc));
      PartBacks(w.inbox, items, r.value.inbox, r.value.answers);
    }
  }

  lemma RunKeepsInv(c: Codec, w: World, e: Push)
    requires JsonLike(c) && Inv(w) && Legal(c, w, Run(e))
    ensures Inv(Step(c, w, Run(e)))
  {
    hide Receive;
    hide Items;
    hide InboxAfter;
    hide Heard;
    hide Sent;
    hide Update;
    var final := InboxAfter(c, w, e);
    InboxAfterIs(c, w, e);
    PrefixesGrow(final, e.sendSrc, e.doneSrc);
    assert SizesHeld(w.state, final);
    HeardIsBacked(c, w, e);
    UpdateKeepsSizes(w.state, Sent(w, e), Statuses(Heard(c, w, e)), Contents(e.doneSrc), final);
  }

  lemma HeardIsBacked(c: Codec, w: World, e: Push)
    requires Legal(c, w, Run(e)) && Inv(w)
    requires var r := Receive(c, Request(c, w, e), w.inbox);
             r.Some? ==> Backed(Items(w, e), r.value.answers, r.value.inbox)
    ensures var sent, st, final := Sent(w, e), Statuses(Heard(c, w, e)), InboxAfter(c, w, e);
            forall i :: 0 <= i < |sent| && StatusFor(st, sent[i].0.rel) == Some(Stored) ==>
              sent[i].0.rel in final && sent[i].0.size <= |final[sent[i].0.rel]|
  {
    hide Receive;
    hide Fits;
    hide Items;
    hide Sent;
    ItemsAreCut(c, w, e);
    var items, sent, st, final := Items(w, e), Sent(w, e), Statuses(Heard(c, w, e)), InboxAfter(c, w, e);
    var r := Receive(c, Request(c, w, e), w.inbox);
    forall i | 0 <= i < |sent| && StatusFor(st, sent[i].0.rel) == Some(Stored)
      ensures sent[i].0.rel in final && sent[i].0.size <= |final[sent[i].0.rel]|
    {
      var heard := Heard(c, w, e);
      StatusesFrom(heard, sent[i].0.rel);
      var a :| 0 <= a < |heard| && heard[a] == Answer(Some(sent[i].0.rel), Stored);
      assert r.value.answers[a] == Answer(Some(items[i].rel), Stored);
    }
  }

  /** Append-only sources: after any history of appends and runs, whatever was cut or lost, every file
      in the inbox is the beginning of its source, and the client never believes more than is stored. */
  lemma {:induction false} InboxHoldsPrefixes(c: Codec, w: World, es: seq<Event>)
    requires JsonLike(c) && Inv(w) && LegalHistory(c, w, es)
    ensures var v := After(c, w, es);
            && (forall r :: r in v.inbox ==> r in v.src && v.inbox[r] <= v.src[r].data)
            && (forall r :: r in v.state ==> r in v.inbox && v.state[r].size <= |v.inbox[r]|)
            && Inv(v)
  {
    if |es| > 0 {
      var front, e := es[..|es| - 1], es[|es| - 1];
      forall k | 0 <= k < |front| ensures Legal(c, After(c, w, front[..k]), front[k]) {
        assert front[..k] == es[..k];
      }
      InboxHoldsPrefixes(c, w, front);
      var u := After(c, w, front);
      assert Legal(c, u, e);
      match e
      case Append(src) => PrefixesGrow(u.inbox, u.src, src);
      case Run(p) => RunKeepsInv(c, u, p);
    }
  }

  // ---------- why a header may not be exactly as long as the limit ----------

  /** One new session file, and a run in which nothing is lost. */
  function FirstPush(r: string, data: Bytes, mtime: int, ino: nat, budget: nat): (World, Push) {
    var src: Disk := map[r := SourceFile(data, mtime, ino)];
    (World(src, map[], map[]),
     Push([LocalFile(r, |data|, mtime, ino)], budget, src, {}, |data| + HELLO_LIMIT + 2 * HEADER_LIMIT + 3, 2, false,
          src))
  }

  lemma FirstItems(r: string, data: Bytes, mtime: int, ino: nat, budget: nat)
    ensures var (w, e) := FirstPush(r, data, mtime, ino, budget);
            Items(w, e) == [Item(r, 0, data)] && Sent(w, e) == [(e.files[0], 0)]
  {
    var (w, e) := FirstPush(r, data, mtime, ino, budget);
    var f := e.files[0];
    PlanOfOne(f, w.state, Contents(w.src), budget);
    var open := Contents(e.sendSrc - e.closed);
    assert open == map[r := data];
    var p := [(f, 0)];
    assert p[1..] == [];
    assert Frames(p[1..], open) == [] && SentOf(p[1..], open) == [];
    assert data[0..|data|] == data;
  }

  /** The bytes of that run, cut nowhere. */
  lemma FirstServed(c: Codec, r: string, data: Bytes, mtime: int, ino: nat, budget: nat)
    requires JsonLike(c) && HeaderLen(c, Item(r, 0, data)) == HEADER_LIMIT
    requires SafeRel(r) == Some(r) && 0 < |data| <= MAX_FILE && data[|data| - 1] == NL
    ensures var (w, e) := FirstPush(r, data, mtime, ino, budget);
            Receive(c, Request(c, w, e), w.inbox)
            == Some(Served(map[r := Shifted(data)], [Answer(Some(r), Stored), REFUSED], |data|, c.enc(END) + [NL]))
  {
    hide Receive;
    hide Serve;
    hide SafeRel;
    var (w, e) := FirstPush(r, data, mtime, ino, budget);
    var it := Item(r, 0, data);
    FirstItems(r, data, mtime, ino, budget);
    FirstBody(c, it);
    StreamIs(c, [it]);
    var s, body := Stream(c, [it]), Body(c, [it]);
    hide Stream;
    hide Body;
    assert Request(c, w, e) == s;
    HelloRead(c, body, |s|, map[]);
  }

  lemma FirstBody(c: Codec, it: Item)
    requires JsonLike(c) && HeaderLen(c, it) == HEADER_LIMIT && SafeRel(it.rel) == Some(it.rel) && it.offset == 0
    requires 0 < |it.payload| <= MAX_FILE && it.payload[|it.payload| - 1] == NL
    ensures |Body(c, [it])| == HEADER_LIMIT + 1 + |it.payload| + |c.enc(END)| + 1
    ensures Serve(c, Body(c, [it]), map[], [], 0)
            == Served(map[it.rel := Shifted(it.payload)], [Answer(Some(it.rel), Stored), REFUSED], |it.payload|,
                      c.enc(END) + [NL])
  {
    hide Serve;
    hide SafeRel;
    assert [it][1..] == [];
    assert Body(c, []) == c.enc(END) + [NL] && TotalLength([it]) == |it.payload|;
    assert Body(c, [it]) == c.enc(HeadOf(it)) + [NL] + it.payload + (c.enc(END) + [NL]);
    ExactHeaderShifts(c, it, c.enc(END) + [NL], map[], [], 0);
    assert it.payload[|it.payload| - 1..] == [NL];
    var a := Answer(Some(it.rel), Stored);
    assert [] + [a] == [a] && [a] + [REFUSED] == [a, REFUSED];
    EmptyLine(c, c.enc(END) + [NL], map[it.rel := Shifted(it.payload)], [a], |it.payload|);
  }

  /** An empty line is no header. */
  lemma EmptyLine(c: Codec, more: Bytes, inbox: Inbox, answers: seq<Answer>, total: nat)
    requires JsonLike(c)
    ensures Serve(c, [NL] + more, inbox, answers, total) == Served(inbox, answers + [REFUSED], total, more)
  {
    var s := [NL] + more;
    assert LineLen(s, HEADER_LIMIT) == 1 && s[..1] == [NL] && s[1..] == more;
    assert Chomp([NL]) == [];
    assert c.enc(END)[..0] == [] && c.dec([]) == None;
  }

  /** A run in which nothing is lost, with one header of exactly the limit, leaves a copy in the inbox
      that is not the beginning of its source, and a client that takes it for complete. */
  lemma ExactHeaderBreaksThePrefix(c: Codec, r: string, data: Bytes, mtime: int, ino: nat, budget: nat)
    requires JsonLike(c) && HeaderLen(c, Item(r, 0, data)) == HEADER_LIMIT
    requires SafeRel(r) == Some(r) && 0 < |data| <= MAX_FILE && data[0] != NL && data[|data| - 1] == NL
    ensures var (w, e) := FirstPush(r, data, mtime, ino, budget);
            var v := Step(c, w, Run(e));
            && Inv(w) && ScanOf(e.files, w.src)
            && v.src[r].data == data && v.inbox == map[r := Shifted(data)] && !(v.inbox[r] <= data)
            && r in v.state && v.state[r].size == |data| && UpToDate(e.files[0], v.state)
  {
    hide Receive;
    hide SafeRel;
    hide Request;
    hide Items;
    hide Sent;
    var (w, e) := FirstPush(r, data, mtime, ino, budget);
    FirstServed(c, r, data, mtime, ino, budget);
    FirstItems(r, data, mtime, ino, budget);
    FirstUpdate(e.files[0], r, Contents(e.doneSrc));
    ShiftedIffNewlines(data, data);
    var heard := [Answer(Some(r), Stored), REFUSED];
    assert heard[..2] == heard;
    assert Heard(c, w, e) == heard;
    assert Contents(w.src)[r] == data;
  }

  lemma FirstUpdate(f: LocalFile, r: string, src: Sources)
    requires f.rel == r
    ensures Update(map[], [(f, 0)], Statuses([Answer(Some(r), Stored), REFUSED]), src) == map[r := NewEntry(f, src)]
  {
    var heard := [Answer(Some(r), Stored), REFUSED];
    assert heard[..1] == [heard[0]] && [heard[0]][..0] == [];
    assert Statuses([heard[0]]) == map[r := Stored];
    assert Statuses(heard) == map[r := Stored];
    var sent: Plan := [(f, 0)];
    var none: Plan := [];
    assert sent[1..] == none;
    var state: ClientState := map[];
    assert Settle(state, f, Some(Stored), src) == map[r := NewEntry(f, src)];
    assert Update(map[r := NewEntry(f, src)], none, Statuses(heard), src) == map[r := NewEntry(f, src)];
  }
}
