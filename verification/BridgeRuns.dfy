/**
 Whole runs of the bridge: the sources change, requests are cut at any byte, answers get lost, and
 the client goes on from whatever it remembers.
 */
module BridgeRuns {
  import opened Common
  import opened BridgePaths
  import opened BridgeWire
  import opened BridgePlan

  // ---------- the client's side of one run ----------

  /** The items `write_stream` sends whole. A file that cannot be opened is skipped; a file that has
      become too short ends the stream. */
  function Frames(p: Plan, src: Sources): seq<Item> {
    if |p| == 0 then []
    else
      var (f, off) := p[0];
      if f.rel !in src || off > f.size then Frames(p[1..], src)
      else if |src[f.rel]| < f.size then []
      else [Item(f.rel, off, src[f.rel][off..f.size])] + Frames(p[1..], src)
  }

  /** The files of those items: what `write_stream` returns. The length of each is size - offset. */
  function SentOf(p: Plan, src: Sources): Plan {
    if |p| == 0 then []
    else
      var (f, off) := p[0];
      if f.rel !in src || off > f.size then SentOf(p[1..], src)
      else if |src[f.rel]| < f.size then []
      else [(f, off)] + SentOf(p[1..], src)
  }

  /** The bytes `write_stream` writes after its hello. A file that shrank is sent as far as it goes, and
      nothing after it, not even the end marker. */
  function Written(c: Codec, p: Plan, src: Sources): Bytes {
    if |p| == 0 then c.enc(END) + [NL]
    else
      var (f, off) := p[0];
      if f.rel !in src || off > f.size then Written(c, p[1..], src)
      else
        var data := src[f.rel];
        c.enc(Head(None, false, Some(f.rel), Some(off), Some(f.size - off))) + [NL]
        + data[Min(off, |data|)..Min(f.size, |data|)]
        + (if |data| < f.size then [] else Written(c, p[1..], src))
  }

  /** `read_answers`: the last status of each path. */
  function Statuses(answers: seq<Answer>): map<string, Status> {
    if |answers| == 0 then map[]
    else
      var a := answers[|answers| - 1];
      var m := Statuses(answers[..|answers| - 1]);
      if a.path.Some? then m[a.path.value := a.status] else m
  }

  function NewEntry(f: LocalFile, src: Sources): Entry {
    Entry(f.size, f.mtime, f.ino, TailHash(src, f.rel, f.size))
  }

  /** One turn of the loop of `update_state`. */
  function Settle(state: ClientState, f: LocalFile, status: Option<Status>, src: Sources): ClientState {
    match status
    case Some(Stored) => state[f.rel := NewEntry(f, src)]
    case Some(Resync) => state - {f.rel}
    case _ => state
  }

  function StatusFor(statuses: map<string, Status>, rel: string): Option<Status> {
    if rel in statuses then Some(statuses[rel]) else None
  }

  /** `update_state`. */
  function Update(state: ClientState, sent: Plan, statuses: map<string, Status>, src: Sources): ClientState
    decreases |sent|
  {
    if |sent| == 0 then state
    else Update(Settle(state, sent[0].0, StatusFor(statuses, sent[0].0.rel), src), sent[1..], statuses, src)
  }

  /** Planned, and has become shorter since. */
  predicate Shrunk(x: (LocalFile, nat), src: Sources) {
    x.0.rel in src && |src[x.0.rel]| < x.0.size
  }

  /** Which planned files are sent whole: those that can be opened, up to the first that shrank. */
  lemma {:induction false} SentExactly(p: Plan, src: Sources, k: nat, x: (LocalFile, nat))
    requires k <= |p| && (forall i :: 0 <= i < k ==> !Shrunk(p[i], src)) && (k < |p| ==> Shrunk(p[k], src))
    requires forall i :: 0 <= i < |p| ==> p[i].1 <= p[i].0.size
    ensures x in SentOf(p, src) <==> x in p[..k] && x.0.rel in src
  {
    if k > 0 {
      SentExactly(p[1..], src, k - 1, x);
      assert p[..k] == [p[0]] + p[1..][..k - 1];
    }
  }

  // ---------- client limits are server limits ----------

  /** What `scan` yields: safe paths, each once, none larger than the limit. */
  ghost predicate Scanned(files: seq<LocalFile>) {
    && DistinctRels(files)
    && (forall f :: f in files ==> SafeRel(f.rel) == Some(f.rel) && f.size <= MAX_FILE)
  }

  /** Item `i` is what is sent of file `i`. */
  ghost predicate Framed(p: Plan, src: Sources, items: seq<Item>, sent: Plan) {
    && |items| == |sent| <= |p|
    && DistinctPlan(sent)
    && (forall i :: 0 <= i < |sent| ==>
          && sent[i] in p
          && sent[i].1 <= sent[i].0.size && sent[i].0.rel in src && sent[i].0.size <= |src[sent[i].0.rel]|
          && items[i] == Item(sent[i].0.rel, sent[i].1, src[sent[i].0.rel][sent[i].1..sent[i].0.size]))
  }

  lemma {:induction false} FramesOf(p: Plan, src: Sources)
    requires DistinctPlan(p)
    ensures Framed(p, src, Frames(p, src), SentOf(p, src))
  {
    hide Framed;
    if |p| > 0 {
      FramesOf(p[1..], src);
      FramedMore(p, src, Frames(p[1..], src), SentOf(p[1..], src));
    } else {
      FramedNone(p, src);
    }
  }

  lemma FramedNone(p: Plan, src: Sources)
    ensures Framed(p, src, [], [])
  {
  }

  lemma FramedMore(p: Plan, src: Sources, items: seq<Item>, sent: Plan)
    requires |p| > 0 && DistinctPlan(p) && Framed(p[1..], src, items, sent)
    ensures DistinctPlan(p[1..]) && Framed(p, src, [], []) && Framed(p, src, items, sent)
    ensures var (f, off) := p[0];
            f.rel in src && off <= f.size <= |src[f.rel]| ==>
              Framed(p, src, [Item(f.rel, off, src[f.rel][off..f.size])] + items, [(f, off)] + sent)
  {
    forall i | 0 <= i < |sent| ensures sent[i] in p && sent[i].0.rel != p[0].0.rel {
      assert sent[i] in p[1..];
      var k :| 0 <= k < |p[1..]| && p[1..][k] == sent[i];
      assert p[k + 1] == sent[i];
    }
    var (f, off) := p[0];
    if f.rel in src && off <= f.size <= |src[f.rel]| {
      FramedCons(p, src, Item(f.rel, off, src[f.rel][off..f.size]), items, (f, off), sent);
    }
  }

  lemma FramedCons(p: Plan, src: Sources, it: Item, items: seq<Item>, x: (LocalFile, nat), sent: Plan)
    requires |p| > 0 && x == p[0] && Framed(p, src, items, sent) && |sent| < |p|
    requires forall i :: 0 <= i < |sent| ==> sent[i].0.rel != x.0.rel
    requires x.0.rel in src && x.1 <= x.0.size <= |src[x.0.rel]|
             && it == Item(x.0.rel, x.1, src[x.0.rel][x.1..x.0.size])
    ensures Framed(p, src, [it] + items, [x] + sent)
  {
    var all, more := [x] + sent, [it] + items;
    forall i | 0 <= i < |all|
      ensures all[i] == (if i == 0 then x else sent[i - 1]) && more[i] == if i == 0 then it else items[i - 1]
    {
    }
  }

  lemma {:induction false} FramesCost(p: Plan, src: Sources)
    requires forall x :: x in p ==> x.1 <= x.0.size
    ensures TotalLength(Frames(p, src)) <= PlanCost(p)
  {
    if |p| > 0 {
      assert p[0] in p;
      FramesCost(p[1..], src);
      var (f, off) := p[0];
      PlanCostNat(p[1..]);
      if f.rel in src && |src[f.rel]| >= f.size {
        var it := Item(f.rel, off, src[f.rel][off..f.size]);
        assert ([it] + Frames(p[1..], src))[1..] == Frames(p[1..], src);
      }
    }
  }

  lemma {:induction false} PlanCostNat(p: Plan)
    requires forall x :: x in p ==> x.1 <= x.0.size
    ensures PlanCost(p) >= 0
  {
    if |p| > 0 {
      assert p[0] in p;
      PlanCostNat(p[1..]);
    }
  }

  // ---------- one request, cut anywhere ----------

  /** The items whose header lines are written: the frames, and the file that turns out to have shrunk, of
      which as much is sent as is left. */
  function Headed(p: Plan, src: Sources): seq<Item> {
    if |p| == 0 then []
    else
      var (f, off) := p[0];
      if f.rel !in src || off > f.size then Headed(p[1..], src)
      else if |src[f.rel]| < f.size then [Padded(f, off, src[f.rel])]
      else [Item(f.rel, off, src[f.rel][off..f.size])] + Headed(p[1..], src)
  }

  function Padded(f: LocalFile, off: nat, data: Bytes): Item
    requires off <= f.size && |data| < f.size
  {
    var got := data[Min(off, |data|)..];
    Item(f.rel, off, got + seq(f.size - off - |got|, _ => 0))
  }

  /** A stream that stops at a file that shrank is what the server would see of a cut one: the frames,
      one more item, and an end before that item is complete. */
  lemma {:induction false} ShrunkStreamIsCut(c: Codec, p: Plan, src: Sources)
    ensures var items, frames := Headed(p, src), Frames(p, src);
            && frames <= items && |items| <= |frames| + 1
            && Written(c, p, src) <= Body(c, items)
            && (items == frames ==> Written(c, p, src) == Body(c, items))
  {
    if |p| > 0 {
      var (f, off) := p[0];
      if f.rel !in src || off > f.size {
        ShrunkStreamIsCut(c, p[1..], src);
      } else {
        var data := src[f.rel];
        if |data| < f.size {
          ShrunkFrame(c, p, src);
        } else {
          ShrunkStreamIsCut(c, p[1..], src);
          WholeFrame(c, p, src);
        }
      }
    }
  }

  lemma {:induction false} ShrunkFrame(c: Codec, p: Plan, src: Sources)
    requires |p| > 0 && p[0].0.rel in src && p[0].1 <= p[0].0.size && |src[p[0].0.rel]| < p[0].0.size
    ensures Frames(p, src) == [] && |Headed(p, src)| == 1 && Written(c, p, src) <= Body(c, Headed(p, src))
  {
    var (f, off) := p[0];
    var data, it := src[f.rel], Padded(f, off, src[f.rel]);
    var head, got := c.enc(HeadOf(it)) + [NL], data[Min(off, |data|)..];
    BodyCons(c, it, []);
    assert [it] + [] == [it];
    assert data[Min(off, |data|)..Min(f.size, |data|)] == got;
    assert Written(c, p, src) == head + got + [];
    assert head + got <= head + it.payload + Body(c, []);
  }

  /** A file that is there in full is the first frame. */
  lemma {:induction false} WholeFrame(c: Codec, p: Plan, src: Sources)
    requires |p| > 0 && p[0].0.rel in src && p[0].1 <= p[0].0.size <= |src[p[0].0.rel]|
    requires var items, frames := Headed(p[1..], src), Frames(p[1..], src);
             && frames <= items && |items| <= |frames| + 1
             && Written(c, p[1..], src) <= Body(c, items)
             && (items == frames ==> Written(c, p[1..], src) == Body(c, items))
    ensures var items, frames := Headed(p, src), Frames(p, src);
            && frames <= items && |items| <= |frames| + 1
            && Written(c, p, src) <= Body(c, items)
            && (items == frames ==> Written(c, p, src) == Body(c, items))
  {
    var (f, off) := p[0];
    var it := Item(f.rel, off, src[f.rel][off..f.size]);
    var items, frames := Headed(p[1..], src), Frames(p[1..], src);
    FirstFrame(c, p, src);
    BodyCons(c, it, items);
    hide *;
    var head := c.enc(HeadOf(it)) + [NL] + it.payload;
    PrefixAfter(head, Written(c, p[1..], src), Body(c, items));
    PrefixAfter([it], frames, items);
    if [it] + items == [it] + frames { assert ([it] + items)[1..] == items && ([it] + frames)[1..] == frames; }
  }

  lemma {:induction false} FirstFrame(c: Codec, p: Plan, src: Sources)
    requires |p| > 0 && p[0].0.rel in src && p[0].1 <= p[0].0.size <= |src[p[0].0.rel]|
    ensures var (f, off) := p[0];
            var it := Item(f.rel, off, src[f.rel][off..f.size]);
            && Frames(p, src) == [it] + Frames(p[1..], src)
            && Headed(p, src) == [it] + Headed(p[1..], src)
            && Written(c, p, src) == c.enc(HeadOf(it)) + [NL] + it.payload + Written(c, p[1..], src)
  {
  }

  lemma PrefixAfter<T>(head: seq<T>, a: seq<T>, b: seq<T>)
    requires a <= b
    ensures head + a <= head + b
  {
  }

  lemma BodyCons(c: Codec, it: Item, rest: seq<Item>)
    ensures Body(c, [it] + rest) == c.enc(HeadOf(it)) + [NL] + it.payload + Body(c, rest)
  {
    assert ([it] + rest)[1..] == rest;
  }

  lemma ReceiveCut(c: Codec, items: seq<Item>, k: nat, inbox: Inbox)
    requires JsonLike(c) && Fits(c, items, 0, 0) && k <= |Stream(c, items)|
    ensures var r := Receive(c, Stream(c, items)[..k], inbox);
            var h := |c.enc(HELLO)|;
            if k < h then r == None
            else r.Some? && CutResult(c, items, Max(0, k - h - 1), inbox, [], r.value)
  {
    hide Serve;
    hide CutResult;
    hide Fits;
    var l, body := c.enc(HELLO), Body(c, items);
    var cut := Stream(c, items)[..k];
    if k == 0 {
      assert Chomp(cut[..0]) == l[..0];
    } else if k <= |l| {
      assert cut == l[..k];
      LineTorn(c, HELLO, k, HELLO_LIMIT);
      ServeCut(c, items, 0, inbox, [], 0);
      assert body[..0] == [];
    } else {
      assert cut == l + [NL] + body[..k - |l| - 1];
      LineRead(c, HELLO, body[..k - |l| - 1], HELLO_LIMIT);
      ServeCut(c, items, k - |l| - 1, inbox, [], 0);
    }
  }

  lemma {:induction false} WholeBody(c: Codec, items: seq<Item>)
    ensures WholeItems(c, items, |Body(c, items)|) == |items|
    ensures Tail(c, items, |Body(c, items)|) == |c.enc(END)| + 1
  {
    if |items| > 0 { WholeBody(c, items[1..]); }
  }

  /** Round trip: the server does exactly what was sent, for any payload bytes, and reads all of it. */
  lemma ReceiveWhole(c: Codec, items: seq<Item>, inbox: Inbox)
    requires JsonLike(c) && Fits(c, items, 0, 0)
    ensures var r := Receive(c, Stream(c, items), inbox);
            && r.Some? && r.value.left == []
            && (r.value.inbox, r.value.answers) == Deliver(inbox, items)
  {
    hide Receive;
    hide Deliver;
    hide Fits;
    hide Body;
    var s := Stream(c, items);
    assert s[..|s|] == s;
    ReceiveCut(c, items, |s|, inbox);
    WholeBody(c, items);
    assert |s| - |c.enc(HELLO)| - 1 == |Body(c, items)|;
    var (kept, some) := Deliver(inbox, items);
    assert items[..|items|] == items && items[|items|..] == [];
    assert [] + some + [] == some;
  }

  /** The state of an inbox after the items of a request that was cut: so many whole ones, and for at
      most one more item an append of a part of its payload. */
  ghost predicate PartlyDone(inbox: Inbox, items: seq<Item>, final: Inbox, answers: seq<Answer>) {
    exists j, p ::
      && 0 <= j <= |items|
      && PartlyDoneBy(inbox, items, final, answers, j, p)
  }

  ghost predicate PartlyDoneBy(inbox: Inbox, items: seq<Item>, final: Inbox, answers: seq<Answer>, j: nat, p: nat)
    requires j <= |items|
  {
    var (kept, some) := Deliver(inbox, items[..j]);
    || (final == kept && (answers == some || answers == some + [REFUSED]))
    || (j < |items| && p < |items[j].payload|
        && var it := items[j];
        && final == Store(kept, it.rel, it.offset, |it.payload|, it.payload[..p]).0
        && answers == some + [Answer(Some(it.rel), if it.offset == 0 then Rejected else Resync)])
  }

  lemma RemainderIs(c: Codec, items: seq<Item>, k: nat, inbox: Inbox)
    requires |items| > 0 ==> var h, l := |c.enc(HeadOf(items[0]))|, |items[0].payload|;
                             k < h || k < h + (if l == 0 then 0 else 1 + l)
    ensures var (last, more) := Remainder(c, items, k, inbox);
            || (last == inbox && (more == [] || more == [REFUSED]))
            || (|items| > 0 && exists p :: 0 <= p < |items[0].payload| && TornStore(items[0], p, inbox, last, more))
  {
    if |items| > 0 && k >= |c.enc(HeadOf(items[0]))| {
      var it := items[0];
      var p := Min(Max(0, k - |c.enc(HeadOf(it))| - 1), |it.payload|);
      var (last, more) := Remainder(c, items, k, inbox);
      assert k > 0 ==> TornStore(it, p, inbox, last, more);
    }
  }

  ghost predicate TornStore(it: Item, p: nat, inbox: Inbox, last: Inbox, more: seq<Answer>)
    requires p <= |it.payload|
  {
    && last == Store(inbox, it.rel, it.offset, |it.payload|, it.payload[..p]).0
    && more == [Answer(Some(it.rel), if it.offset == 0 then Rejected else Resync)]
  }

  lemma {:induction false} TailIsTorn(c: Codec, items: seq<Item>, k: nat)
    ensures var j := WholeItems(c, items, k);
            |items[j..]| > 0 ==>
              var h, l := |c.enc(HeadOf(items[j]))|, |items[j].payload|;
              Tail(c, items, k) < h || Tail(c, items, k) < h + (if l == 0 then 0 else 1 + l)
    decreases |items|
  {
    if |items| > 0 {
      var h, l := |c.enc(HeadOf(items[0]))|, |items[0].payload|;
      if !(k < h || k < h + (if l == 0 then 0 else 1 + l)) {
        TailIsTorn(c, items[1..], if k < h + 1 + l then 0 else k - h - 1 - l);
      }
    }
  }

  lemma CutGivesPartial(c: Codec, items: seq<Item>, b: nat, inbox: Inbox, r: Served)
    requires CutResult(c, items, b, inbox, [], r)
    ensures r.left == [] && PartlyDone(inbox, items, r.inbox, r.answers)
  {
    CutIsPartial(c, items, b, inbox);
    hide PartlyDone;
    hide Remainder;
    hide Deliver;
    hide WholeItems;
    hide Tail;
    var (kept, some) := Deliver(inbox, items[..WholeItems(c, items, b)]);
    assert [] + some == some;
  }

  lemma CutIsPartial(c: Codec, items: seq<Item>, b: nat, inbox: Inbox)
    ensures var j := WholeItems(c, items, b);
            var (kept, some) := Deliver(inbox, items[..j]);
            var (last, more) := Remainder(c, items[j..], Tail(c, items, b), kept);
            PartlyDone(inbox, items, last, some + more)
  {
    var j := WholeItems(c, items, b);
    var (kept, some) := Deliver(inbox, items[..j]);
    TailIsTorn(c, items, b);
    if j < |items| { assert items[j..][0] == items[j]; }
    RemainderIs(c, items[j..], Tail(c, items, b), kept);
    var (last, more) := Remainder(c, items[j..], Tail(c, items, b), kept);
    hide PartlyDone;
    hide Remainder;
    hide Deliver;
    hide WholeItems;
    hide Tail;
    PartialFrom(inbox, items, j, kept, some, more, last);
  }

  lemma PartialFrom(inbox: Inbox, items: seq<Item>, j: nat, kept: Inbox, some: seq<Answer>, more: seq<Answer>,
                    final: Inbox)
    requires j <= |items| && (kept, some) == Deliver(inbox, items[..j])
    requires || (final == kept && (more == [] || more == [REFUSED]))
             || (j < |items| && exists p :: 0 <= p < |items[j].payload| && TornStore(items[j], p, kept, final, more))
    ensures PartlyDone(inbox, items, final, some + more)
  {
    if final == kept && (more == [] || more == [REFUSED]) {
      assert more == [] ==> some + more == some;
      assert PartlyDoneBy(inbox, items, final, some + more, j, 0);
    } else {
      var p :| 0 <= p < |items[j].payload| && TornStore(items[j], p, kept, final, more);
      assert PartlyDoneBy(inbox, items, final, some + more, j, p);
    }
  }
}
