/**
 Header lines of any length. The server reads at most HEADER_LIMIT bytes of one, so that a longer header
 does not decode and ends the run, and of a header of exactly that length the newline is left over and is
 taken for the first byte of the payload.
 */
module BridgeHeaders {
  import opened Common
  import opened BridgePaths
  import opened BridgeWire
  import opened BridgePlan
  import opened BridgeRuns

  function HeaderLen(c: Codec, it: Item): nat {
    |c.enc(HeadOf(it))|
  }

  /** The limits of the server, header lines aside. */
  ghost predicate Within(items: seq<Item>, n: nat, total: nat) {
    && (forall i :: 0 <= i < |items| ==> SafeRel(items[i].rel) == Some(items[i].rel)
                                         && items[i].offset + |items[i].payload| <= MAX_FILE)
    && n + |items| <= MAX_FILES_RUN
    && total + TotalLength(items) <= MAX_RUN_SERVER
  }

  ghost predicate NoneExact(c: Codec, items: seq<Item>) {
    forall i :: 0 <= i < |items| ==> HeaderLen(c, items[i]) != HEADER_LIMIT
  }

  /** How many items come before the first header the server cannot read. */
  function Readable(c: Codec, items: seq<Item>): (n: nat)
    ensures n <= |items|
    ensures forall i :: 0 <= i < n ==> HeaderLen(c, items[i]) < HEADER_LIMIT
    ensures n < |items| ==> HeaderLen(c, items[n]) >= HEADER_LIMIT
  {
    if |items| == 0 || HeaderLen(c, items[0]) >= HEADER_LIMIT then 0 else 1 + Readable(c, items[1..])
  }

  /** The part of the items the server can read. */
  function Reached(c: Codec, items: seq<Item>): seq<Item> {
    items[..Readable(c, items)]
  }

  lemma {:induction false} TotalFront(items: seq<Item>, n: nat)
    requires n <= |items|
    ensures TotalLength(items[..n]) <= TotalLength(items)
  {
    if n > 0 {
      assert items[..n][1..] == items[1..][..n - 1];
      TotalFront(items[1..], n - 1);
    }
  }

  lemma ReachedFits(c: Codec, items: seq<Item>, n: nat, total: nat)
    requires Within(items, n, total)
    ensures Fits(c, Reached(c, items), n, total)
  {
    TotalFront(items, Readable(c, items));
    forall i | 0 <= i < Readable(c, items) ensures ItemFits(c, Reached(c, items)[i]) {
      assert HeaderLen(c, items[i]) < HEADER_LIMIT;
    }
  }

  // ---------- bodies, split ----------

  /** The items without the end marker. */
  function OpenBody(c: Codec, items: seq<Item>): Bytes {
    if |items| == 0 then []
    else c.enc(HeadOf(items[0])) + [NL] + items[0].payload + OpenBody(c, items[1..])
  }

  lemma {:induction false} BodyAppend(c: Codec, a: seq<Item>, b: seq<Item>)
    ensures Body(c, a + b) == OpenBody(c, a) + Body(c, b)
  {
    if |a| == 0 {
      assert a + b == b;
    } else {
      assert (a + b)[0] == a[0] && (a + b)[1..] == a[1..] + b;
      BodyAppend(c, a[1..], b);
      var head := c.enc(HeadOf(a[0])) + [NL] + a[0].payload;
      assert head + (OpenBody(c, a[1..]) + Body(c, b)) == head + OpenBody(c, a[1..]) + Body(c, b);
    }
  }

  lemma OpenBodyHead(c: Codec, items: seq<Item>, s: Bytes)
    requires |items| > 0
    ensures var it := items[0];
            OpenBody(c, items) + s
            == c.enc(HeadOf(it)) + [NL] + (it.payload[..|it.payload|] + (OpenBody(c, items[1..]) + s))
  {
    assert items[0].payload[..|items[0].payload|] == items[0].payload;
  }

  /** Whole items, whatever comes after them. */
  lemma {:induction false} ServeThrough(c: Codec, items: seq<Item>, s: Bytes, inbox: Inbox, answers: seq<Answer>,
                                        total: nat)
    requires JsonLike(c) && Fits(c, items, |answers|, total)
    ensures var (kept, some) := Deliver(inbox, items);
            Serve(c, OpenBody(c, items) + s, inbox, answers, total)
            == Serve(c, s, kept, answers + some, total + TotalLength(items))
    decreases |items|
  {
    hide Serve;
    hide Store;
    hide JsonLike;
    hide Deliver;
    hide Fits;
    hide OpenBody;
    DeliverHead(inbox, items);
    if |items| == 0 {
      OpenBodyNone(c, s);
      assert answers + [] == answers;
    } else {
      var it, rest := items[0], items[1..];
      var (stored, status) := Store(inbox, it.rel, it.offset, |it.payload|, it.payload);
      var a := Answer(Some(it.rel), status);
      ServeFirst(c, items, s, inbox, answers, total);
      FitsHead(c, items, |answers|, total);
      ServeThrough(c, rest, s, stored, answers + [a], total + |it.payload|);
      Regrouped(answers, a, Deliver(stored, rest).1);
    }
  }

  lemma OpenBodyNone(c: Codec, s: Bytes)
    ensures OpenBody(c, []) + s == s
  {
  }

  lemma ServeFirst(c: Codec, items: seq<Item>, s: Bytes, inbox: Inbox, answers: seq<Answer>, total: nat)
    requires JsonLike(c) && |items| > 0 && Fits(c, items, |answers|, total)
    ensures var it := items[0];
            var (stored, status) := Store(inbox, it.rel, it.offset, |it.payload|, it.payload);
            Serve(c, OpenBody(c, items) + s, inbox, answers, total)
            == Serve(c, OpenBody(c, items[1..]) + s, stored, answers + [Answer(Some(it.rel), status)],
                     total + |it.payload|)
  {
    hide *;
    var it := items[0];
    FitsHead(c, items, |answers|, total);
    OpenBodyHead(c, items, s);
    assert it.payload[..|it.payload|] == it.payload;
    ItemTurn(c, OpenBody(c, items) + s, it, |it.payload|, OpenBody(c, items[1..]) + s, inbox, answers, total);
  }

  lemma DeliverHead(inbox: Inbox, items: seq<Item>)
    ensures |items| == 0 ==> Deliver(inbox, items) == (inbox, [])
    ensures |items| > 0 ==>
              var it := items[0];
              var (stored, status) := Store(inbox, it.rel, it.offset, |it.payload|, it.payload);
              var (final, answers) := Deliver(stored, items[1..]);
              Deliver(inbox, items) == (final, [Answer(Some(it.rel), status)] + answers)
  {
    hide Store;
  }

  lemma Regrouped(answers: seq<Answer>, a: Answer, more: seq<Answer>)
    ensures answers + [a] + more == answers + ([a] + more)
  {
  }

  // ---------- a header that is too long ----------

  lemma {:induction false} LineTooLong(s: Bytes, limit: nat)
    requires |s| >= limit && forall i :: 0 <= i < limit ==> s[i] != NL
    ensures LineLen(s, limit) == limit
  {
    if limit > 0 { LineTooLong(s[1..], limit - 1); }
  }

  /** A header over the limit ends the run, however much of the stream is there: what is beyond the
      limit is never read. */
  lemma OversizeStops(c: Codec, h: Head, s: Bytes, inbox: Inbox, answers: seq<Answer>, total: nat)
    requires JsonLike(c) && |c.enc(h)| > HEADER_LIMIT && |s| > 0
    requires s[..Min(|s|, HEADER_LIMIT)] == c.enc(h)[..Min(|s|, HEADER_LIMIT)]
    ensures Serve(c, s, inbox, answers, total)
            == Served(inbox, answers + [REFUSED], total, s[Min(|s|, HEADER_LIMIT)..])
  {
    var n, l := Min(|s|, HEADER_LIMIT), c.enc(h);
    forall i | 0 <= i < n ensures s[i] != NL {
      assert s[..n][i] == l[..n][i];
    }
    if |s| <= HEADER_LIMIT {
      assert s[..n] == s;
      LineCut(s, HEADER_LIMIT);
    } else {
      LineTooLong(s, HEADER_LIMIT);
    }
    ChompWhole(l[..n]);
    assert c.dec(l[..n]) == None;
  }

  // ---------- a stream with any headers ----------

  /** What the server makes of a stream cut at any byte: as far as it can read, what it makes of those
      items alone; from the first header over the limit on, one refusal and nothing more. */
  ghost predicate AnyResult(c: Codec, items: seq<Item>, k: nat, inbox: Inbox, answers: seq<Answer>, total: nat,
                            r: Served) {
    var front := Reached(c, items);
    var o := |OpenBody(c, front)|;
    if |front| == |items| || k <= o then CutResult(c, front, k, inbox, answers, r)
    else
      var (kept, some) := Deliver(inbox, front);
      && k <= |Body(c, items)|
      && r == Served(kept, answers + some + [REFUSED], total + TotalLength(front),
                     Body(c, items)[..k][o + Min(k - o, HEADER_LIMIT)..])
  }

  lemma SameStart(c: Codec, items: seq<Item>, k: nat)
    requires var front := Reached(c, items);
             (|front| == |items| && k <= |Body(c, items)|) || k <= |OpenBody(c, front)|
    ensures var front := Reached(c, items);
            k <= |Body(c, front)| && k <= |Body(c, items)| && Body(c, items)[..k] == Body(c, front)[..k]
  {
    var front := Reached(c, items);
    BodyAppend(c, front, items[|front|..]);
    assert front + items[|front|..] == items;
    BodyAppend(c, front, []);
    assert front + [] == front;
    if |front| == |items| {
      assert front == items;
    }
  }

  lemma ServeAny(c: Codec, items: seq<Item>, k: nat, inbox: Inbox, answers: seq<Answer>, total: nat)
    requires JsonLike(c) && Within(items, |answers|, total) && NoneExact(c, items) && k <= |Body(c, items)|
    ensures AnyResult(c, items, k, inbox, answers, total, Serve(c, Body(c, items)[..k], inbox, answers, total))
  {
    hide Serve;
    hide CutResult;
    hide Within;
    hide Fits;
    hide JsonLike;
    hide NoneExact;
    hide Deliver;
    hide TotalLength;
    hide Body;
    hide OpenBody;
    hide Readable;
    var front := Reached(c, items);
    ReachedFits(c, items, |answers|, total);
    if |front| == |items| || k <= |OpenBody(c, front)| {
      SameStart(c, items, k);
      ServeCut(c, front, k, inbox, answers, total);
    } else {
      ServeStopped(c, items, k, inbox, answers, total);
    }
  }

  lemma ServeStopped(c: Codec, items: seq<Item>, k: nat, inbox: Inbox, answers: seq<Answer>, total: nat)
    requires JsonLike(c) && Fits(c, Reached(c, items), |answers|, total) && NoneExact(c, items)
    requires |Reached(c, items)| < |items| && |OpenBody(c, Reached(c, items))| < k <= |Body(c, items)|
    ensures var front := Reached(c, items);
            var (kept, some) := Deliver(inbox, front);
            var o := |OpenBody(c, front)|;
            Serve(c, Body(c, items)[..k], inbox, answers, total)
            == Served(kept, answers + some + [REFUSED], total + TotalLength(front),
                      Body(c, items)[..k][o + Min(k - o, HEADER_LIMIT)..])
  {
    hide Serve;
    hide Deliver;
    hide Fits;
    hide OpenBody;
    hide Body;
    hide JsonLike;
    hide NoneExact;
    hide Readable;
    hide TotalLength;
    var front := Reached(c, items);
    var s := StoppedBytes(c, items, k);
    ServeUpTo(c, front, HeadOf(items[|front|]), s, inbox, answers, total);
  }

  lemma ServeUpTo(c: Codec, front: seq<Item>, h: Head, s: Bytes, inbox: Inbox, answers: seq<Answer>, total: nat)
    requires JsonLike(c) && Fits(c, front, |answers|, total) && |c.enc(h)| > HEADER_LIMIT && |s| > 0
    requires s[..Min(|s|, HEADER_LIMIT)] == c.enc(h)[..Min(|s|, HEADER_LIMIT)]
    ensures var (kept, some) := Deliver(inbox, front);
            Serve(c, OpenBody(c, front) + s, inbox, answers, total)
            == Served(kept, answers + some + [REFUSED], total + TotalLength(front), s[Min(|s|, HEADER_LIMIT)..])
  {
    hide *;
    ServeThrough(c, front, s, inbox, answers, total);
    var (kept, some) := Deliver(inbox, front);
    OversizeStops(c, h, s, kept, answers + some, total + TotalLength(front));
  }

  /** After the items that are reached, the cut stream goes on with the header that stops it. */
  lemma StoppedBytes(c: Codec, items: seq<Item>, k: nat) returns (s: Bytes)
    requires NoneExact(c, items) && |Reached(c, items)| < |items|
    requires |OpenBody(c, Reached(c, items))| < k <= |Body(c, items)|
    ensures var front := Reached(c, items);
            var o, l := |OpenBody(c, front)|, c.enc(HeadOf(items[|front|]));
            && Body(c, items)[..k] == OpenBody(c, front) + s && |s| == k - o && |l| > HEADER_LIMIT
            && s[..Min(|s|, HEADER_LIMIT)] == l[..Min(|s|, HEADER_LIMIT)]
            && s[Min(|s|, HEADER_LIMIT)..] == Body(c, items)[..k][o + Min(|s|, HEADER_LIMIT)..]
  {
    var n := Readable(c, items);
    var front, rest := items[..n], items[n..];
    BodyAppend(c, front, rest);
    assert front + rest == items && rest[0] == items[n];
    var l := c.enc(HeadOf(rest[0]));
    assert HeaderLen(c, items[n]) == |l|;
    var more := BodyHead(c, rest);
    hide OpenBody;
    hide Body;
    s := CutAfter(OpenBody(c, front), l, more, k, HEADER_LIMIT);
  }

  lemma BodyHead(c: Codec, items: seq<Item>) returns (more: Bytes)
    requires |items| > 0
    ensures Body(c, items) == c.enc(HeadOf(items[0])) + more
  {
    more := [NL] + items[0].payload + Body(c, items[1..]);
  }

  lemma CutAfter(a: Bytes, l: Bytes, more: Bytes, k: nat, limit: nat) returns (s: Bytes)
    requires |a| < k <= |a| + |l| + |more| && |l| > limit
    ensures var cut, n := (a + (l + more))[..k], Min(|s|, limit);
            cut == a + s && |s| == k - |a| && s[..n] == l[..n] && s[n..] == cut[|a| + n..]
  {
    s := (l + more)[..k - |a|];
    var n := Min(|s|, limit);
    assert (a + (l + more))[..k] == a + s;
    assert (a + s)[|a| + n..] == s[n..];
    assert s[..n] == l[..n];
  }

  /** The hello is read off, or the request ends before it is complete. */
  lemma HelloRead(c: Codec, body: Bytes, k: nat, inbox: Inbox)
    requires JsonLike(c) && k <= |c.enc(HELLO)| + 1 + |body|
    ensures var h := |c.enc(HELLO)|;
            Receive(c, (c.enc(HELLO) + [NL] + body)[..k], inbox)
            == if k < h then None else Some(Serve(c, body[..Max(0, k - h - 1)], inbox, [], 0))
  {
    hide Serve;
    var l := c.enc(HELLO);
    var cut := (l + [NL] + body)[..k];
    if k == 0 {
      assert Chomp(cut[..0]) == l[..0];
    } else if k <= |l| {
      assert cut == l[..k];
      LineTorn(c, HELLO, k, HELLO_LIMIT);
      assert body[..0] == [];
    } else {
      assert cut == l + [NL] + body[..k - |l| - 1];
      LineRead(c, HELLO, body[..k - |l| - 1], HELLO_LIMIT);
    }
  }

  /** Round trip, for any payload bytes and any header lines but those of exactly the limit: the server
      does the items up to the first header over the limit. It does all of them, and reads all of the
      stream, exactly if there is no such header; otherwise it refuses the rest, unread. */
  lemma ReceiveIs(c: Codec, items: seq<Item>, inbox: Inbox)
    requires JsonLike(c) && Within(items, 0, 0) && NoneExact(c, items)
    ensures var r := Receive(c, Stream(c, items), inbox);
            var front := Reached(c, items);
            var (kept, some) := Deliver(inbox, front);
            && r.Some? && r.value.inbox == kept
            && r.value.answers == some + (if front == items then [] else [REFUSED])
            && (r.value.left == [] <==> front == items)
            && ((r.value.inbox, r.value.answers) == Deliver(inbox, items) <==> front == items)
  {
    hide Receive;
    hide Serve;
    var front := Reached(c, items);
    if |front| == |items| {
      assert front == items;
      ReachedFits(c, items, 0, 0);
      ReceiveWhole(c, items, inbox);
      DeliverLength(inbox, items);
      assert Deliver(inbox, items).1 + [] == Deliver(inbox, items).1;
    } else {
      ReceiveStopped(c, items, inbox);
    }
  }

  lemma {:induction false} DeliverLength(inbox: Inbox, items: seq<Item>)
    ensures var answers := Deliver(inbox, items).1;
            |answers| == |items| && forall i :: 0 <= i < |items| ==> answers[i].path == Some(items[i].rel)
    decreases |items|
  {
    if |items| > 0 {
      var it := items[0];
      DeliverLength(Store(inbox, it.rel, it.offset, |it.payload|, it.payload).0, items[1..]);
    }
  }

  lemma ReceiveStopped(c: Codec, items: seq<Item>, inbox: Inbox)
    requires JsonLike(c) && Within(items, 0, 0) && NoneExact(c, items) && |Reached(c, items)| < |items|
    ensures var r := Receive(c, Stream(c, items), inbox);
            var (kept, some) := Deliver(inbox, Reached(c, items));
            && r.Some? && r.value.inbox == kept && r.value.answers == some + [REFUSED] && r.value.left != []
            && r.value.answers != Deliver(inbox, items).1
  {
    hide Receive;
    hide Serve;
    hide Deliver;
    hide Within;
    hide Fits;
    hide Body;
    hide OpenBody;
    hide Stream;
    hide JsonLike;
    hide NoneExact;
    hide TotalLength;
    var front, body := Reached(c, items), Body(c, items);
    ReachedFits(c, items, 0, 0);
    StoppedLeaves(c, items);
    StreamIs(c, items);
    HelloRead(c, body, |Stream(c, items)|, inbox);
    ServeStopped(c, items, |body|, inbox, [], 0);
    DeliverLength(inbox, front);
    DeliverLength(inbox, items);
    LastRefused(Deliver(inbox, front).1, Deliver(inbox, items).1, |front|);
  }

  lemma LastRefused(some: seq<Answer>, all: seq<Answer>, n: nat)
    requires |some| == n && n < |all| && all[n].path.Some?
    ensures [] + some + [REFUSED] == some + [REFUSED] != all
  {
    assert (some + [REFUSED])[n] == REFUSED;
  }

  lemma StreamIs(c: Codec, items: seq<Item>)
    ensures var s, body := Stream(c, items), Body(c, items);
            && s == c.enc(HELLO) + [NL] + body && s[..|s|] == s && body[..|body|] == body
            && |s| - |c.enc(HELLO)| - 1 == |body|
  {
  }

  lemma StoppedLeaves(c: Codec, items: seq<Item>)
    requires |Reached(c, items)| < |items| && NoneExact(c, items)
    ensures var o := |OpenBody(c, Reached(c, items))|; o + HEADER_LIMIT < |Body(c, items)|
  {
    var n := Readable(c, items);
    var front, rest := items[..n], items[n..];
    BodyAppend(c, front, rest);
    assert front + rest == items && rest[0] == items[n];
  }

  /** On every truncation, whatever the headers but for those of exactly the limit, the server performs
      the items it reads completely, and at most one more in part: a part of an append is answered
      `resync`, a cut whole file changes nothing. */
  lemma AnyTruncationIsPartial(c: Codec, items: seq<Item>, k: nat, inbox: Inbox)
    requires JsonLike(c) && Within(items, 0, 0) && NoneExact(c, items) && k <= |Stream(c, items)|
    ensures var r := Receive(c, Stream(c, items)[..k], inbox);
            r.Some? ==>
              && PartlyDone(inbox, items, r.value.inbox, r.value.answers)
              && (Reached(c, items) == items ==> r.value.left == [])
  {
    hide Receive;
    hide Serve;
    hide PartlyDone;
    hide Within;
    hide NoneExact;
    HelloRead(c, Body(c, items), k, inbox);
    var b := Max(0, k - |c.enc(HELLO)| - 1);
    if k >= |c.enc(HELLO)| {
      ServeAny(c, items, b, inbox, [], 0);
      AnyIsPartial(c, items, b, inbox, Serve(c, Body(c, items)[..b], inbox, [], 0));
    }
  }

  lemma AnyIsPartial(c: Codec, items: seq<Item>, b: nat, inbox: Inbox, r: Served)
    requires AnyResult(c, items, b, inbox, [], 0, r)
    ensures PartlyDone(inbox, items, r.inbox, r.answers)
    ensures Reached(c, items) == items ==> r.left == []
  {
    hide CutResult;
    hide Deliver;
    hide Body;
    hide OpenBody;
    hide TotalLength;
    var front := Reached(c, items);
    if |front| == |items| || b <= |OpenBody(c, front)| {
      CutGivesPartial(c, front, b, inbox, r);
      FrontIsPartial(inbox, items, |front|, r.inbox, r.answers);
    } else {
      var some := Deliver(inbox, front).1;
      assert [] + some + [REFUSED] == some + [REFUSED];
      assert PartlyDoneBy(inbox, items, r.inbox, r.answers, |front|, 0);
    }
  }

  lemma FrontIsPartial(inbox: Inbox, items: seq<Item>, n: nat, final: Inbox, answers: seq<Answer>)
    requires n <= |items| && PartlyDone(inbox, items[..n], final, answers)
    ensures PartlyDone(inbox, items, final, answers)
  {
    hide Deliver;
    hide Store;
    var j, p: nat :| 0 <= j <= n && PartlyDoneBy(inbox, items[..n], final, answers, j, p);
    assert items[..n][..j] == items[..j];
    assert PartlyDoneBy(inbox, items, final, answers, j, p);
  }

  // ---------- a header of exactly the limit ----------

  /** The payload the server takes for that of `it`: the newline of its header and all but its last byte. */
  function Shifted(payload: Bytes): Bytes
    requires |payload| > 0
  {
    [NL] + payload[..|payload| - 1]
  }

  /** A header of exactly the limit is read without its newline, so the payload is taken one byte early:
      the item is answered as if all were well, and its last byte is left for the next header. */
  lemma ExactHeaderShifts(c: Codec, it: Item, more: Bytes, inbox: Inbox, answers: seq<Answer>, total: nat)
    requires JsonLike(c) && HeaderLen(c, it) == HEADER_LIMIT && |it.payload| > 0
    requires Within([it], |answers|, total)
    ensures var (stored, status) := Store(inbox, it.rel, it.offset, |it.payload|, Shifted(it.payload));
            Serve(c, c.enc(HeadOf(it)) + [NL] + it.payload + more, inbox, answers, total)
            == Serve(c, it.payload[|it.payload| - 1..] + more, stored, answers + [Answer(Some(it.rel), status)],
                     total + |it.payload|)
  {
    hide Serve;
    hide Store;
    assert TotalLength([it]) == |it.payload| + TotalLength([it][1..]) && [it][0] == it;
    var s := c.enc(HeadOf(it)) + [NL] + it.payload + more;
    var after := it.payload[|it.payload| - 1..] + more;
    LongLine(c.enc(HeadOf(it)), it.payload, more);
    hide LineLen;
    hide Chomp;
    ServeTurn(c, s, it, Shifted(it.payload), after, inbox, answers, total);
  }

  /** The line read from it ends where its newline begins. */
  lemma LongLine(l: Bytes, payload: Bytes, more: Bytes)
    requires OneLine(l) && |l| == HEADER_LIMIT && |payload| > 0
    ensures var s := l + [NL] + payload + more;
            && LineLen(s, HEADER_LIMIT) == HEADER_LIMIT && Chomp(s[..HEADER_LIMIT]) == l
            && s[HEADER_LIMIT..] == Shifted(payload) + (payload[|payload| - 1..] + more)
  {
    var s := l + [NL] + payload + more;
    forall i | 0 <= i < HEADER_LIMIT ensures s[i] != NL { assert s[i] == l[i]; }
    LineTooLong(s, HEADER_LIMIT);
    assert s[..HEADER_LIMIT] == l;
    ChompWhole(l);
  }

  /** What is stored then is the payload, or the beginning of anything the payload is the beginning of,
      only if the payload is nothing but newlines. */
  lemma ShiftedIffNewlines(payload: Bytes, data: Bytes)
    requires |payload| > 0 && payload <= data
    ensures Shifted(payload) <= data <==> forall i :: 0 <= i < |payload| ==> payload[i] == NL
  {
    if Shifted(payload) <= data {
      forall i | 0 <= i < |payload| ensures payload[i] == NL { AllNewlines(payload, data, i); }
    }
    if forall i :: 0 <= i < |payload| ==> payload[i] == NL {
      assert Shifted(payload) == payload;
    }
  }

  lemma {:induction false} AllNewlines(payload: Bytes, data: Bytes, i: nat)
    requires i < |payload| && payload <= data && Shifted(payload) <= data
    ensures payload[i] == NL
  {
    assert Shifted(payload)[i] == data[i] == payload[i];
    if i > 0 { AllNewlines(payload, data, i - 1); }
  }

  // ---------- plans ----------

  /** A stream built from a plan meets the limits of the server on path, size, total and count; and those
      on header lines exactly if no header of it is too long. */
  lemma PlanMeetsLimits(c: Codec, files: seq<LocalFile>, state: ClientState, planned: Sources, budget: nat,
                        src: Sources)
    requires Scanned(files) && budget <= MAX_RUN_SERVER
    ensures var items := Frames(PlanOf(files, state, planned, budget), src);
            Within(items, 0, 0) && (Fits(c, items, 0, 0) <==> Reached(c, items) == items)
  {
    hide PlanOf;
    hide ToSend;
    hide OffsetFor;
    hide Frames;
    hide SentOf;
    hide Fits;
    var p := PlanOf(files, state, planned, budget);
    PlanIs(files, state, planned, budget);
    FramesOf(p, src);
    FramesCost(p, src);
    var items, sent := Frames(p, src), SentOf(p, src);
    FramedAllowed(files, p, src, items, sent);
    hide Framed;
    hide Scanned;
    assert Within(items, 0, 0);
    hide Within;
    FitsIffReached(c, items);
  }

  lemma FramedAllowed(files: seq<LocalFile>, p: Plan, src: Sources, items: seq<Item>, sent: Plan)
    requires Scanned(files) && Framed(p, src, items, sent) && forall x :: x in p ==> x.0 in files
    ensures |items| <= |p|
    ensures forall i :: 0 <= i < |items| ==>
              SafeRel(items[i].rel) == Some(items[i].rel) && items[i].offset + |items[i].payload| <= MAX_FILE
  {
    forall i | 0 <= i < |items|
      ensures SafeRel(items[i].rel) == Some(items[i].rel) && items[i].offset + |items[i].payload| <= MAX_FILE
    {
      assert sent[i] in p;
    }
  }

  /** And so does the stream of a plan of which a file shrank. */
  lemma HeadedMeetsLimits(files: seq<LocalFile>, state: ClientState, planned: Sources, budget: nat, src: Sources)
    requires Scanned(files) && budget <= MAX_RUN_SERVER
    ensures Within(Headed(PlanOf(files, state, planned, budget), src), 0, 0)
  {
    hide PlanOf;
    hide ToSend;
    hide OffsetFor;
    hide Headed;
    hide PlanCost;
    hide TotalLength;
    var p := PlanOf(files, state, planned, budget);
    PlanIs(files, state, planned, budget);
    HeadedOf(p, src);
    var items := Headed(p, src);
    forall i | 0 <= i < |items|
      ensures SafeRel(items[i].rel) == Some(items[i].rel) && items[i].offset + |items[i].payload| <= MAX_FILE
    {
      assert HeadsSome(items[i], p);
      var x :| x in p && HeadsFile(items[i], x);
    }
  }

  ghost predicate HeadsFile(it: Item, x: (LocalFile, nat)) {
    it.rel == x.0.rel && it.offset == x.1 && it.offset + |it.payload| == x.0.size
  }

  ghost predicate HeadsSome(it: Item, p: Plan) {
    exists x :: x in p && HeadsFile(it, x)
  }

  lemma {:induction false} HeadedOf(p: Plan, src: Sources)
    requires forall x :: x in p ==> x.1 <= x.0.size
    ensures var items := Headed(p, src);
            && |items| <= |p| && TotalLength(items) <= PlanCost(p)
            && forall i :: 0 <= i < |items| ==> HeadsSome(items[i], p)
  {
    if |p| > 0 {
      assert p[0] in p && forall x :: x in p[1..] ==> x in p;
      HeadedOf(p[1..], src);
      PlanCostNat(p[1..]);
      var (f, off) := p[0];
      var rest := Headed(p[1..], src);
      if f.rel in src {
        var data := src[f.rel];
        var it := if |data| < f.size then Padded(f, off, data) else Item(f.rel, off, data[off..f.size]);
        assert HeadsFile(it, p[0]);
        assert TotalLength([it] + rest) == |it.payload| + TotalLength(rest) by { assert ([it] + rest)[1..] == rest; }
        assert TotalLength([it]) == |it.payload| by { assert [it][1..] == []; }
      }
    }
  }

  lemma FitsIffReached(c: Codec, items: seq<Item>)
    requires Within(items, 0, 0)
    ensures Fits(c, items, 0, 0) <==> Reached(c, items) == items
  {
    ReachedFits(c, items, 0, 0);
    forall i | 0 <= i < |items| && Fits(c, items, 0, 0) ensures HeaderLen(c, items[i]) < HEADER_LIMIT {
      assert ItemFits(c, items[i]);
    }
    assert items[..|items|] == items;
  }
}
