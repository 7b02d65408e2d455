/**
 The request stream of pskit/bridge.py: framing, storage rules, and what the server makes of a
 stream, whole or cut at any byte.
 */
module BridgeWire {
  import opened Common
  import opened BridgePaths

  const MAX_FILE: nat := 512 * 1024 * 1024
  const MAX_RUN_SERVER: nat := 2 * 1024 * 1024 * 1024
  const MAX_FILES_RUN: nat := 5000
  const HEADER_LIMIT: nat := MAX_PATH + 256
  const HELLO_LIMIT: nat := 4096
  const PROTOCOL: int := 1
  const NL: byte := 10

  // ---------- lines ----------

  /** The fields a JSON object on a line may have; None where one is missing or of another type. */
  datatype Head = Head(v: Option<int>, end: bool, path: Option<string>, offset: Option<int>, length: Option<int>)

  /** `json.dumps` and `json.loads`; `dec` is None for anything that is not an object. */
  datatype Codec = Codec(enc: Head -> Bytes, dec: Bytes -> Option<Head>)

  const HELLO := Head(Some(PROTOCOL), false, None, None, None)
  const END := Head(None, true, None, None, None)

  ghost predicate OneLine(l: Bytes) {
    forall i :: 0 <= i < |l| ==> l[i] != NL
  }

  /** What section 2 and section 7 of RFC 8259 give: encoded objects decode to themselves, have no
      newline in them, and do not decode once their end is missing. */
  ghost predicate JsonLike(c: Codec) {
    && (forall h :: c.dec(c.enc(h)) == Some(h))
    && (forall h :: OneLine(c.enc(h)))
    && (forall h, k :: 0 <= k < |c.enc(h)| ==> c.dec(c.enc(h)[..k]) == None)
    && (forall h :: |c.enc(h)| > 0)
    && |c.enc(HELLO)| < HELLO_LIMIT && |c.enc(END)| < HEADER_LIMIT
  }

  /** Length of what `readline(limit)` returns: up to and with the newline, if it comes in time. */
  function LineLen(s: Bytes, limit: nat): (n: nat)
    ensures n <= limit && n <= |s|
    ensures n == 0 <==> limit == 0 || |s| == 0
    decreases limit
  {
    if limit == 0 || |s| == 0 then 0 else if s[0] == NL then 1 else 1 + LineLen(s[1..], limit - 1)
  }

  function Chomp(line: Bytes): Bytes {
    if |line| > 0 && line[|line| - 1] == NL then line[..|line| - 1] else line
  }

  lemma {:induction false} LineWhole(l: Bytes, more: Bytes, limit: nat)
    requires OneLine(l)
    requires |l| < limit
    ensures LineLen(l + [NL] + more, limit) == |l| + 1
    decreases limit
  {
    var s := l + [NL] + more;
    if |l| > 0 {
      assert s[1..] == l[1..] + [NL] + more;
      LineWhole(l[1..], more, limit - 1);
    }
  }

  lemma {:induction false} LineCut(l: Bytes, limit: nat)
    requires OneLine(l)
    requires |l| <= limit
    ensures LineLen(l, limit) == |l|
    decreases limit
  {
    if |l| > 0 { LineCut(l[1..], limit - 1); }
  }

  // ---------- storage ----------

  type Inbox = map<string, Bytes>

  datatype Status = Stored | Resync | Rejected

  datatype Answer = Answer(path: Option<string>, status: Status)

  /** `_store`: `got` is what was left of the stream, up to `length` bytes. */
  function Store(inbox: Inbox, rel: string, offset: nat, length: nat, got: Bytes): (Inbox, Status) {
    if offset == 0 then
      if |got| != length then (inbox, Rejected) else (inbox[rel := got], Stored)
    else if rel !in inbox || |inbox[rel]| != offset then (inbox, Resync)
    else (inbox[rel := inbox[rel] + got], if |got| == length then Stored else Resync)
  }

  datatype Served = Served(inbox: Inbox, answers: seq<Answer>, total: nat, left: Bytes)

  predicate ValidSize(h: Head) {
    && h.length.Some? && h.offset.Some? && h.length.value >= 0 && h.offset.value >= 0
    && h.length.value <= MAX_FILE && h.offset.value + h.length.value <= MAX_FILE
  }

  function Clip(path: Option<string>): Option<string> {
    if path.Some? then Some(path.value[..Min(200, |path.value|)]) else None
  }

  const REFUSED := Answer(None, Rejected)

  /** The main loop of `receive`, on what is left of the stream. `left` is what it never reads. */
  function Serve(c: Codec, rest: Bytes, inbox: Inbox, answers: seq<Answer>, total: nat): Served
    decreases |rest|
  {
    var n := LineLen(rest, HEADER_LIMIT);
    if n == 0 then Served(inbox, answers, total, rest)
    else
      var more := rest[n..];
      match c.dec(Chomp(rest[..n]))
      case None => Served(inbox, answers + [REFUSED], total, more)
      case Some(h) =>
        if h.end then Served(inbox, answers, total, more)
        else if |answers| >= MAX_FILES_RUN || !ValidSize(h) then Served(inbox, answers + [REFUSED], total, more)
        else
          var length := h.length.value;
          var got, after := more[..Min(length, |more|)], more[Min(length, |more|)..];
          var rel := if h.path.Some? then SafeRel(h.path.value) else None;
          if rel.None? || total + length > MAX_RUN_SERVER then
            Serve(c, after, inbox, answers + [Answer(Clip(h.path), Rejected)], total)
          else
            var (stored, status) := Store(inbox, rel.value, h.offset.value, length, got);
            Serve(c, after, stored, answers + [Answer(rel, status)], total + length)
  }

  /** `receive`: None is the protocol error, after which nothing was touched. */
  function Receive(c: Codec, input: Bytes, inbox: Inbox): Option<Served> {
    var n := LineLen(input, HELLO_LIMIT);
    var hello := c.dec(Chomp(input[..n]));
    if hello.None? || hello.value.v != Some(PROTOCOL) then None
    else Some(Serve(c, input[n..], inbox, [], 0))
  }

  // ---------- what the client writes ----------

  datatype Item = Item(rel: string, offset: nat, payload: Bytes)

  function HeadOf(it: Item): Head {
    Head(None, false, Some(it.rel), Some(it.offset), Some(|it.payload|))
  }

  function Body(c: Codec, items: seq<Item>): Bytes {
    if |items| == 0 then c.enc(END) + [NL]
    else c.enc(HeadOf(items[0])) + [NL] + items[0].payload + Body(c, items[1..])
  }

  function Stream(c: Codec, items: seq<Item>): Bytes {
    c.enc(HELLO) + [NL] + Body(c, items)
  }

  function TotalLength(items: seq<Item>): nat {
    if |items| == 0 then 0 else |items[0].payload| + TotalLength(items[1..])
  }

  ghost predicate ItemFits(c: Codec, it: Item) {
    && SafeRel(it.rel) == Some(it.rel)
    && it.offset + |it.payload| <= MAX_FILE
    && |c.enc(HeadOf(it))| < HEADER_LIMIT
  }

  /** The limits of the server, for a stream of `items` after `n` answers and `total` bytes. */
  ghost predicate Fits(c: Codec, items: seq<Item>, n: nat, total: nat) {
    && (forall i :: 0 <= i < |items| ==> ItemFits(c, items[i]))
    && n + |items| <= MAX_FILES_RUN
    && total + TotalLength(items) <= MAX_RUN_SERVER
  }

  // ---------- what should happen ----------

  /** The effect of storing whole items one after the other. */
  function Deliver(inbox: Inbox, items: seq<Item>): (Inbox, seq<Answer>)
    decreases |items|
  {
    if |items| == 0 then (inbox, [])
    else
      var it := items[0];
      var (stored, status) := Store(inbox, it.rel, it.offset, |it.payload|, it.payload);
      var (final, answers) := Deliver(stored, items[1..]);
      (final, [Answer(Some(it.rel), status)] + answers)
  }

  /** How many whole items the first `k` bytes of the body hold, a missing newline not counting. */
  function WholeItems(c: Codec, items: seq<Item>, k: nat): (n: nat)
    ensures n <= |items|
  {
    if |items| == 0 then 0
    else
      var h, l := |c.enc(HeadOf(items[0]))|, |items[0].payload|;
      if k < h || k < h + (if l == 0 then 0 else 1 + l) then 0
      else 1 + WholeItems(c, items[1..], if k < h + 1 + l then 0 else k - h - 1 - l)
  }

  /** The bytes of the cut that come after the whole items. */
  function Tail(c: Codec, items: seq<Item>, k: nat): nat {
    if |items| == 0 then k
    else
      var h, l := |c.enc(HeadOf(items[0]))|, |items[0].payload|;
      if k < h || k < h + (if l == 0 then 0 else 1 + l) then k
      else Tail(c, items[1..], if k < h + 1 + l then 0 else k - h - 1 - l)
  }

  /** What the tail of a cut does: nothing, a bad header, or one item of which a part is missing. */
  function Remainder(c: Codec, items: seq<Item>, k: nat, inbox: Inbox): (Inbox, seq<Answer>) {
    if k == 0 then (inbox, [])
    else if |items| == 0 then (inbox, if k < |c.enc(END)| then [REFUSED] else [])
    else
      var it := items[0];
      var h := |c.enc(HeadOf(it))|;
      if k < h then (inbox, [REFUSED])
      else
        var p := Min(Max(0, k - h - 1), |it.payload|);
        var (stored, status) := Store(inbox, it.rel, it.offset, |it.payload|, it.payload[..p]);
        (stored, [Answer(Some(it.rel), status)])
  }

  // ---------- framing ----------

  lemma ChompWhole(l: Bytes)
    requires OneLine(l)
    ensures Chomp(l) == l && Chomp(l + [NL]) == l
  {
  }

  /** A whole header line, and what comes after it. */
  lemma LineRead(c: Codec, h: Head, more: Bytes, limit: nat)
    requires JsonLike(c) && |c.enc(h)| < limit
    ensures var s := c.enc(h) + [NL] + more;
            var n := LineLen(s, limit);
            n == |c.enc(h)| + 1 && s[n..] == more && c.dec(Chomp(s[..n])) == Some(h)
  {
    var l := c.enc(h);
    LineWhole(l, more, limit);
    assert (l + [NL] + more)[..|l| + 1] == l + [NL];
    ChompWhole(l);
  }

  /** A header line of which the end is missing: it decodes only if nothing but the newline is. */
  lemma LineTorn(c: Codec, h: Head, k: nat, limit: nat)
    requires JsonLike(c) && |c.enc(h)| < limit && 0 < k <= |c.enc(h)|
    ensures var s := c.enc(h)[..k];
            LineLen(s, limit) == k && s[k..] == []
            && c.dec(Chomp(s[..k])) == if k == |c.enc(h)| then Some(h) else None
  {
    var l := c.enc(h);
    LineCut(l[..k], limit);
    ChompWhole(l[..k]);
    assert l[..k][..k] == l[..k];
    assert l[..|l|] == l;
  }

  lemma ZeroCut(c: Codec, items: seq<Item>, inbox: Inbox)
    requires JsonLike(c)
    ensures WholeItems(c, items, 0) == 0 && Tail(c, items, 0) == 0
  {
  }

  lemma EndCut(c: Codec, k: nat, inbox: Inbox, answers: seq<Answer>, total: nat)
    requires JsonLike(c) && 0 < k <= |Body(c, [])|
    ensures Serve(c, Body(c, [])[..k], inbox, answers, total)
            == Served(inbox, answers + (if k < |c.enc(END)| then [REFUSED] else []), total, [])
  {
    var l := c.enc(END);
    if k <= |l| {
      assert Body(c, [])[..k] == l[..k];
      LineTorn(c, END, k, HEADER_LIMIT);
    } else {
      assert Body(c, [])[..k] == l + [NL] + [];
      LineRead(c, END, [], HEADER_LIMIT);
    }
  }

  lemma HeaderCut(c: Codec, items: seq<Item>, k: nat, inbox: Inbox, answers: seq<Answer>, total: nat)
    requires JsonLike(c) && |items| > 0 && ItemFits(c, items[0]) && 0 < k < |c.enc(HeadOf(items[0]))|
    ensures k <= |Body(c, items)|
    ensures Serve(c, Body(c, items)[..k], inbox, answers, total) == Served(inbox, answers + [REFUSED], total, [])
  {
    var l := c.enc(HeadOf(items[0]));
    assert Body(c, items)[..k] == l[..k];
    LineTorn(c, HeadOf(items[0]), k, HEADER_LIMIT);
  }

  /** The cut body of a non-empty stream whose first header is there. */
  lemma BodyCut(c: Codec, items: seq<Item>, k: nat)
    requires |items| > 0 && |c.enc(HeadOf(items[0]))| < k <= |Body(c, items)|
    ensures var h, it := |c.enc(HeadOf(items[0]))|, items[0];
            var p := Min(k - h - 1, |it.payload|);
            Body(c, items)[..k] == c.enc(HeadOf(it)) + [NL] + (it.payload[..p] + Body(c, items[1..])[..k - h - 1 - p])
  {
    var h, it := |c.enc(HeadOf(items[0]))|, items[0];
    var p := Min(k - h - 1, |it.payload|);
    var head, rest := c.enc(HeadOf(it)) + [NL], Body(c, items[1..]);
    assert Body(c, items) == head + (it.payload + rest);
    assert (head + (it.payload + rest))[..k] == head + (it.payload + rest)[..k - h - 1];
    assert (it.payload + rest)[..k - h - 1] == it.payload[..p] + rest[..k - h - 1 - p];
  }

  lemma FitsHead(c: Codec, items: seq<Item>, n: nat, total: nat)
    requires |items| > 0 && Fits(c, items, n, total)
    ensures ItemFits(c, items[0]) && n < MAX_FILES_RUN && total + |items[0].payload| <= MAX_RUN_SERVER
    ensures Fits(c, items[1..], n + 1, total + |items[0].payload|)
  {
    assert ItemFits(c, items[0]);
    forall i | 0 <= i < |items[1..]| ensures ItemFits(c, items[1..][i]) {
      assert items[1..][i] == items[i + 1];
    }
  }

  /** One turn of the loop of `receive`, on a header within the limits. */
  lemma ServeTurn(c: Codec, s: Bytes, it: Item, got: Bytes, after: Bytes, inbox: Inbox, answers: seq<Answer>,
                  total: nat)
    requires var n := LineLen(s, HEADER_LIMIT);
             && n > 0 && c.dec(Chomp(s[..n])) == Some(HeadOf(it))
             && s[n..] == got + after
    requires |got| == |it.payload| || (|got| < |it.payload| && after == [])
    requires SafeRel(it.rel) == Some(it.rel) && it.offset + |it.payload| <= MAX_FILE
    requires |answers| < MAX_FILES_RUN && total + |it.payload| <= MAX_RUN_SERVER
    ensures var (stored, status) := Store(inbox, it.rel, it.offset, |it.payload|, got);
            |after| < |s| &&
            Serve(c, s, inbox, answers, total)
            == Serve(c, after, stored, answers + [Answer(Some(it.rel), status)], total + |it.payload|)
  {
    hide SafeRel;
    hide Store;
    hide LineLen;
    hide Chomp;
    PayloadSplit(got, after, |it.payload|);
  }

  /** A header that arrived is obeyed with as much of its payload as arrived; here, all but its newline. */
  lemma BareHeaderServed(c: Codec, items: seq<Item>, inbox: Inbox, answers: seq<Answer>, total: nat)
    requires JsonLike(c) && |items| > 0 && Fits(c, items, |answers|, total)
    ensures var h, it := |c.enc(HeadOf(items[0]))|, items[0];
            var (stored, status) := Store(inbox, it.rel, it.offset, |it.payload|, []);
            h <= |Body(c, items)| &&
            Serve(c, Body(c, items)[..h], inbox, answers, total)
            == Serve(c, [], stored, answers + [Answer(Some(it.rel), status)], total + |it.payload|)
  {
    var h, it := |c.enc(HeadOf(items[0]))|, items[0];
    FitsHead(c, items, |answers|, total);
    assert Body(c, items)[..h] == c.enc(HeadOf(it))[..h];
    LineTorn(c, HeadOf(it), h, HEADER_LIMIT);
    ServeTurn(c, Body(c, items)[..h], it, [], [], inbox, answers, total);
  }

  lemma ItemTurn(c: Codec, s: Bytes, it: Item, p: nat, rest: Bytes, inbox: Inbox, answers: seq<Answer>, total: nat)
    requires JsonLike(c) && ItemFits(c, it) && |answers| < MAX_FILES_RUN && total + |it.payload| <= MAX_RUN_SERVER
    requires p == |it.payload| || (p < |it.payload| && rest == [])
    requires s == c.enc(HeadOf(it)) + [NL] + (it.payload[..p] + rest)
    ensures var (stored, status) := Store(inbox, it.rel, it.offset, |it.payload|, it.payload[..p]);
            Serve(c, s, inbox, answers, total)
            == Serve(c, rest, stored, answers + [Answer(Some(it.rel), status)], total + |it.payload|)
  {
    LineRead(c, HeadOf(it), it.payload[..p] + rest, HEADER_LIMIT);
    ServeTurn(c, s, it, it.payload[..p], rest, inbox, answers, total);
  }

  lemma ItemServed(c: Codec, items: seq<Item>, k: nat, inbox: Inbox, answers: seq<Answer>, total: nat)
    requires JsonLike(c) && |items| > 0 && Fits(c, items, |answers|, total)
    requires |c.enc(HeadOf(items[0]))| < k <= |Body(c, items)|
    ensures var h, it := |c.enc(HeadOf(items[0]))|, items[0];
            var p := Min(k - h - 1, |it.payload|);
            var (stored, status) := Store(inbox, it.rel, it.offset, |it.payload|, it.payload[..p]);
            k - h - 1 - p <= |Body(c, items[1..])| &&
            Serve(c, Body(c, items)[..k], inbox, answers, total)
            == Serve(c, Body(c, items[1..])[..k - h - 1 - p], stored, answers + [Answer(Some(it.rel), status)],
                     total + |it.payload|)
  {
    hide Serve;
    hide Store;
    var h, it := |c.enc(HeadOf(items[0]))|, items[0];
    FitsHead(c, items, |answers|, total);
    var p := Min(k - h - 1, |it.payload|);
    BodyCut(c, items, k);
    var rest := Body(c, items[1..])[..k - h - 1 - p];
    var s := c.enc(HeadOf(it)) + [NL] + (it.payload[..p] + rest);
    assert Body(c, items)[..k] == s;
    ItemTurn(c, s, it, p, rest, inbox, answers, total);
  }

  lemma PayloadSplit(got: Bytes, rest: Bytes, length: nat)
    requires |got| == length || (|got| < length && rest == [])
    ensures var more := got + rest; more[..Min(length, |more|)] == got && more[Min(length, |more|)..] == rest
  {
  }

  /** The result of a cut stream of `items`, of which `k` bytes of the body arrive. */
  ghost predicate CutResult(c: Codec, items: seq<Item>, k: nat, inbox: Inbox, answers: seq<Answer>, r: Served) {
    var j := WholeItems(c, items, k);
    var (kept, some) := Deliver(inbox, items[..j]);
    var (last, more) := Remainder(c, items[j..], Tail(c, items, k), kept);
    r.inbox == last && r.answers == answers + some + more && r.left == []
  }

  lemma CutResultNone(c: Codec, items: seq<Item>, k: nat, inbox: Inbox, answers: seq<Answer>, r: Served)
    requires WholeItems(c, items, k) == 0 && Tail(c, items, k) == k && r.left == []
    requires var (last, more) := Remainder(c, items, k, inbox); r.inbox == last && r.answers == answers + more
    ensures CutResult(c, items, k, inbox, answers, r)
  {
    assert items[..0] == [] && items[0..] == items;
  }

  lemma CutResultMore(c: Codec, items: seq<Item>, k: nat, k': nat, inbox: Inbox, answers: seq<Answer>, r: Served)
    requires |items| > 0
    requires WholeItems(c, items, k) == 1 + WholeItems(c, items[1..], k')
             && Tail(c, items, k) == Tail(c, items[1..], k')
    requires var it := items[0];
             var (stored, status) := Store(inbox, it.rel, it.offset, |it.payload|, it.payload);
             CutResult(c, items[1..], k', stored, answers + [Answer(Some(it.rel), status)], r)
    ensures CutResult(c, items, k, inbox, answers, r)
  {
    var j := WholeItems(c, items[1..], k');
    assert items[..j + 1][0] == items[0] && items[..j + 1][1..] == items[1..][..j];
    assert items[j + 1..] == items[1..][j..];
    var it := items[0];
    var (stored, status) := Store(inbox, it.rel, it.offset, |it.payload|, it.payload);
    var (kept, some) := Deliver(stored, items[1..][..j]);
    var (last, more) := Remainder(c, items[j + 1..], Tail(c, items, k), kept);
    assert answers + [Answer(Some(it.rel), status)] + some + more
           == answers + ([Answer(Some(it.rel), status)] + some) + more;
  }

  lemma NoItem(c: Codec, items: seq<Item>, k: nat, inbox: Inbox, answers: seq<Answer>, total: nat)
    requires JsonLike(c) && Fits(c, items, |answers|, total) && k <= |Body(c, items)|
    requires k == 0 || |items| == 0 || k < |c.enc(HeadOf(items[0]))|
    ensures CutResult(c, items, k, inbox, answers, Serve(c, Body(c, items)[..k], inbox, answers, total))
  {
    if k == 0 {
      ZeroCut(c, items, inbox);
    } else if |items| == 0 {
      assert items == [];
      EndCut(c, k, inbox, answers, total);
    } else {
      FitsHead(c, items, |answers|, total);
      HeaderCut(c, items, k, inbox, answers, total);
    }
    CutResultNone(c, items, k, inbox, answers, Serve(c, Body(c, items)[..k], inbox, answers, total));
  }

  lemma TornItem(c: Codec, items: seq<Item>, k: nat, inbox: Inbox, answers: seq<Answer>, total: nat)
    requires JsonLike(c) && |items| > 0 && Fits(c, items, |answers|, total) && k <= |Body(c, items)|
    requires |c.enc(HeadOf(items[0]))| <= k < |c.enc(HeadOf(items[0]))| + 1 + |items[0].payload|
             && |items[0].payload| > 0
    ensures CutResult(c, items, k, inbox, answers, Serve(c, Body(c, items)[..k], inbox, answers, total))
  {
    var it, h := items[0], |c.enc(HeadOf(items[0]))|;
    if k == h {
      BareHeaderServed(c, items, inbox, answers, total);
      assert it.payload[..0] == [];
    } else {
      ItemServed(c, items, k, inbox, answers, total);
      assert Body(c, items[1..])[..0] == [];
    }
    CutResultNone(c, items, k, inbox, answers, Serve(c, Body(c, items)[..k], inbox, answers, total));
  }

  lemma WholeItem(c: Codec, items: seq<Item>, k: nat, inbox: Inbox, answers: seq<Answer>, total: nat)
    requires JsonLike(c) && |items| > 0 && Fits(c, items, |answers|, total) && k <= |Body(c, items)|
    requires var h, l := |c.enc(HeadOf(items[0]))|, |items[0].payload|; k >= h && (k >= h + 1 + l || l == 0)
    ensures var k' := Max(0, k - |c.enc(HeadOf(items[0]))| - 1 - |items[0].payload|);
            && WholeItems(c, items, k) == 1 + WholeItems(c, items[1..], k')
            && Tail(c, items, k) == Tail(c, items[1..], k')
    ensures var h, it := |c.enc(HeadOf(items[0]))|, items[0];
            var k' := Max(0, k - h - 1 - |it.payload|);
            var (stored, status) := Store(inbox, it.rel, it.offset, |it.payload|, it.payload);
            k' <= |Body(c, items[1..])| &&
            Serve(c, Body(c, items)[..k], inbox, answers, total)
            == Serve(c, Body(c, items[1..])[..k'], stored, answers + [Answer(Some(it.rel), status)],
                     total + |it.payload|)
  {
    hide Serve;
    hide Store;
    hide Fits;
    var it, h := items[0], |c.enc(HeadOf(items[0]))|;
    if k == h {
      BareHeaderServed(c, items, inbox, answers, total);
      assert it.payload == [] && Body(c, items[1..])[..0] == [];
    } else {
      ItemServed(c, items, k, inbox, answers, total);
      assert it.payload[..|it.payload|] == it.payload;
    }
  }

  /** Whatever byte the stream is cut at, the server has done the whole items and at most one
      remainder, and has read everything there was. */
  lemma {:induction false} ServeCut(c: Codec, items: seq<Item>, k: nat, inbox: Inbox, answers: seq<Answer>, total: nat)
    requires JsonLike(c) && Fits(c, items, |answers|, total) && k <= |Body(c, items)|
    ensures CutResult(c, items, k, inbox, answers, Serve(c, Body(c, items)[..k], inbox, answers, total))
    decreases |items|
  {
    hide Serve;
    hide Store;
    hide CutResult;
    hide Fits;
    var r := Serve(c, Body(c, items)[..k], inbox, answers, total);
    if k == 0 || |items| == 0 || k < |c.enc(HeadOf(items[0]))| {
      NoItem(c, items, k, inbox, answers, total);
    } else {
      var it := items[0];
      var h, l := |c.enc(HeadOf(it))|, |it.payload|;
      FitsHead(c, items, |answers|, total);
      if k < h + 1 + l && l > 0 {
        TornItem(c, items, k, inbox, answers, total);
      } else {
        var k' := Max(0, k - h - 1 - l);
        var (stored, status) := Store(inbox, it.rel, it.offset, l, it.payload);
        WholeItem(c, items, k, inbox, answers, total);
        ServeCut(c, items[1..], k', stored, answers + [Answer(Some(it.rel), status)], total + l);
        CutResultMore(c, items, k, k', inbox, answers, r);
      }
    }
  }
}
