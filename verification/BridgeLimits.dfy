/**
 What the server does with requests no client of its own would send: paths outside the session trees, sizes
 over its limits, and bytes that are no request at all.
 */
module BridgeLimits {
  import opened Common
  import opened BridgePaths
  import opened BridgeWire
  import opened BridgeHeaders

  // ---------- arbitrary bytes ----------

  /** Between two inboxes nothing is lost, and every file that is new or changed has a path the server
      accepts and a size within its limit. */
  ghost predicate OnlySessions(a: Inbox, b: Inbox) {
    && (forall p :: p in a ==> p in b)
    && (forall p :: p in b && !(p in a && a[p] == b[p]) ==> SafeRel(p) == Some(p) && |b[p]| <= MAX_FILE)
  }

  lemma StoreIsSession(inbox: Inbox, rel: string, offset: nat, length: nat, got: Bytes)
    requires SafeRel(rel) == Some(rel) && |got| <= length && offset + length <= MAX_FILE
    ensures OnlySessions(inbox, Store(inbox, rel, offset, length, got).0)
  {
    hide SafeRel;
  }

  lemma OnlySessionsTwice(a: Inbox, b: Inbox, c: Inbox)
    requires OnlySessions(a, b) && OnlySessions(b, c)
    ensures OnlySessions(a, c)
  {
    hide SafeRel;
  }

  /** An answer to a file speaks of an accepted path, or is a rejection. */
  ghost predicate Proper(a: Answer) {
    a.status != Rejected ==> a.path.Some? && SafeRel(a.path.value) == a.path
  }

  /** What a run from `inbox` on, with these answers given, may have come to. */
  ghost predicate Bounded(inbox: Inbox, answers: seq<Answer>, r: Served) {
    && OnlySessions(inbox, r.inbox)
    && r.total <= MAX_RUN_SERVER && answers <= r.answers && |r.answers| <= MAX_FILES_RUN + 1
    && (forall i :: |answers| <= i < |r.answers| ==> Proper(r.answers[i]))
  }

  lemma {:induction false} ServeBounded(c: Codec, rest: Bytes, inbox: Inbox, answers: seq<Answer>, total: nat)
    requires |answers| <= MAX_FILES_RUN && total <= MAX_RUN_SERVER
    ensures Bounded(inbox, answers, Serve(c, rest, inbox, answers, total))
    decreases |rest|
  {
    hide SafeRel;
    hide Store;
    hide LineLen;
    hide Chomp;
    hide Bounded;
    hide OnlySessions;
    hide Proper;
    var n := LineLen(rest, HEADER_LIMIT);
    var r := Serve(c, rest, inbox, answers, total);
    BoundedNow(inbox, answers, total, if n > 0 then rest[n..] else rest);
    if n > 0 && c.dec(Chomp(rest[..n])).Some? {
      var h, more := c.dec(Chomp(rest[..n])).value, rest[n..];
      if !h.end && |answers| < MAX_FILES_RUN && ValidSize(h) {
        var length := h.length.value;
        var got, after := more[..Min(length, |more|)], more[Min(length, |more|)..];
        var rel := if h.path.Some? then SafeRel(h.path.value) else None;
        if rel.None? || total + length > MAX_RUN_SERVER {
          var a := Answer(Clip(h.path), Rejected);
          ServeBounded(c, after, inbox, answers + [a], total);
          Refusals(Clip(h.path));
          BoundedStep(inbox, inbox, answers, a, r);
        } else {
          SafeIsSafe(h.path.value);
          var (stored, status) := Store(inbox, rel.value, h.offset.value, length, got);
          StoreIsSession(inbox, rel.value, h.offset.value, length, got);
          ServeBounded(c, after, stored, answers + [Answer(rel, status)], total + length);
          ProperAnswer(rel.value, status);
          BoundedStep(inbox, stored, answers, Answer(rel, status), r);
        }
      }
    }
  }

  lemma BoundedNow(inbox: Inbox, answers: seq<Answer>, total: nat, rest: Bytes)
    requires |answers| <= MAX_FILES_RUN && total <= MAX_RUN_SERVER
    ensures OnlySessions(inbox, inbox)
    ensures Bounded(inbox, answers, Served(inbox, answers, total, rest))
    ensures Bounded(inbox, answers, Served(inbox, answers + [REFUSED], total, rest))
  {
    hide SafeRel;
  }

  lemma BoundedStep(inbox: Inbox, stored: Inbox, answers: seq<Answer>, a: Answer, r: Served)
    requires OnlySessions(inbox, stored) && Proper(a) && Bounded(stored, answers + [a], r)
    ensures Bounded(inbox, answers, r)
  {
    hide SafeRel;
    hide Proper;
    OnlySessionsTwice(inbox, stored, r.inbox);
    hide OnlySessions;
    assert r.answers[|answers|] == (answers + [a])[|answers|];
  }

  lemma Refusals(path: Option<string>)
    ensures Proper(Answer(path, Rejected))
  {
  }

  lemma ProperAnswer(rel: string, status: Status)
    requires SafeRel(rel) == Some(rel)
    ensures Proper(Answer(Some(rel), status))
  {
  }

  lemma SafeIsSafe(path: string)
    ensures SafeRel(path).Some? ==> SafeRel(path) == Some(path)
  {
    if SafeRel(path).Some? { SafeRelIsItself(path); }
  }

  /** Whatever bytes arrive: nothing in the inbox is lost, only files in the session trees are written, none
      over the limit of a file, and the counts stay within the limits of a run. */
  lemma ReceiveIsConfined(c: Codec, input: Bytes, inbox: Inbox)
    requires Receive(c, input, inbox).Some?
    ensures var r := Receive(c, input, inbox).value;
            && OnlySessions(inbox, r.inbox)
            && r.total <= MAX_RUN_SERVER && |r.answers| <= MAX_FILES_RUN + 1
            && (forall i :: 0 <= i < |r.answers| ==> Proper(r.answers[i]))
  {
    hide Serve;
    hide SafeRel;
    ServeBounded(c, input[LineLen(input, HELLO_LIMIT)..], inbox, [], 0);
  }

  /** A request is looked at if and only if its first line is a greeting of this protocol. */
  lemma GreetingDecides(c: Codec, h: Head, more: Bytes, inbox: Inbox)
    requires JsonLike(c) && |c.enc(h)| < HELLO_LIMIT
    ensures Receive(c, c.enc(h) + [NL] + more, inbox)
            == if h.v == Some(1) then Some(Serve(c, more, inbox, [], 0)) else None
  {
    hide Serve;
    hide LineLen;
    hide Chomp;
    LineRead(c, h, more, HELLO_LIMIT);
  }

  /** A header without a sound offset and length ends the run: nothing is stored, and what follows is not read. */
  lemma BadSizeStops(c: Codec, h: Head, more: Bytes, inbox: Inbox, answers: seq<Answer>, total: nat)
    requires JsonLike(c) && |c.enc(h)| < HEADER_LIMIT && !h.end
    requires !(h.offset.Some? && h.length.Some? && h.offset.value >= 0 && h.length.value >= 0
               && h.offset.value + h.length.value <= 512 * 1024 * 1024)
    ensures Serve(c, c.enc(h) + [NL] + more, inbox, answers, total) == Served(inbox, answers + [REFUSED], total, more)
  {
    hide SafeRel;
    hide Store;
    hide LineLen;
    hide Chomp;
    LineRead(c, h, more, HEADER_LIMIT);
  }

  // ---------- requests that break the rules ----------

  /** What should become of items of any kind: one with a path that is not accepted, or which would bring the
      run over its limit, is rejected and the next one is looked at; one over the limit of a file, and one
      too many, end the run. */
  function Judged(inbox: Inbox, items: seq<Item>, n: nat, total: nat): (Inbox, seq<Answer>)
    decreases |items|
  {
    if |items| == 0 then (inbox, [])
    else
      var it := items[0];
      if n >= MAX_FILES_RUN || it.offset + |it.payload| > MAX_FILE then (inbox, [REFUSED])
      else if SafeRel(it.rel).None? || total + |it.payload| > MAX_RUN_SERVER then
        var (final, answers) := Judged(inbox, items[1..], n + 1, total);
        (final, [Answer(Some(if |it.rel| > 200 then it.rel[..200] else it.rel), Rejected)] + answers)
      else
        var (stored, status) := Store(inbox, it.rel, it.offset, |it.payload|, it.payload);
        var (final, answers) := Judged(stored, items[1..], n + 1, total + |it.payload|);
        (final, [Answer(Some(it.rel), status)] + answers)
  }

  lemma {:induction false} ServeJudges(c: Codec, items: seq<Item>, inbox: Inbox, answers: seq<Answer>, total: nat)
    requires JsonLike(c) && forall i :: 0 <= i < |items| ==> HeaderLen(c, items[i]) < HEADER_LIMIT
    ensures var r, (final, some) := Serve(c, Body(c, items), inbox, answers, total),
                                    Judged(inbox, items, |answers|, total);
            r.inbox == final && r.answers == answers + some
    decreases |items|
  {
    hide JsonLike;
    hide SafeRel;
    hide Store;
    hide Serve;
    if |items| == 0 {
      EndServed(c, inbox, answers, total);
      assert answers + [] == answers;
    } else {
      var it, rest := items[0], items[1..];
      var s := Body(c, items);
      assert s == c.enc(HeadOf(it)) + [NL] + (it.payload + Body(c, rest));
      if |answers| >= MAX_FILES_RUN || it.offset + |it.payload| > MAX_FILE {
        StopTurn(c, s, it, Body(c, rest), inbox, answers, total);
      } else if SafeRel(it.rel).None? || total + |it.payload| > MAX_RUN_SERVER {
        RejectTurn(c, s, it, Body(c, rest), inbox, answers, total);
        var a := Answer(Clip(Some(it.rel)), Rejected);
        assert it.rel[..|it.rel|] == it.rel;
        ServeJudges(c, rest, inbox, answers + [a], total);
        Regrouped(answers, a, Judged(inbox, rest, |answers| + 1, total).1);
      } else {
        SafeIsSafe(it.rel);
        assert it.payload[..|it.payload|] == it.payload;
        ItemTurn(c, s, it, |it.payload|, Body(c, rest), inbox, answers, total);
        var (stored, status) := Store(inbox, it.rel, it.offset, |it.payload|, it.payload);
        var a := Answer(Some(it.rel), status);
        ServeJudges(c, rest, stored, answers + [a], total + |it.payload|);
        Regrouped(answers, a, Judged(stored, rest, |answers| + 1, total + |it.payload|).1);
      }
    }
  }

  lemma EndServed(c: Codec, inbox: Inbox, answers: seq<Answer>, total: nat)
    requires JsonLike(c)
    ensures Serve(c, Body(c, []), inbox, answers, total) == Served(inbox, answers, total, [])
  {
    hide JsonLike;
    EndCut(c, |Body(c, [])|, inbox, answers, total);
    assert Body(c, [])[..|Body(c, [])|] == Body(c, []) && answers + [] == answers;
  }

  lemma RejectTurn(c: Codec, s: Bytes, it: Item, rest: Bytes, inbox: Inbox, answers: seq<Answer>, total: nat)
    requires JsonLike(c) && HeaderLen(c, it) < HEADER_LIMIT && s == c.enc(HeadOf(it)) + [NL] + (it.payload + rest)
    requires |answers| < MAX_FILES_RUN && it.offset + |it.payload| <= MAX_FILE
    requires SafeRel(it.rel).None? || total + |it.payload| > MAX_RUN_SERVER
    ensures Serve(c, s, inbox, answers, total)
            == Serve(c, rest, inbox, answers + [Answer(Clip(Some(it.rel)), Rejected)], total)
  {
    LineRead(c, HeadOf(it), it.payload + rest, HEADER_LIMIT);
    hide SafeRel;
    hide Store;
    hide LineLen;
    hide Chomp;
    hide JsonLike;
    PayloadSplit(it.payload, rest, |it.payload|);
  }

  lemma StopTurn(c: Codec, s: Bytes, it: Item, rest: Bytes, inbox: Inbox, answers: seq<Answer>, total: nat)
    requires JsonLike(c) && HeaderLen(c, it) < HEADER_LIMIT && s == c.enc(HeadOf(it)) + [NL] + (it.payload + rest)
    requires |answers| >= MAX_FILES_RUN || it.offset + |it.payload| > MAX_FILE
    ensures var r := Serve(c, s, inbox, answers, total); r.inbox == inbox && r.answers == answers + [REFUSED]
  {
    LineRead(c, HeadOf(it), it.payload + rest, HEADER_LIMIT);
    hide SafeRel;
    hide Store;
    hide LineLen;
    hide Chomp;
    hide JsonLike;
  }

  /** For any items at all with readable headers, the server does what it should. */
  lemma ReceiveJudges(c: Codec, items: seq<Item>, inbox: Inbox)
    requires JsonLike(c) && forall i :: 0 <= i < |items| ==> HeaderLen(c, items[i]) < HEADER_LIMIT
    ensures var r := Receive(c, Stream(c, items), inbox);
            r.Some? && (r.value.inbox, r.value.answers) == Judged(inbox, items, 0, 0)
  {
    hide JsonLike;
    hide Receive;
    hide Serve;
    hide Judged;
    hide Body;
    var s := Stream(c, items);
    HelloRead(c, Body(c, items), |s|, inbox);
    assert s[..|s|] == s && Body(c, items)[..|Body(c, items)|] == Body(c, items);
    ServeJudges(c, items, inbox, [], 0);
    assert [] + Judged(inbox, items, 0, 0).1 == Judged(inbox, items, 0, 0).1;
  }
}
