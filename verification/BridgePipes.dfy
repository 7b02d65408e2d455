/** Two processes and two bounded pipes: when can `push` and `receive` block each other for ever? */
module BridgePipes {
  import opened Common
  import opened BridgePaths
  import opened BridgeWire
  import opened BridgePlan
  import opened BridgeRuns
  import opened BridgeHeaders

  /** The client writes `request` bytes and then reads; the server reads `stop` of them and then writes
      `reply` bytes. Each pipe holds a bounded number of bytes. */
  datatype Deal = Deal(request: nat, stop: nat, reply: nat, requestPipe: nat, replyPipe: nat)

  datatype Traffic = Traffic(sent: nat, taken: nat, said: nat, heard: nat)

  datatype Move = ClientWrites | ServerTakes | ServerSays | ClientHears

  predicate Possible(d: Deal, t: Traffic, m: Move) {
    match m
    case ClientWrites => t.sent < d.request && t.sent - t.taken < d.requestPipe
    case ServerTakes => t.taken < d.stop && t.taken < t.sent
    case ServerSays => t.taken == d.stop && t.said < d.reply && t.said - t.heard < d.replyPipe
    case ClientHears => t.sent == d.request && t.heard < t.said
  }

  function Make(d: Deal, t: Traffic, m: Move): Traffic {
    if !Possible(d, t, m) then t
    else
      match m
      case ClientWrites => t.(sent := t.sent + 1)
      case ServerTakes => t.(taken := t.taken + 1)
      case ServerSays => t.(said := t.said + 1)
      case ClientHears => t.(heard := t.heard + 1)
  }

  function Moves(d: Deal, ms: seq<Move>): Traffic {
    if |ms| == 0 then Traffic(0, 0, 0, 0) else Make(d, Moves(d, ms[..|ms| - 1]), ms[|ms| - 1])
  }

  /** All said and heard, or the server gone, which ends a client that is still writing. */
  predicate Finished(d: Deal, t: Traffic) {
    t.said == d.reply && t.taken == d.stop && (t.sent < d.request || t.heard == d.reply)
  }

  predicate Stuck(d: Deal, t: Traffic) {
    !Finished(d, t) && forall m :: !Possible(d, t, m)
  }

  ghost predicate Sound(d: Deal, t: Traffic) {
    && t.taken <= t.sent <= d.request && t.taken <= d.stop && t.sent - t.taken <= d.requestPipe
    && t.heard <= t.said <= d.reply && t.said - t.heard <= d.replyPipe
    && (t.said > 0 ==> t.taken == d.stop)
    && (t.heard > 0 ==> t.sent == d.request)
  }

  lemma {:induction false} MovesSound(d: Deal, ms: seq<Move>)
    requires d.stop <= d.request
    ensures Sound(d, Moves(d, ms))
  {
    if |ms| > 0 { MovesSound(d, ms[..|ms| - 1]); }
  }

  predicate NeverBlocks(d: Deal) {
    d.request - d.stop <= d.requestPipe || d.reply <= d.replyPipe
  }

  /** Where the rest of the request, or the whole reply, fits into its pipe, no schedule gets stuck. */
  lemma NoScheduleSticks(d: Deal, ms: seq<Move>)
    requires d.stop <= d.request && d.requestPipe > 0 && d.replyPipe > 0 && NeverBlocks(d)
    ensures !Stuck(d, Moves(d, ms))
  {
    MovesSound(d, ms);
    var t := Moves(d, ms);
    if !Finished(d, t) {
      if t.taken < d.stop {
        assert Possible(d, t, ClientWrites) || Possible(d, t, ServerTakes);
      } else if t.sent < d.request {
        assert Possible(d, t, ClientWrites) || Possible(d, t, ServerSays);
      } else {
        assert Possible(d, t, ServerSays) || Possible(d, t, ClientHears);
      }
    }
  }

  lemma {:induction false} Repeat(d: Deal, ms: seq<Move>, m: Move, n: nat) returns (more: seq<Move>)
    requires forall k :: 0 <= k < n ==> Possible(d, Shifted(Moves(d, ms), m, k), m)
    ensures Moves(d, more) == Shifted(Moves(d, ms), m, n)
  {
    if n == 0 {
      more := ms;
    } else {
      var front := Repeat(d, ms, m, n - 1);
      more := front + [m];
      assert more[..|more| - 1] == front;
    }
  }

  function Shifted(t: Traffic, m: Move, n: nat): Traffic {
    match m
    case ClientWrites => t.(sent := t.sent + n)
    case ServerTakes => t.(taken := t.taken + n)
    case ServerSays => t.(said := t.said + n)
    case ClientHears => t.(heard := t.heard + n)
  }

  lemma {:induction false} RequestRead(d: Deal, n: nat) returns (ms: seq<Move>)
    requires n <= d.stop <= d.request && d.requestPipe > 0
    ensures Moves(d, ms) == Traffic(n, n, 0, 0)
  {
    if n == 0 {
      ms := [];
    } else {
      var front := RequestRead(d, n - 1);
      ms := front + [ClientWrites];
      assert ms[..|ms| - 1] == front;
      var last := ms + [ServerTakes];
      assert last[..|last| - 1] == ms;
      ms := last;
    }
  }

  ghost predicate CanStick(d: Deal) {
    exists ms :: Stuck(d, Moves(d, ms))
  }

  /** And only there: otherwise some schedule leaves both sides blocked on a full pipe. */
  lemma SomeScheduleSticks(d: Deal)
    requires d.stop <= d.request && d.requestPipe > 0 && d.replyPipe > 0 && !NeverBlocks(d)
    ensures CanStick(d)
  {
    var read := RequestRead(d, d.stop);
    var full := Repeat(d, read, ClientWrites, d.requestPipe);
    var ms := Repeat(d, full, ServerSays, d.replyPipe);
    assert Moves(d, ms) == Traffic(d.stop + d.requestPipe, d.stop, d.replyPipe, 0);
    assert Stuck(d, Moves(d, ms));
  }

  /** What the client writes for a plan, files that shrank since included. */
  function RequestOf(c: Codec, p: Plan, src: Sources): Bytes {
    c.enc(HELLO) + [NL] + Written(c, p, src)
  }

  /** The stream of a plan is read to its last byte before the first answer is written, so that the two
      sides never wait for each other, however small the pipes, unless a header line of it is over the
      limit: then some pipes are small enough for them to. A file that shrank ends the stream early, and
      changes nothing in this. */
  lemma PlannedRunNeverBlocks(c: Codec, files: seq<LocalFile>, state: ClientState, planned: Sources, budget: nat,
                              src: Sources, inbox: Inbox, reply: nat, requestPipe: nat, replyPipe: nat, ms: seq<Move>)
    requires JsonLike(c) && Scanned(files) && budget <= MAX_RUN_SERVER
    requires NoneExact(c, Headed(PlanOf(files, state, planned, budget), src))
    requires requestPipe > 0 && replyPipe > 0
    ensures var p := PlanOf(files, state, planned, budget);
            var items, request := Headed(p, src), RequestOf(c, p, src);
            var n, r := |request|, Receive(c, request, inbox);
            && r.Some? && |r.value.left| <= n
            && var d := Deal(n, n - |r.value.left|, reply, requestPipe, replyPipe);
               && (Reached(c, items) == items ==> !Stuck(d, Moves(d, ms)))
               && (Reached(c, items) != items && requestPipe < |r.value.left| && replyPipe < reply ==>
                     CanStick(d))
  {
    hide *;
    var p := PlanOf(files, state, planned, budget);
    var request := RequestOf(c, p, src);
    HeadedMeetsLimits(files, state, planned, budget, src);
    var k := RequestIsCut(c, p, src, inbox);
    AnyTruncationIsPartial(c, Headed(p, src), k, inbox);
    LeftIsSome(c, request, inbox);
    var left := |Receive(c, request, inbox).value.left|;
    BlocksOnlyWithLeft(|request|, left, reply, requestPipe, replyPipe, ms);
  }

  /** It is a cut of the stream of the items headed. */
  lemma RequestIsCut(c: Codec, p: Plan, src: Sources, inbox: Inbox) returns (k: nat)
    requires JsonLike(c)
    ensures k <= |Stream(c, Headed(p, src))| && RequestOf(c, p, src) == Stream(c, Headed(p, src))[..k]
    ensures Receive(c, RequestOf(c, p, src), inbox).Some?
  {
    hide Receive;
    hide Headed;
    hide Written;
    hide Body;
    ShrunkStreamIsCut(c, p, src);
    var items := Headed(p, src);
    var hello, body := c.enc(HELLO) + [NL], Body(c, items);
    k := |RequestOf(c, p, src)|;
    assert (hello + body)[..k] == hello + body[..k - |hello|];
    HelloRead(c, body, k, inbox);
  }

  /** A server that reads all but `left` bytes of the request before it answers. */
  lemma BlocksOnlyWithLeft(n: nat, left: nat, reply: nat, requestPipe: nat, replyPipe: nat, ms: seq<Move>)
    requires left <= n && requestPipe > 0 && replyPipe > 0
    ensures var d := Deal(n, n - left, reply, requestPipe, replyPipe);
            && (left == 0 ==> !Stuck(d, Moves(d, ms)))
            && (requestPipe < left && replyPipe < reply ==> CanStick(d))
  {
    hide Stuck;
    hide Moves;
    hide CanStick;
    var d := Deal(n, n - left, reply, requestPipe, replyPipe);
    if left == 0 {
      NoScheduleSticks(d, ms);
    } else if requestPipe < left && replyPipe < reply {
      SomeScheduleSticks(d);
    }
  }

  lemma LeftIsSome(c: Codec, s: Bytes, inbox: Inbox)
    requires Receive(c, s, inbox).Some?
    ensures |Receive(c, s, inbox).value.left| <= |s|
  {
    hide Serve;
    LeftOfServe(c, s[LineLen(s, HELLO_LIMIT)..], inbox, [], 0);
  }

  lemma {:induction false} LeftOfServe(c: Codec, s: Bytes, inbox: Inbox, answers: seq<Answer>, total: nat)
    ensures |Serve(c, s, inbox, answers, total).left| <= |s|
    decreases |s|
  {
    hide SafeRel;
    hide Store;
    hide LineLen;
    hide Chomp;
    var n := LineLen(s, HEADER_LIMIT);
    if n > 0 && c.dec(Chomp(s[..n])).Some? {
      var h := c.dec(Chomp(s[..n])).value;
      if !h.end && |answers| < MAX_FILES_RUN && ValidSize(h) {
        var more, length := s[n..], h.length.value;
        var after := more[Min(length, |more|)..];
        var rel := if h.path.Some? then SafeRel(h.path.value) else None;
        if rel.None? || total + length > MAX_RUN_SERVER {
          LeftOfServe(c, after, inbox, answers + [Answer(Clip(h.path), Rejected)], total);
        } else {
          var (stored, status) := Store(inbox, rel.value, h.offset.value, length, more[..Min(length, |more|)]);
          LeftOfServe(c, after, stored, answers + [Answer(rel, status)], total + length);
        }
      }
    }
  }
}
