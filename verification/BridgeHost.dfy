/** The two ends of the bridge as the imperative programs they are (pskit/bridge.py, bridge_push.py). */
module BridgeHost {
  import opened Common
  import opened BridgePaths
  import opened BridgeWire
  import opened BridgePlan
  import opened BridgeRuns
  import opened BridgeHistory
  import opened BridgeGuard

  const CHUNK: nat := 1024 * 1024

  /** A byte stream that is read once, in pieces of whatever size the system likes. */
  class Reader {
    const data: Bytes
    var pos: nat

    predicate Valid()
      reads this
    {
      pos <= |data|
    }

    function Rest(): Bytes
      reads this
      requires Valid()
    {
      data[pos..]
    }

    constructor (data: Bytes, pos: nat)
      requires pos <= |data|
      ensures Valid() && Rest() == data[pos..]
    {
      this.data, this.pos := data, pos;
    }

    /** `read(n)`: at least one byte while there is one. */
    method Read(n: nat) returns (chunk: Bytes)
      requires Valid()
      modifies this
      ensures Valid() && |chunk| <= n && chunk + Rest() == old(Rest())
      ensures chunk == [] ==> n == 0 || old(Rest()) == []
    {
      var k: nat := *;
      k := Min(Max(1, k), Min(n, |data| - pos));
      chunk := data[pos..pos + k];
      pos := pos + k;
    }

    method ReadLine(limit: nat) returns (line: Bytes)
      requires Valid()
      modifies this
      ensures Valid()
      ensures line == old(Rest())[..LineLen(old(Rest()), limit)] && Rest() == old(Rest())[|line|..]
    {
      var n := 0;
      while n < limit && pos + n < |data| && data[pos + n] != NL
        invariant n <= limit && pos + n <= |data|
        invariant LineLen(data[pos..], limit) == n + LineLen(data[pos + n..], limit - n)
      {
        assert data[pos + n..][1..] == data[pos + n + 1..];
        n := n + 1;
      }
      if n < limit && pos + n < |data| { n := n + 1; }
      line := data[pos..pos + n];
      pos := pos + n;
    }
  }

  /** `_read_exact`: up to `n` bytes, fewer only at the end of the stream. */
  method ReadExact(src: Reader, n: nat) returns (got: Bytes)
    requires src.Valid()
    modifies src
    ensures src.Valid()
    ensures var rest := old(src.Rest()); got == rest[..Min(n, |rest|)] && src.Rest() == rest[Min(n, |rest|)..]
  {
    got := [];
    var more := true;
    while |got| < n && more
      invariant src.Valid() && |got| <= n && got + src.Rest() == old(src.Rest())
      invariant !more ==> src.Rest() == []
      decreases n - |got|, more
    {
      var chunk := src.Read(Min(CHUNK, n - |got|));
      if chunk == [] { more := false; }
      got := got + chunk;
    }
  }

  lemma ServeContinues(c: Codec, s: Bytes, h: Head, inbox: Inbox, answers: seq<Answer>, total: nat)
    requires var n := LineLen(s, HEADER_LIMIT); n > 0 && c.dec(Chomp(s[..n])) == Some(h)
    requires !h.end && |answers| < MAX_FILES_RUN && ValidSize(h)
    ensures var more, length := s[LineLen(s, HEADER_LIMIT)..], h.length.value;
            var n := Min(length, |more|);
            var rel := if h.path.Some? then SafeRel(h.path.value) else None;
            Serve(c, s, inbox, answers, total)
            == if rel.None? || total + length > MAX_RUN_SERVER
               then Serve(c, more[n..], inbox, answers + [Answer(Clip(h.path), Rejected)], total)
               else var (stored, status) := Store(inbox, rel.value, h.offset.value, length, more[..n]);
                    Serve(c, more[n..], stored, answers + [Answer(rel, status)], total + length)
  {
    hide SafeRel;
    hide Store;
    hide LineLen;
    hide Chomp;
  }

  /** And where it ends. */
  lemma ServeEnds(c: Codec, s: Bytes, inbox: Inbox, answers: seq<Answer>, total: nat)
    ensures var n := LineLen(s, HEADER_LIMIT);
            var h := c.dec(Chomp(s[..n]));
            var r := Serve(c, s, inbox, answers, total);
            && (n == 0 ==> r == Served(inbox, answers, total, s))
            && (n > 0 && h.None? ==> r == Served(inbox, answers + [REFUSED], total, s[n..]))
            && (n > 0 && h.Some? && h.value.end ==> r == Served(inbox, answers, total, s[n..]))
            && (n > 0 && h.Some? && !h.value.end && (|answers| >= MAX_FILES_RUN || !ValidSize(h.value)) ==>
                  r == Served(inbox, answers + [REFUSED], total, s[n..]))
  {
    hide SafeRel;
    hide Store;
    hide LineLen;
    hide Chomp;
    hide ValidSize;
  }

  /** The receiving side: `<inbox>/<device>`. */
  class Server {
    var inbox: Inbox

    constructor ()
      ensures inbox == map[]
    {
      inbox := map[];
    }

    /** The append branch of `_store`: the file grows piece by piece while the stream is read. */
    method AppendExact(src: Reader, rel: string, n: nat) returns (got: nat)
      requires src.Valid() && rel in inbox
      modifies src, this
      ensures src.Valid()
      ensures var rest := old(src.Rest());
              && got == Min(n, |rest|) && src.Rest() == rest[got..]
              && inbox == old(inbox)[rel := old(inbox)[rel] + rest[..got]]
    {
      got := 0;
      var more := true;
      while got < n && more
        invariant src.Valid() && got <= n && got <= |old(src.Rest())| && src.Rest() == old(src.Rest())[got..]
        invariant rel in inbox && inbox[rel] == old(inbox)[rel] + old(src.Rest())[..got]
        invariant inbox == old(inbox)[rel := inbox[rel]]
        invariant !more ==> src.Rest() == []
        decreases n - got, more
      {
        var chunk := src.Read(Min(CHUNK, n - got));
        if chunk == [] {
          more := false;
        } else {
          assert old(src.Rest())[..got] + chunk == old(src.Rest())[..got + |chunk|];
          inbox := inbox[rel := inbox[rel] + chunk];
          got := got + |chunk|;
        }
      }
    }

    /** `_store`. */
    method StoreItem(src: Reader, rel: string, offset: nat, length: nat) returns (status: Status)
      requires src.Valid()
      modifies src, this
      ensures src.Valid()
      ensures var rest := old(src.Rest());
              var n := Min(length, |rest|);
              src.Rest() == rest[n..] && (inbox, status) == Store(old(inbox), rel, offset, length, rest[..n])
    {
      if offset == 0 {
        var got := ReadExact(src, length);
        if |got| != length { return Rejected; }
        inbox := inbox[rel := got];
        return Stored;
      }
      if rel !in inbox || |inbox[rel]| != offset {
        var _ := ReadExact(src, length);
        return Resync;
      }
      var got := AppendExact(src, rel, length);
      return if got == length then Stored else Resync;
    }

    /** `receive`: None is the protocol error. What it does to the inbox and answers is the function
        the theorems are about; `src` keeps what was never read. */
    method ReceiveRequest(c: Codec, src: Reader) returns (answers: Option<seq<Answer>>)
      requires src.Valid()
      modifies src, this
      ensures src.Valid()
      ensures var r := Receive(c, old(src.Rest()), old(inbox));
              if r.None? then answers == None && inbox == old(inbox)
              else answers == Some(r.value.answers) && inbox == r.value.inbox && src.Rest() == r.value.left
    {
      ghost var input := src.Rest();
      var first := src.ReadLine(HELLO_LIMIT);
      var hello := c.dec(Chomp(first));
      if hello.None? || hello.value.v != Some(PROTOCOL) { return None; }
      var results: seq<Answer> := [];
      var total := 0;
      ghost var whole := Serve(c, src.Rest(), inbox, [], 0);
      var going := true;
      while going
        invariant src.Valid()
        invariant going ==> Serve(c, src.Rest(), inbox, results, total) == whole
        invariant !going ==> Served(inbox, results, whole.total, src.Rest()) == whole
        decreases going, |src.Rest()|
      {
        going, results, total := ServeOne(c, src, results, total, whole);
      }
      return Some(results);
    }

    /** One turn of its loop. */
    method ServeOne(c: Codec, src: Reader, results: seq<Answer>, total: nat, ghost whole: Served)
      returns (going: bool, results': seq<Answer>, total': nat)
      requires src.Valid() && Serve(c, src.Rest(), inbox, results, total) == whole
      modifies src, this
      ensures src.Valid()
      ensures going ==> |src.Rest()| < |old(src.Rest())|
      ensures going ==> Serve(c, src.Rest(), inbox, results', total') == whole
      ensures !going ==> Served(inbox, results', whole.total, src.Rest()) == whole
    {
      hide SafeRel;
      hide Store;
      hide LineLen;
      hide Chomp;
      hide Serve;
      ServeEnds(c, src.Rest(), inbox, results, total);
      var line := src.ReadLine(HEADER_LIMIT);
      if line == [] { return false, results, total; }
      var head := c.dec(Chomp(line));
      if head.None? { return false, results + [REFUSED], total; }
      var h := head.value;
      if h.end { return false, results, total; }
      if |results| >= MAX_FILES_RUN { return false, results + [REFUSED], total; }
      if !ValidSize(h) { return false, results + [REFUSED], total; }
      ServeContinues(c, old(src.Rest()), h, inbox, results, total);
      going := true;
      results', total' := ServeItem(src, h, results, total);
    }

    /** A header within the limits: its payload is read whatever becomes of it. */
    method ServeItem(src: Reader, h: Head, results: seq<Answer>, total: nat)
      returns (results': seq<Answer>, total': nat)
      requires src.Valid() && ValidSize(h)
      modifies src, this
      ensures src.Valid()
      ensures var rest, length := old(src.Rest()), h.length.value;
              var n := Min(length, |rest|);
              var rel := if h.path.Some? then SafeRel(h.path.value) else None;
              && src.Rest() == rest[n..]
              && (if rel.None? || total + length > MAX_RUN_SERVER
                  then inbox == old(inbox) && results' == results + [Answer(Clip(h.path), Rejected)] && total' == total
                  else var (stored, status) := Store(old(inbox), rel.value, h.offset.value, length, rest[..n]);
                       inbox == stored && results' == results + [Answer(rel, status)] && total' == total + length)
    {
      hide SafeRel;
      hide Store;
      var length, offset := h.length.value, h.offset.value;
      var rel := if h.path.Some? then SafeRel(h.path.value) else None;
      if rel.None? || total + length > MAX_RUN_SERVER {
        var _ := ReadExact(src, length);
        return results + [Answer(Clip(h.path), Rejected)], total;
      }
      var status := StoreItem(src, rel.value, offset, length);
      return results + [Answer(rel, status)], total + length;
    }

    /** One file of it, read from where it lies. */
    method StoreLocal(f: LocalFile, off: nat, data: Bytes) returns (status: Status)
      requires off <= f.size
      modifies this
      ensures (inbox, status)
              == Store(old(inbox), f.rel, off, f.size - off, data[Min(off, |data|)..Min(f.size, |data|)])
    {
      hide Store;
      SliceOfRest(data, off, f.size);
      var fh := new Reader(data, Min(off, |data|));
      status := StoreItem(fh, f.rel, off, f.size - off);
    }

    /** `deliver_local`, after the plan is made. */
    method DeliverLocal(p: Plan, state: ClientState, src: Sources) returns (state': ClientState, delivered: nat)
      requires forall x :: x in p ==> x.1 <= x.0.size
      modifies this
      ensures (inbox, state', delivered) == LocalRun(p, old(inbox), state, src, 0)
    {
      hide LocalRun;
      hide Store;
      state', delivered := state, 0;
      assert p[0..] == p;
      for i := 0 to |p|
        invariant LocalRun(p[i..], inbox, state', src, delivered) == LocalRun(p, old(inbox), state, src, 0)
      {
        var (f, off) := p[i];
        assert p[i] in p;
        LocalStep(p, i, inbox, state', src, delivered);
        if f.rel in src {
          var status := StoreLocal(f, off, src[f.rel]);
          match status
          case Stored =>
            state' := state'[f.rel := NewEntry(f, src)];
            delivered := delivered + 1;
          case Resync => state' := state' - {f.rel};
          case Rejected =>
        }
      }
      assert p[|p|..] == [];
      LocalNone(inbox, state', src, delivered);
    }
  }

  lemma SliceOfRest(data: Bytes, off: nat, size: nat)
    requires off <= size
    ensures var rest := data[Min(off, |data|)..];
            rest[..Min(size - off, |rest|)] == data[Min(off, |data|)..Min(size, |data|)]
  {
  }

  lemma LocalStep(p: Plan, i: nat, inbox: Inbox, state: ClientState, src: Sources, delivered: nat)
    requires i < |p|
    ensures LocalRun(p[i..], inbox, state, src, delivered)
            == var (f, off) := p[i];
               if f.rel !in src || off > f.size then LocalRun(p[i + 1..], inbox, state, src, delivered)
               else
                 var got := src[f.rel][Min(off, |src[f.rel]|)..Min(f.size, |src[f.rel]|)];
                 var (stored, status) := Store(inbox, f.rel, off, f.size - off, got);
                 LocalRun(p[i + 1..], stored, Settle(state, f, Some(status), src), src,
                          delivered + if status == Stored then 1 else 0)
  {
    hide Store;
    hide Settle;
    assert p[i..][0] == p[i] && p[i..][1..] == p[i + 1..];
  }

  lemma LocalNone(inbox: Inbox, state: ClientState, src: Sources, delivered: nat)
    ensures LocalRun([], inbox, state, src, delivered) == (inbox, state, delivered)
  {
  }

  // ---------- the laptop ----------

  /** `plan`. */
  method MakePlan(files: seq<LocalFile>, state: ClientState, src: Sources, budget: nat) returns (out: Plan)
    ensures out == PlanOf(files, state, src, budget)
  {
    var sorted := SortByMtime(files);
    var todo := Choose(sorted, state, src);
    out := WithinBudget(todo, budget);
  }

  /** The first loop of `plan`. */
  method Choose(files: seq<LocalFile>, state: ClientState, src: Sources) returns (todo: Plan)
    ensures todo == Todo(files, state, src)
  {
    hide Todo;
    hide ToSend;
    hide OffsetFor;
    todo := [];
    assert files[0..] == files && [] + Todo(files, state, src) == Todo(files, state, src);
    for i := 0 to |files|
      invariant todo + Todo(files[i..], state, src) == Todo(files, state, src)
    {
      TodoStep(files, i, state, src);
      var more := Consider(files[i], state, src);
      PlansRegroup(todo, more, Todo(files[i + 1..], state, src));
      todo := todo + more;
    }
    TodoNone(state, src);
    assert files[|files|..] == [] && todo + [] == todo;
  }

  lemma PlansRegroup(a: Plan, b: Plan, c: Plan)
    ensures a + (b + c) == a + b + c
  {
  }

  /** Whether to send a file, and from where. */
  method Consider(f: LocalFile, state: ClientState, src: Sources) returns (more: Plan)
    ensures more == if ToSend(f, state, src) then [(f, OffsetFor(f, state, src))] else []
  {
    var known := f.rel in state;
    if known && state[f.rel].ino == f.ino && state[f.rel].size == f.size && state[f.rel].mtime == f.mtime {
      return [];
    }
    var offset := 0;
    if known && state[f.rel].ino == f.ino && f.size > state[f.rel].size && state[f.rel].tail.Some?
       && TailHash(src, f.rel, state[f.rel].size) == state[f.rel].tail {
      offset := state[f.rel].size;
    }
    if f.size == offset && offset > 0 { return []; }
    return [(f, offset)];
  }

  lemma TodoStep(files: seq<LocalFile>, i: nat, state: ClientState, src: Sources)
    requires i < |files|
    ensures Todo(files[i..], state, src)
            == (if ToSend(files[i], state, src) then [(files[i], OffsetFor(files[i], state, src))] else [])
               + Todo(files[i + 1..], state, src)
  {
    hide ToSend;
    hide OffsetFor;
    assert files[i..][1..] == files[i + 1..];
  }

  lemma TodoNone(state: ClientState, src: Sources)
    ensures Todo([], state, src) == []
  {
  }

  /** The second loop of `plan`. */
  method WithinBudget(todo: Plan, budget: nat) returns (out: Plan)
    ensures out == Take(todo, budget, 0, 0)
  {
    out := [];
    var used := 0;
    for i := 0 to |todo|
      invariant |out| == i
      invariant out + Take(todo[i..], budget, i, used) == Take(todo, budget, 0, 0)
    {
      assert todo[i..][1..] == todo[i + 1..];
      var cost := Cost(todo[i]);
      if |out| > 0 && (used + cost > budget || |out| >= MAX_FILES_RUN) {
        assert Take(todo[i..], budget, i, used) == [];
        return;
      }
      out := out + [todo[i]];
      used := used + cost;
    }
    assert todo[|todo|..] == [];
  }

  /** Opens a file, seeks, and reads what is to be sent of it, or what is left. */
  method ReadFile(data: Bytes, offset: nat, size: nat) returns (chunk: Bytes)
    requires offset <= size
    ensures chunk == data[Min(offset, |data|)..Min(size, |data|)]
  {
    var fh := new Reader(data, Min(offset, |data|));
    chunk := ReadExact(fh, size - offset);
  }

  /** `write_stream`. */
  method WriteStream(c: Codec, p: Plan, src: Sources) returns (out: Bytes, sent: Plan)
    requires forall x :: x in p ==> x.1 == 0 || x.1 < x.0.size
    ensures out == c.enc(HELLO) + [NL] + Written(c, p, src)
    ensures sent == SentOf(p, src)
  {
    hide Written;
    hide SentOf;
    out, sent := c.enc(HELLO) + [NL], [];
    ghost var start := out;
    assert p[0..] == p && [] + SentOf(p, src) == SentOf(p, src);
    for i := 0 to |p|
      invariant out + Written(c, p[i..], src) == start + Written(c, p, src)
      invariant sent + SentOf(p[i..], src) == SentOf(p, src)
    {
      var (f, offset) := p[i];
      assert p[i] in p;
      WrittenStep(c, p, i, src);
      if f.rel !in src { continue; }
      ghost var before, sentBefore := out, sent;
      var header := c.enc(Head(None, false, Some(f.rel), Some(offset), Some(f.size - offset))) + [NL];
      out := out + header;
      var chunk := ReadFile(src[f.rel], offset, f.size);
      out := out + chunk;
      if |chunk| < f.size - offset {
        assert out == before + (header + chunk + []);
        return;
      }
      sent := sent + [(f, offset)];
      Regroup(before, header, chunk, Written(c, p[i + 1..], src));
      assert sentBefore + ([(f, offset)] + SentOf(p[i + 1..], src)) == sent + SentOf(p[i + 1..], src);
    }
    assert p[|p|..] == [];
    WrittenNone(c, src);
    out := out + (c.enc(END) + [NL]);
    assert sent + [] == sent;
  }

  lemma Regroup(a: Bytes, b: Bytes, c: Bytes, d: Bytes)
    ensures a + (b + c + d) == a + b + c + d
  {
  }

  lemma WrittenNone(c: Codec, src: Sources)
    ensures Written(c, [], src) == c.enc(END) + [NL] && SentOf([], src) == []
  {
  }

  /** One turn of the loop of `write_stream`. */
  lemma WrittenStep(c: Codec, p: Plan, i: nat, src: Sources)
    requires i < |p| && (p[i].1 == 0 || p[i].1 < p[i].0.size)
    ensures var (f, off) := p[i];
            if f.rel !in src then
              && Written(c, p[i..], src) == Written(c, p[i + 1..], src)
              && SentOf(p[i..], src) == SentOf(p[i + 1..], src)
            else
              var data := src[f.rel];
              var header := c.enc(Head(None, false, Some(f.rel), Some(off), Some(f.size - off))) + [NL];
              var chunk := data[Min(off, |data|)..Min(f.size, |data|)];
              && Written(c, p[i..], src)
                 == header + chunk + (if |data| < f.size then [] else Written(c, p[i + 1..], src))
              && SentOf(p[i..], src) == if |data| < f.size then [] else [(f, off)] + SentOf(p[i + 1..], src)
  {
    assert p[i..][0] == p[i] && p[i..][1..] == p[i + 1..];
  }

  datatype AnswerLine = Garbage | Done | Says(answer: Answer)

  /** The answers the client sees: those before the final line, garbage left out. */
  function SaidIn(lines: seq<AnswerLine>): seq<Answer> {
    if |lines| == 0 || lines[0].Done? then []
    else (if lines[0].Says? then [lines[0].answer] else []) + SaidIn(lines[1..])
  }

  predicate DoneIn(lines: seq<AnswerLine>) {
    exists i :: 0 <= i < |lines| && lines[i].Done?
  }

  lemma StatusesSnoc(answers: seq<Answer>, a: Answer)
    ensures Statuses(answers + [a])
            == if a.path.Some? then Statuses(answers)[a.path.value := a.status] else Statuses(answers)
  {
    assert (answers + [a])[..|answers|] == answers;
  }

  /** `read_answers`. */
  method ReadAnswers(lines: seq<AnswerLine>) returns (statuses: map<string, Status>, done: bool)
    ensures statuses == Statuses(SaidIn(lines)) && done == DoneIn(lines)
  {
    hide Statuses;
    hide SaidIn;
    statuses, done := map[], false;
    ghost var said: seq<Answer> := [];
    StatusesNone();
    for i := 0 to |lines|
      invariant !done && forall j :: 0 <= j < i ==> !lines[j].Done?
      invariant said + SaidIn(lines[i..]) == SaidIn(lines) && statuses == Statuses(said)
    {
      SaidStep(lines, i);
      match lines[i]
      case Garbage =>
      case Done =>
        done := true;
        assert said + [] == said;
        return;
      case Says(a) =>
        StatusesSnoc(said, a);
        if a.path.Some? { statuses := statuses[a.path.value := a.status]; }
        assert said + ([a] + SaidIn(lines[i + 1..])) == said + [a] + SaidIn(lines[i + 1..]);
        said := said + [a];
    }
    SaidNone();
    assert lines[|lines|..] == [] && said + [] == said;
  }

  lemma SaidNone()
    ensures SaidIn([]) == []
  {
  }

  lemma StatusesNone()
    ensures Statuses([]) == map[]
  {
  }

  lemma SaidStep(lines: seq<AnswerLine>, i: nat)
    requires i < |lines|
    ensures SaidIn(lines[i..])
            == if lines[i].Done? then []
               else (if lines[i].Says? then [lines[i].answer] else []) + SaidIn(lines[i + 1..])
  {
    assert lines[i..][1..] == lines[i + 1..];
  }

  lemma {:induction false} SaidAll(lines: seq<AnswerLine>, answers: seq<Answer>)
    requires |lines| == |answers| && forall i :: 0 <= i < |lines| ==> lines[i] == Says(answers[i])
    ensures SaidIn(lines) == answers
  {
    if |lines| > 0 { SaidAll(lines[1..], answers[1..]); }
  }

  lemma {:induction false} WrittenWhole(c: Codec, p: Plan, src: Sources)
    requires forall x :: x in p && x.0.rel in src ==> x.0.size <= |src[x.0.rel]|
    ensures Written(c, p, src) == Body(c, Frames(p, src))
  {
    if |p| > 0 {
      assert p[0] in p;
      WrittenWhole(c, p[1..], src);
      var (f, off) := p[0];
      if f.rel in src && off <= f.size {
        var it := Item(f.rel, off, src[f.rel][off..f.size]);
        assert Frames(p, src) == [it] + Frames(p[1..], src);
        assert ([it] + Frames(p[1..], src))[1..] == Frames(p[1..], src);
      }
    }
  }

  /** What the laptop keeps for one server. */
  class Client {
    var files: ClientState

    constructor ()
      ensures files == map[]
    {
      files := map[];
    }

    /** `update_state`. */
    method UpdateState(sent: Plan, statuses: map<string, Status>, src: Sources) returns (delivered: nat)
      modifies this
      ensures files == Update(old(files), sent, statuses, src)
      ensures delivered == OkCount(sent, statuses)
    {
      delivered := 0;
      for i := 0 to |sent|
        invariant Update(files, sent[i..], statuses, src) == Update(old(files), sent, statuses, src)
        invariant delivered + OkCount(sent[i..], statuses) == OkCount(sent, statuses)
      {
        var f := sent[i].0;
        assert sent[i..][1..] == sent[i + 1..];
        var st := if f.rel in statuses then Some(statuses[f.rel]) else None;
        if st == Some(Stored) {
          files := files[f.rel := NewEntry(f, src)];
          delivered := delivered + 1;
        } else if st == Some(Resync) {
          files := files - {f.rel};
        }
      }
      assert sent[|sent|..] == [];
    }

    /** The server's side of a run, over a connection that may end anywhere: it gets a beginning of the
        request, and a beginning of its answers comes back. */
    method Exchange(c: Codec, server: Server, request: Bytes) returns (cut: nat, heard: nat, lines: seq<AnswerLine>)
      modifies server
      ensures var r := Receive(c, request[..Min(cut, |request|)], old(server.inbox));
              && server.inbox == (if r.None? then old(server.inbox) else r.value.inbox)
              && SaidIn(lines) == if r.None? then [] else r.value.answers[..Min(heard, |r.value.answers|)]
    {
      cut, heard := *, *;
      var input := request[..Min(cut, |request|)];
      var src := new Reader(input, 0);
      assert src.Rest() == input;
      var answers := server.ReceiveRequest(c, src);
      lines := [];
      if answers.Some? {
        var some := answers.value[..Min(heard, |answers.value|)];
        lines := seq(|some|, i requires 0 <= i < |some| => Says(some[i]));
        SaidAll(lines, some);
      }
    }

    /** `push`: plan, write, hear, remember. `now`, `sending` and `done` are the sources when it plans,
        writes and remembers, and `closed` the files that do not open. Whatever the connection and the
        process do, the run is one of the runs the theorems about histories speak of. */
    method PushTo(c: Codec, server: Server, scan: seq<LocalFile>, budget: nat, now: Disk, sending: Disk,
                  closed: set<string>, done: Disk) returns (ghost e: Push)
      requires ScanOf(scan, now) && Grows(now, sending) && Grows(sending, done)
      modifies this, server
      ensures e == Push(scan, budget, sending, closed, e.cut, e.heard, e.failed, done)
      ensures World(done, server.inbox, files) == Step(c, World(now, old(server.inbox), old(files)), Run(e))
    {
      ghost var w := World(now, server.inbox, files);
      var plan := MakePlan(scan, files, Contents(now), budget);
      var open := Contents(sending - closed);
      PlanIs(scan, files, Contents(now), budget);
      forall x | x in plan && x.0.rel in open ensures x.0.size <= |open[x.0.rel]| {
        assert x.0 in scan;
      }
      WrittenWhole(c, plan, open);
      var stream, sent := WriteStream(c, plan, open);
      var cut, heard, lines := Exchange(c, server, stream);
      var failed: bool := *;   // a broken pipe, a timeout or a dead process: nothing is remembered
      e := Push(scan, budget, sending, closed, cut, heard, failed, done);
      assert stream == Stream(c, Items(w, e));
      if !failed {
        var statuses, _ := ReadAnswers(lines);
        var _ := UpdateState(sent, statuses, Contents(done));
      }
    }
  }
}
