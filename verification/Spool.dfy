/**
 The alert queue of pskit/notify.py: messages are files in a spool, delivery is a loop over the two
 folders, and a message that could not be sent waits in the retry folder.

 One event is one file write or removal of a delivery, one message dropped into the spool, or a crash.
 Only one delivery runs at a time (the lock); messages may arrive between any two of its writes.
 Folder entries that are not messages, and what the channels do with a text, are not part of this model.
 */
module Spool {
  import opened Common
  import opened Cooldown

  const MAX_FILE_BYTES := 16384
  const MAX_TITLE := 200
  const MAX_BODY := 3000
  const MAX_KEY := 120

  datatype Message = Message(severity: string, title: string, body: string, key: string, hours: real)

  /** A queued file: its size, and what parsing it gives. */
  datatype File = File(size: nat, parsed: Option<Message>)

  predicate Known(severity: string) {
    severity == "critical" || severity == "warn" || severity == "info"
  }

  function Clip(s: string, n: nat): string {
    if |s| <= n then s else s[..n]
  }

  /** The message `deliver` makes of a file, or nothing if it throws the file away as invalid. */
  function Accept(file: File): Option<Message> {
    match file.parsed
    case None => None
    case Some(m) =>
      if file.size > MAX_FILE_BYTES || !Known(m.severity) then None
      else Some(m.(title := Clip(m.title, MAX_TITLE), body := Clip(m.body, MAX_BODY), key := Clip(m.key, MAX_KEY)))
  }

  // ---------- what enqueue writes ----------

  function StripLeft(s: string): string {
    if |s| > 0 && IsSpace(s[0]) then StripLeft(s[1..]) else s
  }

  function Strip(s: string): string {
    var t := StripLeft(s);
    StripRight(t)
  }

  function StripRight(s: string): string {
    if |s| > 0 && IsSpace(s[|s| - 1]) then StripRight(s[..|s| - 1]) else s
  }

  /** Bytes of one character in the file: JSON restricted to ASCII. */
  function CharLen(c: char): nat {
    var n := c as int;
    if c == '"' || c == '\\' || n == 8 || n == 9 || n == 10 || n == 12 || n == 13 then 2
    else if 32 <= n <= 126 then 1
    else if n < 0x10000 then 6
    else 12
  }

  function JsonLen(s: string): nat {
    if |s| == 0 then 0 else JsonLen(s[..|s| - 1]) + CharLen(s[|s| - 1])
  }

  /** Bytes of a queued message, `frame` of them for names, numbers and the source. */
  function Encoded(m: Message, frame: nat): nat {
    JsonLen(m.severity) + JsonLen(m.title) + JsonLen(m.body) + JsonLen(m.key) + frame
  }

  /** The message `enqueue` writes, or nothing when it raises. */
  function Compose(severity: string, title: string, body: string, key: string, hours: real): Option<Message> {
    if !Known(severity) || Strip(title) == "" then None
    else Some(Message(severity, Clip(Strip(title), MAX_TITLE), Clip(Strip(body), MAX_BODY), Clip(key, MAX_KEY), hours))
  }

  // ---------- the disk and its writes ----------

  datatype Place = Retry | Incoming

  datatype Ref = Ref(place: Place, name: nat)

  datatype Disk = Disk(incoming: map<nat, File>, retry: map<nat, File>, stamps: Stamps)

  predicate Has(d: Disk, r: Ref) {
    match r.place
    case Retry => r.name in d.retry
    case Incoming => r.name in d.incoming
  }

  function FileAt(d: Disk, r: Ref): File
    requires Has(d, r)
  {
    match r.place
    case Retry => d.retry[r.name]
    case Incoming => d.incoming[r.name]
  }

  /** Why a file is removed. */
  datatype Why = Invalid | HeldBack | Done | Moved

  datatype Write =
    | Stamp(key: string, hours: real)
    | HandOver(name: nat, message: Message)    // to the channel, or to the digest for info
    | Keep(name: nat, file: File)              // into the retry folder
    | Drop(ref: Ref, why: Why)

  /** The writes `deliver` makes for one file, `up` telling whether the channel would take it. */
  function Script(d: Disk, now: real, r: Ref, up: bool): seq<Write>
    requires Has(d, r)
  {
    var file := FileAt(d, r);
    match Accept(file)
    case None => [Drop(r, Invalid)]
    case Some(m) =>
      if !Verdict(d.stamps, m.key, m.hours, now) then [Drop(r, HeldBack)]
      else
        (if Free(m.key, m.hours) then [] else [Stamp(m.key, m.hours)])
        + (if m.severity == "info" || up then [HandOver(r.name, m), Drop(r, Done)]
           else if r.place.Incoming? then [Keep(r.name, file), Drop(r, Moved)]
           else [])
  }

  /** The loop ends at a message the channel did not take. */
  predicate Stops(d: Disk, now: real, r: Ref, up: bool)
    requires Has(d, r)
  {
    var m := Accept(FileAt(d, r));
    m.Some? && Verdict(d.stamps, m.value.key, m.value.hours, now) && m.value.severity != "info" && !up
  }

  // ---------- the machine ----------

  /** A delivery at work: the files still to look at, and the writes still to make for the current one. */
  datatype Proc = Idle | Busy(now: real, queue: seq<Ref>, todo: seq<Write>)

  datatype Handed = Handed(name: nat, message: Message)

  datatype Held = Held(at: real, calls: nat)

  /** What has happened, for stating properties. */
  datatype Past = Past(queued: map<nat, File>, out: seq<Handed>, refused: set<nat>, held: map<nat, Held>,
                       calls: seq<Call>)

  datatype Machine = Machine(disk: Disk, proc: Proc, past: Past)

  datatype Event =
    | Enqueue(name: nat, file: File)
    | Begin(at: real, inRetry: seq<nat>, inSpool: seq<nat>)
    | Handle(up: bool)
    | Do
    | Finish
    | Crash

  function Fresh(): Machine {
    Machine(Disk(map[], map[], map[]), Idle, Past(map[], [], {}, map[], []))
  }

  function Refs(place: Place, names: seq<nat>): (r: seq<Ref>)
    ensures |r| == |names| && forall i :: 0 <= i < |names| ==> r[i] == Ref(place, names[i])
  {
    seq(|names|, i requires 0 <= i < |names| => Ref(place, names[i]))
  }

  /** `sorted(base.iterdir())`. */
  ghost predicate Listing(files: map<nat, File>, names: seq<nat>) {
    && (forall i, j :: 0 <= i < j < |names| ==> names[i] < names[j])
    && (forall n :: n in names <==> n in files)
  }

  ghost predicate Legal(s: Machine, e: Event) {
    match e
    case Enqueue(name, _) => name !in s.past.queued
    case Begin(at, inRetry, inSpool) =>
      s.proc.Idle? && Listing(s.disk.retry, inRetry) && Listing(s.disk.incoming, inSpool)
    case Handle(_) => s.proc.Busy? && s.proc.todo == [] && s.proc.queue != [] && Has(s.disk, s.proc.queue[0])
    case Do => s.proc.Busy? && s.proc.todo != []
    case Finish => s.proc.Busy? && s.proc.todo == [] && s.proc.queue == []
    case Crash => true
  }

  function Make(s: Machine, now: real, w: Write): Machine {
    var d, past := s.disk, s.past;
    match w
    case Stamp(key, hours) =>
      s.(disk := d.(stamps := Stamped(d.stamps, key, now)),
         past := past.(calls := past.calls + [Call(key, hours, now)]))
    case HandOver(name, m) => s.(past := past.(out := past.out + [Handed(name, m)]))
    case Keep(name, file) => s.(disk := d.(retry := d.retry[name := file]))
    case Drop(r, why) =>
      s.(disk := if r.place.Retry? then d.(retry := d.retry - {r.name}) else d.(incoming := d.incoming - {r.name}),
         past := match why
                 case Invalid => past.(refused := past.refused + {r.name})
                 case HeldBack => past.(held := past.held[r.name := Held(now, |past.calls|)])
                 case _ => past)
  }

  function Next(s: Machine, e: Event): Machine
    requires Legal(s, e)
  {
    match e
    case Enqueue(name, file) =>
      s.(disk := s.disk.(incoming := s.disk.incoming[name := file]),
         past := s.past.(queued := s.past.queued[name := file]))
    case Begin(at, inRetry, inSpool) =>
      s.(proc := Busy(at, Refs(Retry, inRetry) + Refs(Incoming, inSpool), []))
    case Handle(up) =>
      var r := s.proc.queue[0];
      s.(proc := Busy(s.proc.now, if Stops(s.disk, s.proc.now, r, up) then [] else s.proc.queue[1..],
                      Script(s.disk, s.proc.now, r, up)))
    case Do => Make(s, s.proc.now, s.proc.todo[0]).(proc := s.proc.(todo := s.proc.todo[1..]))
    case Finish => s.(proc := Idle)
    case Crash => s.(proc := Idle)
  }

  ghost predicate Runs(es: seq<Event>)
    decreases |es|, 0
  {
    |es| == 0 || (Runs(es[..|es| - 1]) && Legal(After(es[..|es| - 1]), es[|es| - 1]))
  }

  ghost function After(es: seq<Event>): Machine
    requires Runs(es)
    decreases |es|, 1
  {
    if |es| == 0 then Fresh() else Next(After(es[..|es| - 1]), es[|es| - 1])
  }

  // ---------- what went where ----------

  function ToChannel(out: seq<Handed>): seq<Handed> {
    if |out| == 0 then []
    else ToChannel(out[..|out| - 1]) + if out[|out| - 1].message.severity == "info" then [] else [out[|out| - 1]]
  }

  function ToDigest(out: seq<Handed>): seq<Handed> {
    if |out| == 0 then []
    else ToDigest(out[..|out| - 1]) + if out[|out| - 1].message.severity == "info" then [out[|out| - 1]] else []
  }
}
