/**
 `enqueue`, `_cooldown_ok` and `deliver` of pskit/notify.py as they work on the folders.

 Every write is logged, so the object always stands at the end of a run of the machine, and what is
 proved of all runs holds at each moment of a delivery. Messages may arrive before any write.
 */
module SpoolHost {
  import opened Common
  import opened Cooldown
  import opened Spool
  import opened SpoolOrder
  import SpoolTheorems

  datatype Stats = Stats(sent: nat, digest: nat, suppressed: nat, failed: nat, invalid: nat)

  const NO_STATS := Stats(0, 0, 0, 0, 0)

  /** What one file adds to the counters. */
  function Counted(before: Stats, d: Disk, now: real, r: Ref, up: bool): Stats
    requires Has(d, r)
  {
    match Accept(FileAt(d, r))
    case None => before.(invalid := before.invalid + 1)
    case Some(m) =>
      if !Verdict(d.stamps, m.key, m.hours, now) then before.(suppressed := before.suppressed + 1)
      else if m.severity == "info" then before.(digest := before.digest + 1)
      else if up then before.(sent := before.sent + 1)
      else before.(failed := before.failed + 1)
  }

  lemma SentSnoc(out: seq<Handed>, h: Handed)
    ensures ToChannel(out + [h]) == ToChannel(out) + if h.message.severity == "info" then [] else [h]
    ensures ToDigest(out + [h]) == ToDigest(out) + if h.message.severity == "info" then [h] else []
  {
    assert (out + [h])[..|out|] == out;
  }

  class Notifier {
    var incoming: map<nat, File>
    var retry: map<nat, File>
    var stamps: Stamps
    var channel: seq<Handed>
    var digest: seq<Handed>
    var clock: nat    // of the file names
    ghost var trail: seq<Event>

    ghost predicate Valid()
      reads this
    {
      Runs(trail) && Mirrored()
    }

    /** The fields are what the log made of them. */
    ghost predicate Mirrored()
      reads this
      requires Runs(trail)
    {
      && Orderly(trail)
      && Now().disk == Disk(incoming, retry, stamps)
      && channel == ToChannel(Now().past.out) && digest == ToDigest(Now().past.out)
      && forall n :: n in Now().past.queued ==> n < clock
    }

    ghost function Now(): Machine
      reads this
      requires Runs(trail)
    {
      After(trail)
    }

    constructor ()
      ensures Valid() && trail == [] && incoming == map[] && retry == map[] && channel == [] && digest == []
    {
      incoming, retry, stamps, channel, digest, clock, trail := map[], map[], map[], [], [], 0, [];
    }

    // ---------- single writes ----------

    /** The write a delivery makes next. */
    ghost predicate Due(w: Write)
      reads this
      requires Runs(trail)
    {
      Now().proc.Busy? && |Now().proc.todo| > 0 && Now().proc.todo[0] == w
    }

    method WriteStamps(key: string, hours: real, now: real)
      requires Valid() && Due(Stamp(key, hours)) && Now().proc.now == now
      modifies this`stamps, this`trail
      ensures Valid() && trail == old(trail) + [Do] && Now() == Next(old(Now()), Do)
    {
      hide After;
      hide Runs;
      hide Orderly;
      hide ToChannel;
      hide ToDigest;
      hide Stamped;
      OrderlySnoc(trail, Do);
      trail := trail + [Do];
      stamps := Stamped(stamps, key, now);
    }

    method Send(name: nat, m: Message)
      requires Valid() && Due(HandOver(name, m)) && m.severity != "info"
      modifies this`channel, this`trail
      ensures Valid() && trail == old(trail) + [Do] && Now() == Next(old(Now()), Do)
      ensures channel == old(channel) + [Handed(name, m)]
    {
      hide After;
      hide Runs;
      hide Orderly;
      hide ToChannel;
      hide ToDigest;
      hide Stamped;
      OrderlySnoc(trail, Do);
      SentSnoc(Now().past.out, Handed(name, m));
      trail := trail + [Do];
      channel := channel + [Handed(name, m)];
    }

    method AppendDigest(name: nat, m: Message)
      requires Valid() && Due(HandOver(name, m)) && m.severity == "info"
      modifies this`digest, this`trail
      ensures Valid() && trail == old(trail) + [Do] && Now() == Next(old(Now()), Do)
      ensures digest == old(digest) + [Handed(name, m)]
    {
      hide After;
      hide Runs;
      hide Orderly;
      hide ToChannel;
      hide ToDigest;
      hide Stamped;
      OrderlySnoc(trail, Do);
      SentSnoc(Now().past.out, Handed(name, m));
      trail := trail + [Do];
      digest := digest + [Handed(name, m)];
    }

    method KeepForRetry(name: nat, file: File)
      requires Valid() && Due(Keep(name, file))
      modifies this`retry, this`trail
      ensures Valid() && trail == old(trail) + [Do] && Now() == Next(old(Now()), Do)
    {
      hide After;
      hide Runs;
      hide Orderly;
      hide ToChannel;
      hide ToDigest;
      hide Stamped;
      OrderlySnoc(trail, Do);
      trail := trail + [Do];
      retry := retry[name := file];
    }

    method Remove(r: Ref, ghost why: Why)
      requires Valid() && Due(Drop(r, why))
      modifies this`incoming, this`retry, this`trail
      ensures Valid() && trail == old(trail) + [Do] && Now() == Next(old(Now()), Do)
    {
      hide After;
      hide Runs;
      hide Orderly;
      hide ToChannel;
      hide ToDigest;
      hide Stamped;
      OrderlySnoc(trail, Do);
      trail := trail + [Do];
      if r.place.Retry? {
        retry := retry - {r.name};
      } else {
        incoming := incoming - {r.name};
      }
    }

    // ---------- enqueue ----------

    /** A file comes into the spool, named after a clock that has moved on. */
    method Arrive(file: File, ticks: nat) returns (name: nat)
      requires Valid()
      modifies this`incoming, this`clock, this`trail
      ensures Valid() && name == old(clock) + ticks && name < clock
      ensures trail == old(trail) + [Enqueue(name, file)] && Now() == Next(old(Now()), Enqueue(name, file))
    {
      hide After;
      hide Runs;
      hide Orderly;
      hide ToChannel;
      hide ToDigest;
      name := clock + ticks;
      OrderlySnoc(trail, Enqueue(name, file));
      trail := trail + [Enqueue(name, file)];
      incoming := incoming[name := file];
      clock := name + 1;
    }

    method Queue(severity: string, title: string, body: string, key: string, hours: real, frame: nat, ticks: nat)
      returns (r: Result<nat, string>)
      requires Valid()
      modifies this`incoming, this`clock, this`trail
      ensures Valid() && Now().proc == old(Now()).proc && (r.Ok? ==> r.value < clock)
      ensures r.Ok? <==> Compose(severity, title, body, key, hours).Some?
      ensures r.Err? ==> trail == old(trail) && incoming == old(incoming)
      ensures r.Ok? ==> var m := Compose(severity, title, body, key, hours).value;
                        && r.value >= old(clock)
                        && trail == old(trail) + [Enqueue(r.value, File(Encoded(m, frame), Some(m)))]
                        && incoming == old(incoming)[r.value := File(Encoded(m, frame), Some(m))]
    {
      if !Known(severity) { return Err("severity"); }
      if Strip(title) == "" { return Err("title is required"); }
      var m := Message(severity, Clip(Strip(title), MAX_TITLE), Clip(Strip(body), MAX_BODY), Clip(key, MAX_KEY), hours);
      var name := Arrive(File(Encoded(m, frame), Some(m)), ticks);
      return Ok(name);
    }

    // ---------- deliver ----------

    /** `_cooldown_ok`: asks the table, and stamps it when the answer is yes. */
    method CooldownOk(key: string, hours: real, now: real) returns (ok: bool)
      requires Valid() && Now().proc.Busy? && Now().proc.now == now
      requires Verdict(stamps, key, hours, now) && !Free(key, hours) ==> Due(Stamp(key, hours))
      modifies this`stamps, this`trail
      ensures Valid() && ok == Verdict(old(stamps), key, hours, now)
      ensures stamps == Updated(old(stamps), key, hours, now)
      ensures if ok && !Free(key, hours) then trail == old(trail) + [Do] && Now() == Next(old(Now()), Do)
              else trail == old(trail)
    {
      if key == "" || hours <= 0.0 { return true; }
      if key in stamps && now - stamps[key] < hours * 3600.0 { return false; }
      WriteStamps(key, hours, now);
      return true;
    }

    static method Lowest(names: set<nat>) returns (low: nat)
      requires names != {}
      ensures low in names && forall n :: n in names ==> low <= n
    {
      low :| low in names;
      var rest := names - {low};
      while rest != {}
        invariant low in names && rest <= names
        invariant forall n :: n in names && n !in rest ==> low <= n
        decreases |rest|
      {
        var n :| n in rest;
        if n < low { low := n; }
        rest := rest - {n};
      }
    }

    /** `sorted(base.iterdir())` of one folder. */
    static method Sorted(files: map<nat, File>) returns (names: seq<nat>)
      ensures Listing(files, names)
    {
      names := [];
      var left := files.Keys;
      while left != {}
        invariant left <= files.Keys
        invariant forall n :: n in names <==> n in files && n !in left
        invariant forall i, j :: 0 <= i < j < |names| ==> names[i] < names[j]
        invariant forall i, n :: 0 <= i < |names| && n in left ==> names[i] < n
        decreases |left|
      {
        var low := Lowest(left);
        names := names + [low];
        left := left - {low};
      }
    }

    /** A delivery begins with the list of what is queued. */
    method PendingFiles(now: real) returns (list: seq<Ref>)
      requires Valid() && Now().proc.Idle?
      modifies this`trail
      ensures Valid() && Now() == old(Now()).(proc := Busy(now, list, []))
      ensures |trail| == |old(trail)| + 1 && old(trail) == trail[..|old(trail)|]
      ensures forall r :: r in list <==> Has(Now().disk, r)
    {
      hide After;
      hide Runs;
      hide Orderly;
      hide ToChannel;
      hide ToDigest;
      var inRetry := Sorted(retry);
      var inSpool := Sorted(incoming);
      OrderlySnoc(trail, Begin(now, inRetry, inSpool));
      trail := trail + [Begin(now, inRetry, inSpool)];
      list := Refs(Retry, inRetry) + Refs(Incoming, inSpool);
      Listed(Now().disk, inRetry, inSpool);
    }

    static lemma Listed(d: Disk, inRetry: seq<nat>, inSpool: seq<nat>)
      requires Listing(d.retry, inRetry) && Listing(d.incoming, inSpool)
      ensures forall r :: r in Refs(Retry, inRetry) + Refs(Incoming, inSpool) <==> Has(d, r)
    {
      var list := Refs(Retry, inRetry) + Refs(Incoming, inSpool);
      forall r ensures r in list <==> Has(d, r) {
        if r in list {
          var i :| 0 <= i < |list| && list[i] == r;
          if i < |inRetry| { assert inRetry[i] in inRetry; } else { assert inSpool[i - |inRetry|] in inSpool; }
        }
        if Has(d, r) && r.place.Retry? {
          var i :| 0 <= i < |inRetry| && inRetry[i] == r.name;
          assert list[i] == r;
        }
        if Has(d, r) && r.place.Incoming? {
          var i :| 0 <= i < |inSpool| && inSpool[i] == r.name;
          assert list[|inRetry| + i] == r;
        }
      }
    }

    /** The file in hand is thrown away. */
    method Discard(r: Ref, ghost why: Why)
      requires Valid() && Now().proc.Busy? && Now().proc.todo == [Drop(r, why)]
      modifies this`incoming, this`retry, this`trail
      ensures Valid() && Grows(old(trail)) && Now().proc == old(Now()).proc.(todo := [])
      ensures forall q :: Has(Now().disk, q) <==> q != r && Has(old(Now()).disk, q)
      ensures Now().past.out == old(Now()).past.out
    {
      hide After;
      hide Runs;
      hide Orderly;
      hide ToChannel;
      hide ToDigest;
      Remove(r, why);
    }

    /** The message in hand goes out, to the digest or to the channel, and its file is removed. */
    method Pass(r: Ref, m: Message)
      requires Valid() && Now().proc.Busy? && Now().proc.todo == [HandOver(r.name, m), Drop(r, Done)]
      modifies this`incoming, this`retry, this`channel, this`digest, this`trail
      ensures Valid() && Grows(old(trail)) && Now().proc == old(Now()).proc.(todo := [])
      ensures forall q :: Has(Now().disk, q) <==> q != r && Has(old(Now()).disk, q)
      ensures Now().past.out == old(Now()).past.out + [Handed(r.name, m)]
      ensures channel == old(channel) + if m.severity == "info" then [] else [Handed(r.name, m)]
      ensures digest == old(digest) + if m.severity == "info" then [Handed(r.name, m)] else []
    {
      hide After;
      hide Runs;
      hide Orderly;
      hide ToChannel;
      hide ToDigest;
      if m.severity == "info" {
        AppendDigest(r.name, m);
      } else {
        Send(r.name, m);
      }
      Remove(r, Done);
    }

    /** The channel did not take it: the file moves to the retry folder unless it is there. */
    method Retain(r: Ref, file: File)
      requires Valid() && Now().proc.Busy?
      requires Now().proc.todo == if r.place.Incoming? then [Keep(r.name, file), Drop(r, Moved)] else []
      modifies this`incoming, this`retry, this`trail
      ensures Valid() && Grows(old(trail)) && Now().proc == old(Now()).proc.(todo := [])
      ensures forall q: Ref :: q.place.Incoming? && q != r ==> (Has(Now().disk, q) <==> Has(old(Now()).disk, q))
      ensures Now().past.out == old(Now()).past.out
    {
      hide After;
      hide Runs;
      hide Orderly;
      hide ToChannel;
      hide ToDigest;
      if r.place.Incoming? {
        KeepForRetry(r.name, file);
        Remove(r, Moved);
      }
    }

    ghost predicate Grows(before: seq<Event>)
      reads this
    {
      |before| <= |trail| && trail[..|before|] == before
    }

    /** What is left to do for a message once its cooldown is settled. */
    ghost function Rest(r: Ref, file: File, m: Message, up: bool): seq<Write> {
      if m.severity == "info" || up then [HandOver(r.name, m), Drop(r, Done)]
      else if r.place.Incoming? then [Keep(r.name, file), Drop(r, Moved)]
      else []
    }

    /** Settles the cooldown of the message in hand. */
    method Admit(m: Message, now: real, ghost rest: seq<Write>) returns (ok: bool)
      requires Valid() && Now().proc.Busy? && Now().proc.now == now
      requires Verdict(stamps, m.key, m.hours, now) ==>
                 Now().proc.todo == (if Free(m.key, m.hours) then [] else [Stamp(m.key, m.hours)]) + rest
      modifies this`stamps, this`trail
      ensures Valid() && Grows(old(trail)) && ok == Verdict(old(stamps), m.key, m.hours, now)
      ensures Now().proc == if ok then old(Now()).proc.(todo := rest) else old(Now()).proc
      ensures forall q :: Has(Now().disk, q) <==> Has(old(Now()).disk, q)
      ensures Now().past.out == old(Now()).past.out
    {
      hide After;
      hide Runs;
      hide Orderly;
      hide ToChannel;
      hide ToDigest;
      ok := CooldownOk(m.key, m.hours, now);
    }

    /** What `deliver` does with a message it may send. */
    method Dispatch(r: Ref, file: File, m: Message, up: bool, before: Stats) returns (stats: Stats, stop: bool)
      requires Valid() && Now().proc.Busy? && Now().proc.todo == Rest(r, file, m, up)
      modifies this`incoming, this`retry, this`channel, this`digest, this`trail
      ensures Valid() && Grows(old(trail)) && Now().proc == old(Now()).proc.(todo := [])
      ensures stop == (m.severity != "info" && !up)
      ensures stats == if m.severity == "info" then before.(digest := before.digest + 1)
                       else if up then before.(sent := before.sent + 1) else before.(failed := before.failed + 1)
      ensures !stop ==> forall q :: Has(Now().disk, q) <==> q != r && Has(old(Now()).disk, q)
      ensures |channel| - |old(channel)| == stats.sent - before.sent && old(channel) <= channel
      ensures |digest| - |old(digest)| == stats.digest - before.digest && old(digest) <= digest
      ensures |Now().past.out| - |old(Now()).past.out| == stats.sent + stats.digest - before.sent - before.digest
    {
      hide After;
      hide Runs;
      hide Mirrored;
      hide Has;
      hide Grows;
      stop := false;
      if m.severity == "info" {
        Pass(r, m);
        stats := before.(digest := before.digest + 1);
      } else if up {
        Pass(r, m);
        stats := before.(sent := before.sent + 1);
      } else {
        stats := before.(failed := before.failed + 1);
        Retain(r, file);
        stop := true;
      }
    }

    /** One turn of the loop of `deliver`. */
    method HandleOne(r: Ref, now: real, up: bool, before: Stats) returns (stats: Stats, stop: bool)
      requires Valid() && Now().proc.Busy? && Now().proc.now == now && Now().proc.todo == []
      requires |Now().proc.queue| > 0 && Now().proc.queue[0] == r && Has(Now().disk, r)
      modifies this`incoming, this`retry, this`stamps, this`channel, this`digest, this`trail
      ensures Valid() && Grows(old(trail))
      ensures Now().proc == Busy(now, if stop then [] else old(Now()).proc.queue[1..], [])
      ensures stats == Counted(before, old(Now()).disk, now, r, up)
      ensures stats.failed == before.failed + (if stop then 1 else 0) && (stop ==> !up)
      ensures stop == Stops(old(Now()).disk, now, r, up)
      ensures !stop ==> forall q :: Has(Now().disk, q) <==> q != r && Has(old(Now()).disk, q)
      ensures |channel| - |old(channel)| == stats.sent - before.sent && old(channel) <= channel
      ensures |digest| - |old(digest)| == stats.digest - before.digest && old(digest) <= digest
      ensures |Now().past.out| - |old(Now()).past.out| == stats.sent + stats.digest - before.sent - before.digest
    {
      hide After;
      hide Runs;
      hide Orderly;
      hide ToChannel;
      hide ToDigest;
      hide Accept;
      hide Verdict;
      hide Stops;
      hide Free;
      stats, stop := before, false;
      var file := Take(r, now, up);
      hide Mirrored;
      hide Has;
      match Accept(file) {
        case None =>
          stats := stats.(invalid := stats.invalid + 1);
          Discard(r, Invalid);
        case Some(m) =>
          var ok := Admit(m, now, Rest(r, file, m, up));
          if !ok {
            stats := stats.(suppressed := stats.suppressed + 1);
            Discard(r, HeldBack);
          } else {
            stats, stop := Dispatch(r, file, m, up, stats);
          }
      }
    }

    /** Reads the next file. */
    method Take(r: Ref, now: real, ghost up: bool) returns (file: File)
      requires Valid() && Now().proc.Busy? && Now().proc.now == now && Now().proc.todo == []
      requires |Now().proc.queue| > 0 && Now().proc.queue[0] == r && Has(Now().disk, r)
      modifies this`trail
      ensures Valid() && Grows(old(trail)) && file == FileAt(old(Now()).disk, r)
      ensures Now().disk == old(Now()).disk && Now().past == old(Now()).past
      ensures Now().proc.Busy? && Now().proc.now == now
      ensures var d, m := old(Now()).disk, Accept(file);
              && Now().proc.queue == (if Stops(d, now, r, up) then [] else old(Now()).proc.queue[1..])
              && (m.None? ==> Now().proc.todo == [Drop(r, Invalid)] && !Stops(d, now, r, up))
              && (m.Some? && !Verdict(stamps, m.value.key, m.value.hours, now) ==>
                    Now().proc.todo == [Drop(r, HeldBack)] && !Stops(d, now, r, up))
              && (m.Some? && Verdict(stamps, m.value.key, m.value.hours, now) ==>
                    && Now().proc.todo
                       == (if Free(m.value.key, m.value.hours) then [] else [Stamp(m.value.key, m.value.hours)])
                                          + Rest(r, file, m.value, up)
                    && Stops(d, now, r, up) == (m.value.severity != "info" && !up))
    {
      hide After;
      hide Runs;
      hide Orderly;
      hide ToChannel;
      hide ToDigest;
      hide Accept;
      hide Verdict;
      OrderlySnoc(trail, Handle(up));
      trail := trail + [Handle(up)];
      file := if r.place.Retry? then retry[r.name] else incoming[r.name];
    }

    /** Perhaps a message arrives. */
    method Meanwhile()
      requires Valid()
      modifies this`incoming, this`clock, this`trail
      ensures Valid() && Grows(old(trail)) && clock >= old(clock) && Now().proc == old(Now()).proc
              && Now().past.out == old(Now()).past.out
      ensures forall q: Ref :: q.name < old(clock) ==> (Has(Now().disk, q) <==> Has(old(Now()).disk, q))
    {
      hide After;
      hide Runs;
      hide Orderly;
      var more: bool := *;
      if more {
        var file: File := *;
        var gap: int := *;
        var name := Arrive(file, Max(gap, 0));
      }
    }

    /** What is queued has a name from before now, and what a delivery is to look at is there. */
    ghost method Reachable()
      requires Valid()
      ensures forall q :: Has(Now().disk, q) ==> q.name < clock
      ensures Now().proc.Busy? ==> forall i :: 0 <= i < |Now().proc.queue| ==> Has(Now().disk, Now().proc.queue[i])
    {
      SpoolTheorems.RunKeepsInv(trail);
      hide After;
      hide Runs;
    }

    /** One delivery, `up` telling which messages the channel takes. */
    method Deliver(now: real, up: nat -> bool) returns (stats: Stats)
      requires Valid() && Now().proc.Idle?
      modifies this
      ensures Valid() && Grows(old(trail)) && Now().proc.Idle?
      ensures old(channel) <= channel && |channel| == |old(channel)| + stats.sent
      ensures old(digest) <= digest && |digest| == |old(digest)| + stats.digest
      // it ends at the first failure; without one, nothing queued before it began is in either folder
      ensures stats.failed <= 1 && ((forall n :: up(n)) ==> stats.failed == 0)
      ensures stats.failed == 0 ==> forall q: Ref :: q.name < old(clock) ==> !Has(Now().disk, q)
    {
      hide After;
      hide Runs;
      hide Mirrored;
      hide Has;
      stats := NO_STATS;
      Reachable();
      var list := PendingFiles(now);
      var i, stop := 0, false;
      while i < |list| && !stop
        invariant 0 <= i <= |list|
        invariant Valid() && Grows(old(trail))
        invariant Now().proc == Busy(now, if stop then [] else list[i..], [])
        invariant forall k :: 0 <= k < |list| ==> list[k].name < clock
        invariant stats.failed == (if stop then 1 else 0) && ((forall n :: up(n)) ==> !stop)
        invariant clock >= old(clock)
        invariant !stop ==> OnlyAhead(Now().disk, old(clock), list[i..])
        invariant old(channel) <= channel && |channel| == |old(channel)| + stats.sent
        invariant old(digest) <= digest && |digest| == |old(digest)| + stats.digest
      {
        stats, stop := Turn(list, i, now, up(list[i].name), stats, old(clock));
        i := i + 1;
      }
      assert !stop ==> list[i..] == [];
      EndDelivery();
    }

    /** Of what was queued before `bound`, only the files of `list` are there. */
    static ghost predicate OnlyAhead(d: Disk, bound: nat, list: seq<Ref>) {
      forall q: Ref :: q.name < bound && Has(d, q) ==> q in list
    }

    method Turn(list: seq<Ref>, i: nat, now: real, up: bool, before: Stats, ghost bound: nat)
      returns (stats: Stats, stop: bool)
      requires Valid() && i < |list| && Now().proc == Busy(now, list[i..], [])
      requires bound <= clock && OnlyAhead(Now().disk, bound, list[i..])
      requires forall k :: 0 <= k < |list| ==> list[k].name < clock
      modifies this
      ensures Valid() && Grows(old(trail)) && Now().proc == Busy(now, if stop then [] else list[i + 1..], [])
      ensures clock >= old(clock)
      ensures stats.failed == before.failed + (if stop then 1 else 0) && (stop ==> !up)
      ensures !stop ==> OnlyAhead(Now().disk, bound, list[i + 1..])
      ensures |channel| - |old(channel)| == stats.sent - before.sent && old(channel) <= channel
      ensures |digest| - |old(digest)| == stats.digest - before.digest && old(digest) <= digest
    {
      hide After;
      hide Runs;
      hide Mirrored;
      hide Has;
      hide Stops;
      Meanwhile();
      Reachable();
      assert list[i..][1..] == list[i + 1..] && list[i..] == [list[i]] + list[i + 1..];
      stats, stop := HandleOne(list[i], now, up, before);
    }

    /** Nothing is left to look at, and the lock is let go. */
    method EndDelivery()
      requires Valid() && Now().proc.Busy? && Now().proc.queue == [] && Now().proc.todo == []
      modifies this`trail
      ensures Valid() && Grows(old(trail)) && Now() == old(Now()).(proc := Idle)
    {
      hide After;
      hide Runs;
      hide Orderly;
      hide ToChannel;
      hide ToDigest;
      OrderlySnoc(trail, Finish);
      trail := trail + [Finish];
    }
  }
}
