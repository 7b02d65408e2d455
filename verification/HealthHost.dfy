/**
 `health.run` of pskit/runtime/health.py: the findings go through the alert store, the letter into the
 spool, the notes into the digest, the queue is delivered, and last of all the alert state is saved.
 */
module HealthHost {
  import opened Common
  import opened Grading
  import opened Alerts
  import opened AlertHost
  import opened HealthLetter
  import Spool
  import SpoolHost
  import SpoolOrder
  import SpoolTheorems

  /** The saved alert state, and the letters and digest lines queued so far. */
  datatype Disk = Disk(saved: Data, letters: seq<Spool.File>, digest: seq<string>)

  /** Where a run ends: before anything is queued, after some lines of the digest, before the state is
      saved, or not at all. */
  datatype End = Early | MidDigest(lines: nat) | Unsaved | Whole

  datatype HealthRun = HealthRun(call: Call, frame: nat, end: End)

  function Texts(fs: seq<Finding>): (r: seq<string>)
    ensures |r| == |fs| && forall i :: 0 <= i < |fs| ==> r[i] == fs[i].text
  {
    seq(|fs|, i requires 0 <= i < |fs| => fs[i].text)
  }

  function LetterOf(w: Words, out: Outcome, frame: nat): seq<Spool.File> {
    match FileOf(w, out, frame) case None => [] case Some(file) => [file]
  }

  /** One `health.run`. */
  function Health(w: Words, d: Disk, r: HealthRun): Disk {
    var done := Process(d.saved, r.call);
    var out := OutcomeOf(done.1);
    var letters, notes := d.letters + LetterOf(w, out, r.frame), Texts(out.digest);
    match r.end
    case Early => d
    case MidDigest(n) => Disk(d.saved, letters, d.digest + notes[..Min(n, |notes|)])
    case Unsaved => Disk(d.saved, letters, d.digest + notes)
    case Whole => Disk(done.0, letters, d.digest + notes)
  }

  function HealthAfter(w: Words, runs: seq<HealthRun>): Disk {
    if |runs| == 0 then Disk(map[], [], []) else Health(w, HealthAfter(w, runs[..|runs| - 1]), runs[|runs| - 1])
  }

  /** The calls whose effect was saved. */
  function Saved(runs: seq<HealthRun>): seq<Call> {
    if |runs| == 0 then []
    else Saved(runs[..|runs| - 1]) + if runs[|runs| - 1].end == Whole then [runs[|runs| - 1].call] else []
  }

  /** Letter `i` of the disk was composed of `out`, in which entry `s` has line `j`. */
  ghost predicate InQueue(w: Words, d: Disk, s: Said, out: Outcome, frame: nat, i: nat, j: nat) {
    && i < |d.letters| && j < |LetterLines(w, out)|
    && FileOf(w, out, frame) == Some(d.letters[i])
    && InLetter(out, s) && LineFor(w, s) == Some(LetterLines(w, out)[j])
  }

  /** All of `s` has been queued: its line of the digest, or a letter composed with its line, of which
      `ArrivesExactly` says whether the line gets through. */
  ghost predicate Queued(w: Words, d: Disk, s: Said) {
    match s
    case Dropped(_) => true
    case Digest(f, _) => f.text in d.digest
    case _ => exists out, frame: nat, i: nat, j: nat :: InQueue(w, d, s, out, frame, i, j)
  }

  lemma StaysQueued(w: Words, d: Disk, r: HealthRun, s: Said)
    requires Queued(w, d, s)
    ensures Queued(w, Health(w, d, r), s)
  {
    hide Process;
    hide OutcomeOf;
    hide InLetter;
    hide LineFor;
    hide LetterLines;
    hide FileOf;
    var d' := Health(w, d, r);
    if !s.Dropped? && !s.Digest? {
      var out, frame: nat, i: nat, j: nat :| InQueue(w, d, s, out, frame, i, j);
      assert d'.letters[i] == d.letters[i];
      assert InQueue(w, d', s, out, frame, i, j);
    }
  }

  lemma NowQueued(w: Words, d: Disk, r: HealthRun, n: nat)
    requires Spoken(w) && r.end == Whole && n < |Process(d.saved, r.call).1|
    ensures Queued(w, Health(w, d, r), Process(d.saved, r.call).1[n])
  {
    hide Process;
    var said := Process(d.saved, r.call).1;
    var s, d' := said[n], Health(w, d, r);
    OutcomeTells(said, n);
    hide OutcomeOf;
    hide LetterLines;
    hide FileOf;
    hide Told;
    hide Through;
    hide LineFor;
    var out := OutcomeOf(said);
    if s.Digest? {
      var i :| 0 <= i < |out.digest| && out.digest[i] == s.finding;
      assert d'.digest[|d.digest| + i] == s.finding.text;
    } else if !s.Dropped? {
      var j := HasItsLine(w, out, s);
      ArrivesExactly(w, out, r.frame, j);
      assert InQueue(w, d', s, out, r.frame, |d.letters|, j);
    }
  }

  /** The state is saved last. So whatever crashes come between, the saved state is that of the runs that
      ended, and all that those had to say was queued before: a crash may repeat a message, never swallow one. */
  lemma {:induction false} SavedOnlyWhatWasQueued(w: Words, runs: seq<HealthRun>)
    requires Spoken(w)
    ensures HealthAfter(w, runs).saved == Runs(Saved(runs)).0
    ensures forall i :: 0 <= i < |Runs(Saved(runs)).1| ==> Queued(w, HealthAfter(w, runs), Runs(Saved(runs)).1[i])
  {
    if |runs| > 0 {
      var front, r := runs[..|runs| - 1], runs[|runs| - 1];
      SavedOnlyWhatWasQueued(w, front);
      var d, log := HealthAfter(w, front), Runs(Saved(front)).1;
      SavedSnoc(runs);
      hide Saved;
      hide Runs;
      hide Queued;
      hide Process;
      hide OutcomeOf;
      hide LetterOf;
      AllQueued(w, d, r, log);
    }
  }

  lemma SavedSnoc(runs: seq<HealthRun>)
    requires |runs| > 0
    ensures var before, r := Runs(Saved(runs[..|runs| - 1])), runs[|runs| - 1];
            Runs(Saved(runs)) == if r.end == Whole
                                 then (Process(before.0, r.call).0, before.1 + Process(before.0, r.call).1) else before
  {
    hide Process;
    var front, r := runs[..|runs| - 1], runs[|runs| - 1];
    if r.end == Whole {
      assert Saved(runs)[..|Saved(runs)| - 1] == Saved(front);
    } else {
      assert Saved(runs) == Saved(front);
    }
  }

  lemma AllQueued(w: Words, d: Disk, r: HealthRun, log: seq<Said>)
    requires Spoken(w) && forall i :: 0 <= i < |log| ==> Queued(w, d, log[i])
    ensures forall i :: 0 <= i < |log| ==> Queued(w, Health(w, d, r), log[i])
    ensures r.end == Whole ==>
              forall i :: 0 <= i < |Process(d.saved, r.call).1| ==>
                Queued(w, Health(w, d, r), Process(d.saved, r.call).1[i])
  {
    hide Queued;
    hide Process;
    hide Health;
    forall i | 0 <= i < |log| ensures Queued(w, Health(w, d, r), log[i]) {
      StaysQueued(w, d, r, log[i]);
    }
    if r.end == Whole {
      forall i | 0 <= i < |Process(d.saved, r.call).1|
        ensures Queued(w, Health(w, d, r), Process(d.saved, r.call).1[i])
      {
        NowQueued(w, d, r, i);
      }
    }
  }

  // ---------- what is saved and not told ----------

  /** Two new problems, the first with a text as long as a letter may be. */
  function TwoProblems(first: Finding, second: Finding, now: real, repeatHours: real): Call {
    Call([first, second], now, repeatHours, [], [])
  }

  lemma TwoAreNew(first: Finding, second: Finding, now: real, repeatHours: real)
    requires first.key != second.key && first.level == Crit && second.level == Crit
    ensures var done := Process(map[], TwoProblems(first, second, now, repeatHours));
            && done.1 == [New(first, now), New(second, now)]
            && done.0 == map[first.key := Urgent(Crit, first.text, now, now),
                             second.key := Urgent(Crit, second.text, now, now)]
  {
    var c := TwoProblems(first, second, now, repeatHours);
    var one: Data := map[first.key := Urgent(Crit, first.text, now, now)];
    assert One(map[], first, now, repeatHours) == (one, [New(first, now)]);
    assert One(one, second, now, repeatHours)
           == (one[second.key := Urgent(Crit, second.text, now, now)], [New(second, now)]);
    assert c.findings[..1] == [first] && [first][..0] == [];
    hide One;
    assert Pass(map[], [], now, repeatHours) == (map[], []);
    assert Pass(map[], [first], now, repeatHours) == (one, [] + [New(first, now)]);
    assert Pass(map[], c.findings, now, repeatHours).1 == [New(first, now)] + [New(second, now)];
  }

  /** The letter is cut, the state is not: a problem whose line lies behind the cut is saved as told, the
      delivered message says nothing of it, and the next run within the repeat time says nothing again. */
  lemma ClippedIsSaved(w: Words, first: Finding, second: Finding, now: real, repeatHours: real, frame: nat, later: real)
    requires Spoken(w) && first.key != second.key && first.level == Crit && second.level == Crit
    requires |first.text| >= Spool.MAX_BODY && later - now < repeatHours * 3600.0
    ensures var d := HealthAfter(w, [HealthRun(TwoProblems(first, second, now, repeatHours), frame, Whole)]);
            && second.key in d.saved && d.saved[second.key] == Urgent(Crit, second.text, now, now)
            && |d.letters| == 1
            && (Spool.Accept(d.letters[0]).Some? ==> Spool.Accept(d.letters[0]).value.body <= Marked(first))
            && One(d.saved, second, later, repeatHours) == (d.saved, [])
  {
    var c := TwoProblems(first, second, now, repeatHours);
    TwoAreNew(first, second, now, repeatHours);
    var r := HealthRun(c, frame, Whole);
    var said := [New(first, now), New(second, now)];
    hide Process;
    assert [r][..0] == [];
    assert HealthAfter(w, [r]) == Health(w, Disk(map[], [], []), r);
    assert said == [] + [New(first, now)] + [New(second, now)];
    OutcomeSnoc([] + [New(first, now)], New(second, now));
    OutcomeSnoc([], New(first, now));
    var out := OutcomeOf(said);
    hide OutcomeOf;
    assert out.started == [first, second] && out == NOTHING.(started := [first, second]);
    CutInFirst(w, out, first, second, frame);
    var d := HealthAfter(w, [r]);
    assert d.saved[second.key := Urgent(Crit, second.text, now, now)] == d.saved;
  }

  lemma CutInFirst(w: Words, out: Outcome, first: Finding, second: Finding, frame: nat)
    requires Spoken(w) && out == NOTHING.(started := [first, second]) && |first.text| >= Spool.MAX_BODY
    ensures var file := FileOf(w, out, frame);
            file.Some? && (Spool.Accept(file.value).Some? ==> Spool.Accept(file.value).value.body <= Marked(first))
  {
    var lines := LetterLines(w, out);
    ArrivesExactly(w, out, frame, 0);
    BodyIs(w, out);
    assert lines[0] == Marked(first) && |lines| == 2;
    var text := Lines.Join(lines);
    assert Marked(first) <= text;
    StripRightPrefix(text, "");
    hide LetterLines;
    hide Lines.Join;
    hide Spool.StripRight;
    var l := Composed(w, out).value;
    SpoolTheorems.EnqueuedIsAcceptedIff(l.severity, l.title, l.body, "", 0.0, frame);
  }

  /** The first and the last write of a run. */
  lemma FirstAndLast(w: Words, d: Disk, call: Call, frame: nat)
    ensures var done := Process(d.saved, call);
            var letter := LetterOf(w, OutcomeOf(done.1), frame);
            && Health(w, d, HealthRun(call, frame, MidDigest(0))) == d.(letters := d.letters + letter)
            && Health(w, d, HealthRun(call, frame, Whole))
               == Health(w, d, HealthRun(call, frame, Unsaved)).(saved := done.0)
            && (letter != [] ==> IsUrgent(OutcomeOf(done.1)))
  {
    hide Process;
    hide OutcomeOf;
    hide IsUrgent;
    var notes := Texts(OutcomeOf(Process(d.saved, call).1).digest);
    assert notes[..0] == [] && d.digest + [] == d.digest;
  }

  lemma PostedFile(w: Words, out: Outcome, frame: nat)
    requires Spoken(w) && Composed(w, out).Some?
    ensures var l := Composed(w, out).value;
            var m := Spool.Compose(l.severity, l.title, l.body, "", 0.0);
            m.Some? && LetterOf(w, out, frame) == [Spool.File(Spool.Encoded(m.value, frame), m)]
  {
    LinesBegin(w, out);
    BodyIs(w, out);
  }

  // ---------- on the machine ----------

  class Monitor {
    var saved: Data
    var digest: seq<string>
    const words: Words
    const notifier: SpoolHost.Notifier
    ghost var letters: seq<Spool.File>
    ghost var passed: seq<Disk>    // the disk after each write

    ghost predicate Valid()
      reads this, notifier
    {
      && Spoken(words) && notifier.Valid()
      && forall i :: 0 <= i < |letters| ==> WasQueued(letters[i])
    }

    /** Some event of the queue's run brought this file. */
    ghost predicate WasQueued(file: Spool.File)
      reads this, notifier
    {
      exists t :: 0 <= t < |notifier.trail| && notifier.trail[t].Enqueue? && notifier.trail[t].file == file
    }

    ghost function Now(): Disk
      reads this
    {
      Disk(saved, letters, digest)
    }

    constructor (words: Words)
      requires Spoken(words)
      ensures Valid() && fresh(notifier) && Now() == HealthAfter(words, []) && passed == [] && this.words == words
    {
      saved, digest, letters, passed := map[], [], [], [];
      this.words := words;
      notifier := new SpoolHost.Notifier();
    }

    ghost predicate PassedOnly(before: seq<Disk>, d: Disk, call: Call, frame: nat)
      reads this
    {
      && |before| <= |passed|
      && forall i :: |before| <= i < |passed| ==>
           exists end :: passed[i] == Health(words, d, HealthRun(call, frame, end))
    }

    ghost method Log(end: End, before: seq<Disk>, d: Disk, call: Call, frame: nat)
      requires PassedOnly(before, d, call, frame) && Now() == Health(words, d, HealthRun(call, frame, end))
      modifies `passed
      ensures PassedOnly(before, d, call, frame)
    {
      passed := passed + [Now()];
    }

    /** What is queued stays in the log. */
    twostate lemma StillQueued()
      requires old(Valid()) && notifier.Grows(old(notifier.trail))
      ensures forall i :: 0 <= i < |old(letters)| ==> WasQueued(old(letters)[i])
    {
      forall i | 0 <= i < |old(letters)| ensures WasQueued(old(letters)[i]) {
        var t :| 0 <= t < |old(notifier.trail)| && old(notifier.trail)[t].Enqueue?
                 && old(notifier.trail)[t].file == old(letters)[i];
        assert notifier.trail[t] == old(notifier.trail)[t];
      }
    }

    /** `compose` and `enqueue`. */
    method Post(out: Outcome, frame: nat, ticks: nat) returns (name: Option<nat>)
      requires Valid()
      modifies this`letters, notifier
      ensures Valid() && notifier.Now().proc == old(notifier.Now()).proc && notifier.channel == old(notifier.channel)
      ensures letters == old(letters) + LetterOf(words, out, frame)
      ensures name.None? <==> LetterOf(words, out, frame) == []
      ensures name.None? ==> notifier.trail == old(notifier.trail)
      ensures name.Some? ==>
                && notifier.trail == old(notifier.trail) + [Spool.Enqueue(name.value, LetterOf(words, out, frame)[0])]
                && name.value < notifier.clock
    {
      hide Spool.After;
      hide Spool.Runs;
      hide Spool.Compose;
      hide Spool.Encoded;
      hide SpoolHost.Notifier.Valid;
      hide LetterLines;
      hide Composed;
      var l := Compose(words, out);
      if l.None? { return None; }
      PostedFile(words, out, frame);
      var r := notifier.Queue(l.value.severity, l.value.title, l.value.body, "", 0.0, frame, ticks);
      StillQueued();
      letters := letters + LetterOf(words, out, frame);
      assert notifier.trail[|old(notifier.trail)|].Enqueue?;
      return Some(r.value);
    }

    /** The letter posted as event `t` has arrived, if it is within the limit and in no folder any more. */
    lemma Arrived(t: nat, out: Outcome, frame: nat)
      requires Valid() && t < |notifier.trail| && IsUrgent(out)
      requires var file := LetterOf(words, out, frame);
               && file != [] && file[0].size <= Spool.MAX_FILE_BYTES
               && notifier.trail[t].Enqueue? && notifier.trail[t].file == file[0]
      requires forall q: Spool.Ref :: q.name == notifier.trail[t].name ==> !Spool.Has(notifier.Now().disk, q)
      ensures LetterOf(words, out, frame)[0].parsed.Some?
      ensures Spool.Handed(notifier.trail[t].name, LetterOf(words, out, frame)[0].parsed.value) in notifier.channel
    {
      LinesBegin(words, out);
      BodyIs(words, out);
      var l := Composed(words, out).value;
      SpoolTheorems.EnqueuedIsAcceptedIff(l.severity, l.title, l.body, "", 0.0, frame);
      hide LetterLines;
      hide Spool.Compose;
      hide Spool.Encoded;
      hide Spool.Accept;
      SpoolTheorems.GoneIsDelivered(notifier.trail, t);
    }

    /** The lines of the digest, one write each. */
    method AddNotes(out: Outcome, ghost frame: nat, ghost before: seq<Disk>, ghost d: Disk, ghost call: Call)
      requires out == OutcomeOf(Process(d.saved, call).1) && PassedOnly(before, d, call, frame)
      requires Now() == Health(words, d, HealthRun(call, frame, MidDigest(0)))
      modifies this`digest, this`passed
      ensures PassedOnly(before, d, call, frame)
      ensures Now() == Health(words, d, HealthRun(call, frame, Unsaved))
    {
      hide Process;
      hide OutcomeOf;
      hide LetterOf;
      ghost var notes := Texts(out.digest);
      for i := 0 to |out.digest|
        invariant PassedOnly(before, d, call, frame)
        invariant Now() == Health(words, d, HealthRun(call, frame, MidDigest(i)))
      {
        assert notes[..i + 1] == notes[..i] + [out.digest[i].text];
        digest := digest + [out.digest[i].text];
        Log(MidDigest(i + 1), before, d, call, frame);
      }
      assert notes[..|notes|] == notes;
    }

    /** The delivery of a run; event `t` queued its letter, if it had one. */
    method Forward(now: real, up: nat -> bool, ghost out: Outcome, ghost frame: nat, ghost t: nat)
      returns (stats: SpoolHost.Stats)
      requires Valid() && notifier.Now().proc.Idle?
      requires LetterOf(words, out, frame) != [] ==>
                 && IsUrgent(out) && t < |notifier.trail| && notifier.trail[t].Enqueue?
                 && notifier.trail[t].file == LetterOf(words, out, frame)[0] && notifier.trail[t].name < notifier.clock
      modifies notifier
      ensures Valid() && notifier.Now().proc.Idle? && notifier.Grows(old(notifier.trail))
      ensures var letter := LetterOf(words, out, frame);
              letter != [] && stats.failed == 0 && letter[0].size <= Spool.MAX_FILE_BYTES ==>
                && letter[0].parsed.Some?
                && Spool.Handed(old(notifier.trail)[t].name, letter[0].parsed.value) in notifier.channel
    {
      hide LetterOf;
      stats := notifier.Deliver(now, up);
      StillQueued();
      var letter := LetterOf(words, out, frame);
      if letter != [] && stats.failed == 0 && letter[0].size <= Spool.MAX_FILE_BYTES {
        assert notifier.trail[t] == old(notifier.trail)[t];
        Arrived(t, out, frame);
      }
    }

    /** A whole run is `Health`, and so is every disk it passes, for a run that ends there. The letter is
        queued first; a delivery without failure has brought it to the channel when the state is saved. */
    method Run(findings: seq<Finding>, now: real, repeatHours: real, prefixes: seq<string>, frame: nat, ticks: nat,
               up: nat -> bool)
      returns (stats: SpoolHost.Stats, name: Option<nat>, ghost call: Call)
      requires Valid() && notifier.Now().proc.Idle?
      modifies this, notifier
      ensures Valid() && notifier.Now().proc.Idle? && notifier.Grows(old(notifier.trail))
      ensures call == Call(findings, now, repeatHours, prefixes, call.keys)
      ensures Now() == Health(words, old(Now()), HealthRun(call, frame, Whole))
      ensures PassedOnly(old(passed), old(Now()), call, frame)
      ensures var letter := LetterOf(words, OutcomeOf(Process(old(saved), call).1), frame);
              && (name.Some? <==> letter != [])
              && (name.Some? ==> |notifier.trail| > |old(notifier.trail)|
                                 && notifier.trail[|old(notifier.trail)|] == Spool.Enqueue(name.value, letter[0]))
              && (name.Some? && stats.failed == 0 && letter[0].size <= Spool.MAX_FILE_BYTES ==>
                    letter[0].parsed.Some? && Spool.Handed(name.value, letter[0].parsed.value) in notifier.channel)
    {
      hide Process;
      hide OutcomeOf;
      hide LetterOf;
      hide Health;
      hide IsUrgent;
      hide Spool.After;
      hide Spool.Runs;
      hide SpoolHost.Notifier.Valid;
      ghost var d := Now();
      ghost var before := passed;
      var state := new AlertState(saved);
      var out;
      out, call := state.ProcessFindings(findings, now, repeatHours, prefixes);
      FirstAndLast(words, d, call, frame);
      name := Post(out, frame, ticks);
      Log(MidDigest(0), before, d, call, frame);
      AddNotes(out, frame, before, d, call);
      stats := Forward(now, up, out, frame, |old(notifier.trail)|);
      saved := state.data;
      Log(Whole, before, d, call, frame);
    }
  }
}
