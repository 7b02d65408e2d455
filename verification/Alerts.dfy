/** `AlertState.process` of pskit/alerts.py, and what the owner hears about each key over many runs. */
module Alerts {
  import opened Common
  import opened Grading

  const DIGEST_EVERY := 72000.0

  datatype Finding = Finding(key: string, level: Level, text: string)

  /** One stored key. Levels warn and crit keep when the owner was last told, info when it was last in the digest. */
  datatype Record =
    | Urgent(level: Level, text: string, since: real, sentAt: real)
    | Note(text: string, since: real, digestAt: real)

  type Data = map<string, Record>

  /** What one run says, in the order it is found out. `Dropped` is said to nobody: an open problem
      that turned into a note, or a note that is forgotten. */
  datatype Said =
    | New(finding: Finding, at: real)
    | Changed(finding: Finding, at: real)
    | Reminder(finding: Finding, at: real, hours: real)
    | Cleared(key: string, text: string)
    | Digest(finding: Finding, at: real)
    | Dropped(key: string)

  function KeyOf(s: Said): string {
    match s
    case New(f, _) => f.key
    case Changed(f, _) => f.key
    case Reminder(f, _, _) => f.key
    case Cleared(k, _) => k
    case Digest(f, _) => f.key
    case Dropped(k) => k
  }

  function Since(data: Data, key: string, now: real): real {
    if key in data then data[key].since else now
  }

  /** What taking a key out of the store says. */
  function Removed(data: Data, key: string): seq<Said> {
    if key !in data then [] else if data[key].Urgent? then [Cleared(key, data[key].text)] else [Dropped(key)]
  }

  /** The loop body for one finding. */
  function One(data: Data, f: Finding, now: real, repeatHours: real): (Data, seq<Said>) {
    var urgent := f.key in data && data[f.key].Urgent?;
    match f.level
    case Fine => (data - {f.key}, Removed(data, f.key))
    case Info =>
      if f.key in data && data[f.key].Note? && now - data[f.key].digestAt < DIGEST_EVERY then (data, [])
      else (data[f.key := Note(f.text, Since(data, f.key, now), now)],
            (if urgent then [Dropped(f.key)] else []) + [Digest(f, now)])
    case _ =>
      if !urgent then (data[f.key := Urgent(f.level, f.text, now, now)], [New(f, now)])
      else
        var prev := data[f.key];
        if prev.level != f.level then (data[f.key := Urgent(f.level, f.text, prev.since, now)], [Changed(f, now)])
        else if now - prev.sentAt >= repeatHours * 3600.0 then
          (data[f.key := Urgent(prev.level, f.text, prev.since, now)], [Reminder(f, now, repeatHours)])
        else (data[f.key := Urgent(prev.level, f.text, prev.since, prev.sentAt)], [])
  }

  function Pass(data: Data, findings: seq<Finding>, now: real, repeatHours: real): (Data, seq<Said>) {
    if |findings| == 0 then (data, [])
    else
      var before := Pass(data, findings[..|findings| - 1], now, repeatHours);
      var last := One(before.0, findings[|findings| - 1], now, repeatHours);
      (last.0, before.1 + last.1)
  }

  predicate StartsWith(key: string, prefixes: seq<string>) {
    exists i :: 0 <= i < |prefixes| && prefixes[i] <= key
  }

  predicate Seen(findings: seq<Finding>, key: string) {
    exists i :: 0 <= i < |findings| && findings[i].key == key
  }

  predicate Kept(findings: seq<Finding>, prefixes: seq<string>, key: string) {
    Seen(findings, key) || StartsWith(key, prefixes)
  }

  /** The second loop: keys nobody reported are cleared, in the order they are listed. */
  function Sweep(data: Data, findings: seq<Finding>, prefixes: seq<string>, keys: seq<string>): (Data, seq<Said>) {
    if |keys| == 0 then (data, [])
    else
      var before, k := Sweep(data, findings, prefixes, keys[..|keys| - 1]), keys[|keys| - 1];
      if k !in before.0 || Kept(findings, prefixes, k) then before
      else (before.0 - {k}, before.1 + Removed(before.0, k))
  }

  /** One run; `keys` is the order in which the stored keys come. */
  datatype Call = Call(findings: seq<Finding>, now: real, repeatHours: real, prefixes: seq<string>, keys: seq<string>)

  function Process(data: Data, c: Call): (Data, seq<Said>) {
    var pass := Pass(data, c.findings, c.now, c.repeatHours);
    var swept := Sweep(pass.0, c.findings, c.prefixes, c.keys);
    (swept.0, pass.1 + swept.1)
  }

  function Runs(calls: seq<Call>): (Data, seq<Said>) {
    if |calls| == 0 then (map[], [])
    else
      var before := Runs(calls[..|calls| - 1]);
      var last := Process(before.0, calls[|calls| - 1]);
      (last.0, before.1 + last.1)
  }

  function PreviousLevel(data: Data, key: string): Level {
    if key !in data then Fine else if data[key].Urgent? then data[key].level else Info
  }

  function Active(data: Data): set<string> {
    set k | k in data && data[k].Urgent?
  }

  // ---------- the life of one key ----------

  /** What an observer of one key knows: a problem of some level, last heard of at some time, or none, and
      then when it was last in the digest. */
  datatype Phase = Closed(noted: Option<real>) | Open(level: Level, at: real)

  /** The rule of the protocol: `new (changed | reminder)* (cleared | dropped)`, over and over, and in
      between lines of the digest, no two of one note closer than 20 hours. */
  function Advance(p: Phase, s: Said): Option<Phase> {
    match s
    case New(f, at) => if p.Closed? && (f.level == Warn || f.level == Crit) then Some(Open(f.level, at)) else None
    case Changed(f, at) =>
      if p.Open? && p.level != f.level && (f.level == Warn || f.level == Crit) then Some(Open(f.level, at)) else None
    case Reminder(f, at, hours) =>
      if p.Open? && p.level == f.level && at - p.at >= hours * 3600.0 then Some(Open(f.level, at)) else None
    case Cleared(_, _) => if p.Open? then Some(Closed(None)) else None
    case Digest(f, at) =>
      if p.Closed? && f.level == Info && (p.noted.Some? ==> at - p.noted.value >= DIGEST_EVERY)
      then Some(Closed(Some(at))) else None
    case Dropped(_) => if p.Open? || p.noted.Some? then Some(Closed(None)) else None
  }

  /** Reading a log for one key; nothing if the rule is broken. */
  function Follow(p: Phase, log: seq<Said>, key: string): Option<Phase> {
    if |log| == 0 then Some(p)
    else
      match Follow(p, log[..|log| - 1], key)
      case None => None
      case Some(q) => if KeyOf(log[|log| - 1]) == key then Advance(q, log[|log| - 1]) else Some(q)
  }

  const START := Closed(None)

  function PhaseOf(data: Data, key: string): Phase {
    if key !in data then Closed(None)
    else match data[key] case Urgent(level, _, _, at) => Open(level, at) case Note(_, _, at) => Closed(Some(at))
  }

  ghost predicate WellKept(data: Data) {
    forall k :: k in data && data[k].Urgent? ==> data[k].level == Warn || data[k].level == Crit
  }

  lemma {:induction false} FollowAppend(p: Phase, a: seq<Said>, b: seq<Said>, key: string)
    requires Follow(p, a, key).Some?
    ensures Follow(p, a + b, key) == Follow(Follow(p, a, key).value, b, key)
  {
    if |b| == 0 {
      assert a + b == a;
    } else {
      assert (a + b)[..|a + b| - 1] == a + b[..|b| - 1];
      FollowAppend(p, a, b[..|b| - 1], key);
    }
  }

  lemma FollowOne(p: Phase, said: seq<Said>, key: string)
    requires |said| <= 1
    ensures Follow(p, said, key) == if |said| == 0 || KeyOf(said[0]) != key then Some(p) else Advance(p, said[0])
  {
    if |said| == 1 { assert said[..0] == []; }
  }

  lemma FollowTwo(p: Phase, a: Said, b: Said, key: string)
    requires KeyOf(a) == KeyOf(b) == key && Advance(p, a).Some?
    ensures Follow(p, [a, b], key) == Advance(Advance(p, a).value, b)
  {
    FollowOne(p, [a], key);
    assert [a, b][..1] == [a];
  }

  lemma FollowElsewhere(p: Phase, a: Said, b: Said, key: string)
    requires KeyOf(a) == KeyOf(b) != key
    ensures Follow(p, [a, b], key) == Some(p)
  {
    FollowOne(p, [a], key);
    assert [a, b][..1] == [a];
  }

  lemma OneFollows(data: Data, f: Finding, now: real, repeatHours: real, key: string)
    requires WellKept(data)
    ensures WellKept(One(data, f, now, repeatHours).0)
    ensures Follow(PhaseOf(data, key), One(data, f, now, repeatHours).1, key)
            == Some(PhaseOf(One(data, f, now, repeatHours).0, key))
  {
    var said := One(data, f, now, repeatHours).1;
    hide Follow;
    if f.key == key {
      if |said| <= 1 {
        FollowOne(PhaseOf(data, key), said, key);
      } else {
        assert said == [Dropped(f.key), Digest(f, now)];
        FollowTwo(PhaseOf(data, key), said[0], said[1], key);
      }
    } else {
      OneElsewhere(data, f, now, repeatHours, key);
    }
  }

  lemma OneElsewhere(data: Data, f: Finding, now: real, repeatHours: real, key: string)
    requires f.key != key
    ensures Follow(PhaseOf(data, key), One(data, f, now, repeatHours).1, key)
            == Some(PhaseOf(One(data, f, now, repeatHours).0, key))
  {
    var said := One(data, f, now, repeatHours).1;
    hide Follow;
    hide Advance;
    if |said| <= 1 {
      FollowOne(PhaseOf(data, key), said, key);
    } else {
      assert said == [Dropped(f.key), Digest(f, now)];
      FollowElsewhere(PhaseOf(data, key), said[0], said[1], key);
    }
  }

  lemma {:induction false} PassFollows(data: Data, findings: seq<Finding>, now: real, repeatHours: real, key: string)
    requires WellKept(data)
    ensures WellKept(Pass(data, findings, now, repeatHours).0)
    ensures Follow(PhaseOf(data, key), Pass(data, findings, now, repeatHours).1, key)
            == Some(PhaseOf(Pass(data, findings, now, repeatHours).0, key))
  {
    if |findings| > 0 {
      var front, f := findings[..|findings| - 1], findings[|findings| - 1];
      PassFollows(data, front, now, repeatHours, key);
      var before := Pass(data, front, now, repeatHours);
      OneFollows(before.0, f, now, repeatHours, key);
      FollowAppend(PhaseOf(data, key), before.1, One(before.0, f, now, repeatHours).1, key);
    }
  }

  lemma {:induction false} SweepFollows(data: Data, findings: seq<Finding>, prefixes: seq<string>, keys: seq<string>,
                                        key: string)
    requires WellKept(data)
    ensures WellKept(Sweep(data, findings, prefixes, keys).0)
    ensures Follow(PhaseOf(data, key), Sweep(data, findings, prefixes, keys).1, key)
            == Some(PhaseOf(Sweep(data, findings, prefixes, keys).0, key))
  {
    if |keys| > 0 {
      var front, k := keys[..|keys| - 1], keys[|keys| - 1];
      SweepFollows(data, findings, prefixes, front, key);
      var before := Sweep(data, findings, prefixes, front);
      if k in before.0 && !Kept(findings, prefixes, k) {
        RemovedFollows(before.0, k, key);
        hide Follow;
        FollowAppend(PhaseOf(data, key), before.1, Removed(before.0, k), key);
      }
    }
  }

  lemma RemovedFollows(data: Data, k: string, key: string)
    ensures Follow(PhaseOf(data, key), Removed(data, k), key) == Some(PhaseOf(data - {k}, key))
  {
    FollowOne(PhaseOf(data, key), Removed(data, k), key);
    hide Follow;
  }

  lemma {:induction false} RunsFollow(calls: seq<Call>, key: string)
    ensures WellKept(Runs(calls).0)
    ensures Follow(START, Runs(calls).1, key) == Some(PhaseOf(Runs(calls).0, key))
  {
    if |calls| > 0 {
      var front, c := calls[..|calls| - 1], calls[|calls| - 1];
      RunsFollow(front, key);
      hide Pass;
      hide Sweep;
      var before := Runs(front);
      var pass := Pass(before.0, c.findings, c.now, c.repeatHours);
      var swept := Sweep(pass.0, c.findings, c.prefixes, c.keys);
      PassFollows(before.0, c.findings, c.now, c.repeatHours, key);
      SweepFollows(pass.0, c.findings, c.prefixes, c.keys, key);
      FollowAppend(PhaseOf(before.0, key), pass.1, swept.1, key);
      FollowAppend(START, before.1, pass.1 + swept.1, key);
    }
  }

  // ---------- main results ----------

  /** Over any runs, what is said about a key keeps the rule, and `active` lists exactly the keys whose
      last problem was announced and has been neither cleared nor silently dropped. */
  lemma LifeCycle(calls: seq<Call>, key: string)
    ensures Follow(START, Runs(calls).1, key).Some?
    ensures key in Active(Runs(calls).0) <==> Follow(START, Runs(calls).1, key).value.Open?
  {
    RunsFollow(calls, key);
  }

  /** A message about an open problem: its key, level and time. */
  predicate Tells(s: Said, key: string, level: Level, at: real) {
    match s
    case New(f, t) => f.key == key && f.level == level && t == at
    case Changed(f, t) => f.key == key && f.level == level && t == at
    case Reminder(f, t, _) => f.key == key && f.level == level && t == at
    case _ => false
  }

  ghost predicate LastToldAt(log: seq<Said>, i: int, key: string, level: Level, at: real) {
    && 0 <= i < |log| && Tells(log[i], key, level, at)
    && forall j :: i < j < |log| ==> KeyOf(log[j]) != key
  }

  lemma {:induction false} OpenWasTold(log: seq<Said>, key: string)
    requires Follow(START, log, key).Some? && Follow(START, log, key).value.Open?
    ensures var p := Follow(START, log, key).value; exists i :: LastToldAt(log, i, key, p.level, p.at)
  {
    var n := |log| - 1;
    var p, s := Follow(START, log, key).value, log[n];
    if KeyOf(s) == key {
      assert LastToldAt(log, n, key, p.level, p.at);
    } else {
      OpenWasTold(log[..n], key);
      var i :| LastToldAt(log[..n], i, key, p.level, p.at);
      assert LastToldAt(log, i, key, p.level, p.at);
    }
  }

  lemma {:induction false} FollowsFront(log: seq<Said>, n: nat, key: string)
    requires n <= |log| && Follow(START, log, key).Some?
    ensures Follow(START, log[..n], key).Some?
  {
    if n < |log| {
      assert log[..|log| - 1][..n] == log[..n];
      FollowsFront(log[..|log| - 1], n, key);
    } else {
      assert log[..n] == log;
    }
  }

  /** A reminder repeats the level last told, and comes at least its hours after that. */
  lemma RemindersAreSpaced(calls: seq<Call>, j: nat)
    requires j < |Runs(calls).1| && Runs(calls).1[j].Reminder?
    ensures var log := Runs(calls).1;
            var r := log[j];
            exists i, at :: LastToldAt(log[..j], i, r.finding.key, r.finding.level, at) && r.at - at >= r.hours * 3600.0
  {
    var log := Runs(calls).1;
    var r := log[j];
    var key := r.finding.key;
    RunsFollow(calls, key);
    FollowsFront(log, j + 1, key);
    assert log[..j + 1][..j] == log[..j];
    OpenWasTold(log[..j], key);
    var p := Follow(START, log[..j], key).value;
    var i :| LastToldAt(log[..j], i, key, p.level, p.at);
  }

  lemma {:induction false} QuietFollow(log: seq<Said>, i: nat, j: nat, key: string)
    requires i < j <= |log| && forall k :: i < k < j ==> KeyOf(log[k]) != key
    ensures Follow(START, log[..j], key) == Follow(START, log[..i + 1], key)
    decreases j
  {
    if i + 1 < j {
      assert log[..j][..j - 1] == log[..j - 1];
      QuietFollow(log, i, j - 1, key);
    }
  }

  /** Two digest lines of one note, with nothing about its key in between, are at least 20 hours apart. */
  lemma DigestsAreSpaced(calls: seq<Call>, i: nat, j: nat)
    requires i < j < |Runs(calls).1| && Runs(calls).1[i].Digest? && Runs(calls).1[j].Digest?
    requires KeyOf(Runs(calls).1[i]) == KeyOf(Runs(calls).1[j])
    requires forall k :: i < k < j ==> KeyOf(Runs(calls).1[k]) != KeyOf(Runs(calls).1[j])
    ensures Runs(calls).1[j].at - Runs(calls).1[i].at >= DIGEST_EVERY
  {
    RunsFollow(calls, KeyOf(Runs(calls).1[j]));
    NotesApart(Runs(calls).1, i, j);
  }

  lemma FollowSnoc(log: seq<Said>, n: nat, key: string)
    requires n < |log| && KeyOf(log[n]) == key && Follow(START, log[..n + 1], key).Some?
    ensures Follow(START, log[..n], key).Some?
    ensures Follow(START, log[..n + 1], key) == Advance(Follow(START, log[..n], key).value, log[n])
  {
    hide Advance;
    assert log[..n + 1][..n] == log[..n];
  }

  lemma NotesApart(log: seq<Said>, i: nat, j: nat)
    requires i < j < |log| && log[i].Digest? && log[j].Digest? && KeyOf(log[i]) == KeyOf(log[j])
    requires forall k :: i < k < j ==> KeyOf(log[k]) != KeyOf(log[j])
    requires Follow(START, log, KeyOf(log[j])).Some?
    ensures log[j].at - log[i].at >= DIGEST_EVERY
  {
    hide Follow;
    var key := KeyOf(log[j]);
    FollowsFront(log, j + 1, key);
    FollowsFront(log, i + 1, key);
    FollowSnoc(log, i, key);
    FollowSnoc(log, j, key);
    QuietFollow(log, i, j, key);
  }

  // ---------- one key in one run ----------

  function At(data: Data, key: string): Option<Record> {
    if key in data then Some(data[key]) else None
  }

  ghost predicate Silent(said: seq<Said>, key: string) {
    forall i :: 0 <= i < |said| ==> KeyOf(said[i]) != key
  }

  lemma {:induction false} PassElsewhere(data: Data, findings: seq<Finding>, now: real, repeatHours: real, key: string)
    requires !Seen(findings, key)
    ensures At(Pass(data, findings, now, repeatHours).0, key) == At(data, key)
    ensures Silent(Pass(data, findings, now, repeatHours).1, key)
  {
    if |findings| > 0 {
      var front, f := findings[..|findings| - 1], findings[|findings| - 1];
      assert f.key != key;
      forall i | 0 <= i < |front| ensures front[i].key != key { assert front[i] == findings[i]; }
      PassElsewhere(data, front, now, repeatHours, key);
      hide Seen;
    }
  }

  lemma {:induction false} SweepElsewhere(data: Data, findings: seq<Finding>, prefixes: seq<string>, keys: seq<string>,
                                          key: string)
    requires Kept(findings, prefixes, key)
    ensures At(Sweep(data, findings, prefixes, keys).0, key) == At(data, key)
    ensures Silent(Sweep(data, findings, prefixes, keys).1, key)
  {
    if |keys| > 0 {
      SweepElsewhere(data, findings, prefixes, keys[..|keys| - 1], key);
    }
  }

  /** Keys of a probe that crashed keep their record to the letter, and nothing is said about them. */
  lemma CrashedKeysKept(data: Data, c: Call, key: string)
    requires StartsWith(key, c.prefixes) && !Seen(c.findings, key)
    ensures At(Process(data, c).0, key) == At(data, key) && Silent(Process(data, c).1, key)
  {
    PassElsewhere(data, c.findings, c.now, c.repeatHours, key);
    SweepElsewhere(Pass(data, c.findings, c.now, c.repeatHours).0, c.findings, c.prefixes, c.keys, key);
  }

  lemma {:induction false} SweepRemoves(data: Data, findings: seq<Finding>, prefixes: seq<string>, keys: seq<string>,
                                        key: string)
    requires !Kept(findings, prefixes, key)
    ensures At(Sweep(data, findings, prefixes, keys).0, key) == if key in keys then None else At(data, key)
  {
    if |keys| > 0 {
      assert keys == keys[..|keys| - 1] + [keys[|keys| - 1]];
      SweepRemoves(data, findings, prefixes, keys[..|keys| - 1], key);
    }
  }

  /** A key nobody reports and no crash protects is gone after the run. */
  lemma UnreportedIsCleared(data: Data, c: Call, key: string)
    requires !Kept(c.findings, c.prefixes, key)
    requires forall k :: k in Pass(data, c.findings, c.now, c.repeatHours).0 ==> k in c.keys
    ensures key !in Process(data, c).0
  {
    SweepRemoves(Pass(data, c.findings, c.now, c.repeatHours).0, c.findings, c.prefixes, c.keys, key);
  }

  /** The level of the last finding of a key is stored, and of a problem also its text. */
  lemma {:induction false} LastFindingWins(data: Data, findings: seq<Finding>, now: real, repeatHours: real, i: nat)
    requires i < |findings| && forall j :: i < j < |findings| ==> findings[j].key != findings[i].key
    ensures PreviousLevel(Pass(data, findings, now, repeatHours).0, findings[i].key) == findings[i].level
    ensures IsProblem(findings[i].level) ==>
              var d := Pass(data, findings, now, repeatHours).0;
              findings[i].key in d && d[findings[i].key].text == findings[i].text
  {
    if i < |findings| - 1 {
      LastFindingWins(data, findings[..|findings| - 1], now, repeatHours, i);
    }
  }

  // ---------- exactly what is said ----------

  predicate IsProblem(level: Level) {
    level == Warn || level == Crit
  }

  /** What of a log is about one key. */
  function About(said: seq<Said>, key: string): seq<Said> {
    if |said| == 0 then []
    else About(said[..|said| - 1], key) + if KeyOf(said[|said| - 1]) == key then [said[|said| - 1]] else []
  }

  lemma {:induction false} AboutAppend(a: seq<Said>, b: seq<Said>, key: string)
    ensures About(a + b, key) == About(a, key) + About(b, key)
  {
    if |b| == 0 {
      assert a + b == a;
    } else {
      assert (a + b)[..|a + b| - 1] == a + b[..|b| - 1];
      AboutAppend(a, b[..|b| - 1], key);
    }
  }

  lemma {:induction false} AboutNone(said: seq<Said>, key: string)
    requires Silent(said, key)
    ensures About(said, key) == []
  {
    if |said| > 0 { AboutNone(said[..|said| - 1], key); }
  }

  /** The owner's side of the rule: what has to be said of a finding at `now`, given what was last heard of
      its key. */
  ghost predicate Due(p: Phase, f: Finding, now: real, hours: real, about: seq<Said>) {
    if IsProblem(f.level) then
      && (New(f, now) in about <==> p.Closed?)
      && (Changed(f, now) in about <==> p.Open? && p.level != f.level)
      && (Reminder(f, now, hours) in about <==> p.Open? && p.level == f.level && now - p.at >= hours * 3600.0)
      && |about| == if p.Open? && p.level == f.level && now - p.at < hours * 3600.0 then 0 else 1
    else if f.level == Info then
      && (Digest(f, now) in about <==> p.Open? || p.noted.None? || now - p.noted.value >= DIGEST_EVERY)
      && (Dropped(f.key) in about <==> p.Open?)
      && |about| == (if Digest(f, now) in about then 1 else 0) + (if p.Open? then 1 else 0)
    else
      && ((exists text :: Cleared(f.key, text) in about) <==> p.Open?)
      && |about| == if p.Open? || p.noted.Some? then 1 else 0
  }

  lemma AboutItself(said: seq<Said>, key: string)
    requires |said| <= 2 && forall i :: 0 <= i < |said| ==> KeyOf(said[i]) == key
    ensures About(said, key) == said
  {
    if |said| == 1 {
      assert said[..0] == [] && said == [] + [said[0]];
    } else if |said| == 2 {
      assert said[..1] == [said[0]] && said[..1][..0] == [] && said == [said[0]] + [said[1]];
      assert About(said[..1], key) == [said[0]];
    }
  }

  lemma OneIsDue(data: Data, f: Finding, now: real, hours: real)
    requires WellKept(data)
    ensures Due(PhaseOf(data, f.key), f, now, hours, About(One(data, f, now, hours).1, f.key))
    ensures f.level == Fine && PhaseOf(data, f.key).Open? ==>
              About(One(data, f, now, hours).1, f.key) == [Cleared(f.key, data[f.key].text)]
  {
    AboutItself(One(data, f, now, hours).1, f.key);
    hide About;
    match f.level
    case Fine => FineIsDue(data, f, now, hours);
    case Info => InfoIsDue(data, f, now, hours);
    case _ => ProblemIsDue(data, f, now, hours);
  }

  lemma FineIsDue(data: Data, f: Finding, now: real, hours: real)
    requires WellKept(data) && f.level == Fine
    ensures Due(PhaseOf(data, f.key), f, now, hours, One(data, f, now, hours).1)
    ensures PhaseOf(data, f.key).Open? ==> One(data, f, now, hours).1 == [Cleared(f.key, data[f.key].text)]
  {
    if f.key in data && data[f.key].Urgent? {
      assert Cleared(f.key, data[f.key].text) in [Cleared(f.key, data[f.key].text)];
    }
  }

  lemma InfoIsDue(data: Data, f: Finding, now: real, hours: real)
    requires WellKept(data) && f.level == Info
    ensures Due(PhaseOf(data, f.key), f, now, hours, One(data, f, now, hours).1)
  {
  }

  lemma ProblemIsDue(data: Data, f: Finding, now: real, hours: real)
    requires WellKept(data) && IsProblem(f.level)
    ensures Due(PhaseOf(data, f.key), f, now, hours, One(data, f, now, hours).1)
  {
  }

  lemma {:induction false} PassAt(data: Data, findings: seq<Finding>, now: real, hours: real, i: nat)
    requires i < |findings| && forall j :: 0 <= j < |findings| && j != i ==> findings[j].key != findings[i].key
    requires WellKept(data)
    ensures var f := findings[i];
            && Due(PhaseOf(data, f.key), f, now, hours, About(Pass(data, findings, now, hours).1, f.key))
            && (f.level == Fine && PhaseOf(data, f.key).Open? ==>
                  About(Pass(data, findings, now, hours).1, f.key) == [Cleared(f.key, data[f.key].text)])
  {
    hide Due;
    hide About;
    hide One;
    var n, f := |findings| - 1, findings[i];
    var front, last := findings[..n], findings[n];
    var before := Pass(data, front, now, hours);
    AboutAppend(before.1, One(before.0, last, now, hours).1, f.key);
    if i == n {
      assert !Seen(front, f.key) by { forall j | 0 <= j < n ensures front[j].key != f.key {} }
      PassElsewhere(data, front, now, hours, f.key);
      AboutNone(before.1, f.key);
      PassFollows(data, front, now, hours, f.key);
      OneIsDue(before.0, f, now, hours);
      assert PhaseOf(before.0, f.key) == PhaseOf(data, f.key);
      assert [] + About(One(before.0, f, now, hours).1, f.key) == About(One(before.0, f, now, hours).1, f.key);
    } else {
      PassAt(data, front, now, hours, i);
      OneSaysItsKey(before.0, last, now, hours, f.key);
      AboutNone(One(before.0, last, now, hours).1, f.key);
      assert About(before.1, f.key) + [] == About(before.1, f.key);
    }
  }

  lemma OneSaysItsKey(data: Data, f: Finding, now: real, hours: real, key: string)
    requires f.key != key
    ensures Silent(One(data, f, now, hours).1, key)
  {
  }

  /** After any runs, a run with one finding of a key says of that key exactly what is due, by what the owner
      last heard of it: a new problem, a change of level, a reminder if and only if its hours have passed, a
      line in the digest if and only if 20 hours have, or that it is over; and nothing else. */
  lemma SaidExactly(calls: seq<Call>, c: Call, i: nat)
    requires i < |c.findings|
    requires forall j :: 0 <= j < |c.findings| && j != i ==> c.findings[j].key != c.findings[i].key
    ensures var f, said := c.findings[i], Process(Runs(calls).0, c).1;
            && Follow(START, Runs(calls).1, f.key).Some?
            && Due(Follow(START, Runs(calls).1, f.key).value, f, c.now, c.repeatHours, About(said, f.key))
            && (f.level == Fine && Follow(START, Runs(calls).1, f.key).value.Open? ==>
                  f.key in Runs(calls).0 && About(said, f.key) == [Cleared(f.key, Runs(calls).0[f.key].text)])
  {
    hide Due;
    hide About;
    hide Pass;
    hide Sweep;
    hide Follow;
    var f, data := c.findings[i], Runs(calls).0;
    RunsFollow(calls, f.key);
    hide Runs;
    PassAt(data, c.findings, c.now, c.repeatHours, i);
    var pass := Pass(data, c.findings, c.now, c.repeatHours);
    var swept := Sweep(pass.0, c.findings, c.prefixes, c.keys);
    assert Seen(c.findings, f.key);
    SweepElsewhere(pass.0, c.findings, c.prefixes, c.keys, f.key);
    AboutNone(swept.1, f.key);
    AboutAppend(pass.1, swept.1, f.key);
    assert About(pass.1, f.key) + [] == About(pass.1, f.key);
  }

  /** And of a key nobody reports, which no crash protects: that its problem is over, if there was one. */
  lemma UnreportedIsTold(calls: seq<Call>, c: Call, key: string)
    requires !Kept(c.findings, c.prefixes, key)
    requires forall i, j :: 0 <= i < j < |c.keys| ==> c.keys[i] != c.keys[j]
    requires forall k :: k in Pass(Runs(calls).0, c.findings, c.now, c.repeatHours).0 ==> k in c.keys
    ensures var p, about := Follow(START, Runs(calls).1, key), About(Process(Runs(calls).0, c).1, key);
            && p.Some?
            && (p.value.Open? ==> key in Runs(calls).0 && about == [Cleared(key, Runs(calls).0[key].text)])
            && (p.value.Closed? ==> forall text :: Cleared(key, text) !in about)
  {
    hide About;
    hide Pass;
    hide Sweep;
    hide Follow;
    var data := Runs(calls).0;
    RunsFollow(calls, key);
    hide Runs;
    PassElsewhere(data, c.findings, c.now, c.repeatHours, key);
    var pass := Pass(data, c.findings, c.now, c.repeatHours);
    var swept := Sweep(pass.0, c.findings, c.prefixes, c.keys);
    AboutNone(pass.1, key);
    AboutAppend(pass.1, swept.1, key);
    SweepSays(pass.0, c.findings, c.prefixes, c.keys, key);
    assert [] + About(swept.1, key) == About(swept.1, key);
    assert At(data, key) == At(pass.0, key);
  }

  lemma {:induction false} SweepSays(data: Data, findings: seq<Finding>, prefixes: seq<string>, keys: seq<string>,
                                     key: string)
    requires !Kept(findings, prefixes, key) && forall i, j :: 0 <= i < j < |keys| ==> keys[i] != keys[j]
    ensures About(Sweep(data, findings, prefixes, keys).1, key) == if key in keys then Removed(data, key) else []
  {
    if |keys| > 0 {
      var front, k := keys[..|keys| - 1], keys[|keys| - 1];
      SweepSays(data, findings, prefixes, front, key);
      SweepRemoves(data, findings, prefixes, front, key);
      var before := Sweep(data, findings, prefixes, front);
      LastKey(keys, key);
      SweepTurn(data, before.0, before.1, k, key);
      hide About;
      hide Kept;
      hide Removed;
      assert Sweep(data, findings, prefixes, keys).1
             == if Kept(findings, prefixes, k) then before.1 else before.1 + Removed(before.0, k);
    }
  }

  lemma LastKey(keys: seq<string>, key: string)
    requires |keys| > 0 && forall i, j :: 0 <= i < j < |keys| ==> keys[i] != keys[j]
    ensures var front, k := keys[..|keys| - 1], keys[|keys| - 1];
            (key in keys <==> key in front || key == k) && k !in front
  {
    assert keys == keys[..|keys| - 1] + [keys[|keys| - 1]];
  }

  lemma SweepTurn(data: Data, before: Data, said: seq<Said>, k: string, key: string)
    ensures About(said + Removed(before, k), key) == About(said, key) + if k == key then Removed(before, k) else []
    ensures k !in before ==> said + Removed(before, k) == said
    ensures At(before, key) == At(data, key) ==> Removed(before, key) == Removed(data, key)
    ensures [] + Removed(data, key) == Removed(data, key) && About(said, key) + [] == About(said, key)
  {
    AboutAppend(said, Removed(before, k), key);
    AboutRemoved(before, k, key);
  }

  lemma AboutRemoved(data: Data, k: string, key: string)
    ensures About(Removed(data, k), key) == if k == key then Removed(data, k) else []
  {
    var r := Removed(data, k);
    if |r| == 1 { assert r[..0] == [] && r == [] + [r[0]]; }
  }

  lemma {:induction false} PassSince(data: Data, findings: seq<Finding>, now: real, hours: real, i: nat)
    requires i < |findings| && forall j :: 0 <= j < |findings| && j != i ==> findings[j].key != findings[i].key
    ensures var f, d := findings[i], Pass(data, findings, now, hours).0;
            && (f.key in d <==> f.level != Fine)
            && (f.level != Fine ==>
                  d[f.key].since
                  == if f.key in data && !(data[f.key].Note? && IsProblem(f.level)) then data[f.key].since else now)
  {
    var n, f := |findings| - 1, findings[i];
    var front, last := findings[..n], findings[n];
    if i == n {
      assert !Seen(front, f.key) by { forall j | 0 <= j < n ensures front[j].key != f.key {} }
      PassElsewhere(data, front, now, hours, f.key);
      assert At(Pass(data, front, now, hours).0, f.key) == At(data, f.key);
    } else {
      PassSince(data, front, now, hours, i);
    }
  }

  /** How long a key has been on record: since now if it was not, or if a note becomes a problem; otherwise
      since when it was, whatever becomes of it. */
  lemma SinceIsKept(data: Data, c: Call, i: nat)
    requires i < |c.findings|
    requires forall j :: 0 <= j < |c.findings| && j != i ==> c.findings[j].key != c.findings[i].key
    ensures var f, d := c.findings[i], Process(data, c).0;
            && (f.key in d <==> f.level != Fine)
            && (f.level != Fine ==>
                  d[f.key].since
                  == if f.key in data && !(data[f.key].Note? && IsProblem(f.level)) then data[f.key].since else c.now)
  {
    var f := c.findings[i];
    PassSince(data, c.findings, c.now, c.repeatHours, i);
    var pass := Pass(data, c.findings, c.now, c.repeatHours).0;
    hide Pass;
    assert Seen(c.findings, f.key);
    SweepElsewhere(pass, c.findings, c.prefixes, c.keys, f.key);
    assert At(Process(data, c).0, f.key) == At(pass, f.key);
  }

  // ---------- since when ----------

  /** The problem of `key` was announced at `at`, and has been open ever since. */
  ghost predicate OpenedAt(log: seq<Said>, i: int, key: string, at: real) {
    && 0 <= i < |log| && log[i].New? && KeyOf(log[i]) == key && log[i].at == at
    && forall j :: i < j < |log| && KeyOf(log[j]) == key ==> log[j].Changed? || log[j].Reminder?
  }

  ghost predicate SinceInv(data: Data, log: seq<Said>) {
    forall k :: k in data && data[k].Urgent? ==> exists i :: OpenedAt(log, i, k, data[k].since)
  }

  lemma OpenedLater(log: seq<Said>, more: seq<Said>, key: string, at: real)
    requires exists i :: OpenedAt(log, i, key, at)
    requires forall j :: 0 <= j < |more| && KeyOf(more[j]) == key ==> more[j].Changed? || more[j].Reminder?
    ensures exists i :: OpenedAt(log + more, i, key, at)
  {
    var i :| OpenedAt(log, i, key, at);
    assert OpenedAt(log + more, i, key, at);
  }

  lemma OneKeepsSince(data: Data, log: seq<Said>, f: Finding, now: real, hours: real)
    requires SinceInv(data, log)
    ensures SinceInv(One(data, f, now, hours).0, log + One(data, f, now, hours).1)
  {
    var (next, said) := One(data, f, now, hours);
    forall k | k in next && next[k].Urgent? ensures exists i :: OpenedAt(log + said, i, k, next[k].since) {
      if k == f.key && said == [New(f, now)] {
        assert OpenedAt(log + said, |log|, k, now);
      } else {
        assert k in data && data[k].Urgent? && data[k].since == next[k].since;
        OneSaysMore(data, f, now, hours, k);
        OpenedLater(log, said, k, data[k].since);
      }
    }
  }

  lemma OneSaysMore(data: Data, f: Finding, now: real, hours: real, k: string)
    requires k in data && data[k].Urgent?
    requires k in One(data, f, now, hours).0 && One(data, f, now, hours).0[k].Urgent?
    ensures var said := One(data, f, now, hours).1;
            forall j :: 0 <= j < |said| && KeyOf(said[j]) == k ==> said[j].Changed? || said[j].Reminder?
  {
  }

  lemma {:induction false} PassKeepsSince(data: Data, log: seq<Said>, findings: seq<Finding>, now: real, hours: real)
    requires SinceInv(data, log)
    ensures var p := Pass(data, findings, now, hours); SinceInv(p.0, log + p.1)
  {
    hide SinceInv;
    hide One;
    if |findings| == 0 {
      assert log + [] == log;
    } else {
      var front, f := findings[..|findings| - 1], findings[|findings| - 1];
      PassKeepsSince(data, log, front, now, hours);
      var before := Pass(data, front, now, hours);
      OneKeepsSince(before.0, log + before.1, f, now, hours);
      assert log + before.1 + One(before.0, f, now, hours).1 == log + (before.1 + One(before.0, f, now, hours).1);
    }
  }

  lemma {:induction false} SweepKeepsSince(data: Data, log: seq<Said>, findings: seq<Finding>, prefixes: seq<string>,
                                           keys: seq<string>)
    requires SinceInv(data, log)
    ensures var p := Sweep(data, findings, prefixes, keys); SinceInv(p.0, log + p.1)
  {
    if |keys| == 0 {
      assert log + [] == log;
    } else {
      var front, k := keys[..|keys| - 1], keys[|keys| - 1];
      SweepKeepsSince(data, log, findings, prefixes, front);
      var before := Sweep(data, findings, prefixes, front);
      hide Sweep;
      hide Kept;
      RemovedKeepsSince(before.0, log + before.1, k);
      assert log + before.1 + Removed(before.0, k) == log + (before.1 + Removed(before.0, k));
    }
  }

  lemma RemovedKeepsSince(data: Data, log: seq<Said>, k: string)
    requires SinceInv(data, log)
    ensures SinceInv(data - {k}, log + Removed(data, k))
  {
    forall q | q in data - {k} && data[q].Urgent?
      ensures exists i :: OpenedAt(log + Removed(data, k), i, q, data[q].since)
    {
      OpenedLater(log, Removed(data, k), q, data[q].since);
    }
  }

  lemma ProcessKeepsSince(data: Data, log: seq<Said>, c: Call)
    requires SinceInv(data, log)
    ensures SinceInv(Process(data, c).0, log + Process(data, c).1)
  {
    hide SinceInv;
    hide Pass;
    hide Sweep;
    var pass := Pass(data, c.findings, c.now, c.repeatHours);
    var swept := Sweep(pass.0, c.findings, c.prefixes, c.keys);
    PassKeepsSince(data, log, c.findings, c.now, c.repeatHours);
    SweepKeepsSince(pass.0, log + pass.1, c.findings, c.prefixes, c.keys);
    assert log + pass.1 + swept.1 == log + (pass.1 + swept.1);
  }

  /** The time stored with an open problem is that of the message which announced it. */
  lemma {:induction false} SinceItWasAnnounced(calls: seq<Call>)
    ensures SinceInv(Runs(calls).0, Runs(calls).1)
  {
    if |calls| > 0 {
      var front, c := calls[..|calls| - 1], calls[|calls| - 1];
      SinceItWasAnnounced(front);
      ProcessKeepsSince(Runs(front).0, Runs(front).1, c);
      hide Process;
      hide SinceInv;
    }
  }

  // ---------- the level fed back to the grading ----------

  /** Each run reports `key`, graded against what the store gave back. */
  ghost predicate Measured(calls: seq<Call>, key: string, values: seq<real>, warn: real, crit: real, margin: real) {
    && |values| == |calls|
    && forall n :: 0 <= n < |calls| ==> MeasuredAt(calls, n, key, values[n], warn, crit, margin)
  }

  ghost predicate MeasuredAt(calls: seq<Call>, n: int, key: string, value: real, warn: real, crit: real, margin: real)
    requires 0 <= n < |calls|
  {
    exists i :: Reports(calls[n], i, key, Graded(value, PreviousLevel(Runs(calls[..n]).0, key), warn, crit, margin))
  }

  ghost predicate Reports(c: Call, i: int, key: string, level: Level) {
    && 0 <= i < |c.findings| && c.findings[i].key == key && c.findings[i].level == level
    && forall j :: i < j < |c.findings| ==> c.findings[j].key != key
  }

  /** Then the stored level is at all times the hysteresis over all the values measured. */
  lemma {:induction false} StoredLevelIsHysteresis(calls: seq<Call>, key: string, values: seq<real>, warn: real,
                                                   crit: real, margin: real)
    requires Measured(calls, key, values, warn, crit, margin)
    ensures PreviousLevel(Runs(calls).0, key) == LevelAfter(values, Fine, warn, crit, margin)
  {
    if |calls| > 0 {
      var n := |calls| - 1;
      MeasuredFront(calls, key, values, warn, crit, margin);
      StoredLevelIsHysteresis(calls[..n], key, values[..n], warn, crit, margin);
      var level := Graded(values[n], PreviousLevel(Runs(calls[..n]).0, key), warn, crit, margin);
      assert MeasuredAt(calls, n, key, values[n], warn, crit, margin);
      var i :| Reports(calls[n], i, key, level);
      ReportedIsStored(Runs(calls[..n]).0, calls[n], i, key, level);
      assert PreviousLevel(Runs(calls).0, key) == level;
      assert values[..|values| - 1] == values[..n];
    }
  }

  lemma MeasuredFront(calls: seq<Call>, key: string, values: seq<real>, warn: real, crit: real, margin: real)
    requires |calls| > 0 && Measured(calls, key, values, warn, crit, margin)
    ensures Measured(calls[..|calls| - 1], key, values[..|calls| - 1], warn, crit, margin)
  {
    hide Graded;
    hide PreviousLevel;
    hide Runs;
    hide Reports;
    var n := |calls| - 1;
    forall m | 0 <= m < n ensures MeasuredAt(calls[..n], m, key, values[..n][m], warn, crit, margin) {
      assert calls[..n][..m] == calls[..m] && calls[..n][m] == calls[m];
      assert MeasuredAt(calls, m, key, values[m], warn, crit, margin);
    }
  }

  lemma ReportedIsStored(data: Data, c: Call, i: int, key: string, level: Level)
    requires Reports(c, i, key, level)
    ensures PreviousLevel(Process(data, c).0, key) == level
  {
    LastFindingWins(data, c.findings, c.now, c.repeatHours, i);
    var pass := Pass(data, c.findings, c.now, c.repeatHours).0;
    assert Seen(c.findings, key);
    SweepElsewhere(pass, c.findings, c.prefixes, c.keys, key);
    assert At(Process(data, c).0, key) == At(pass, key);
  }
}
