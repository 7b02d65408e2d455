/** The alert store as an object (pskit/alerts.py) and the probes that feed it (pskit/checks.py). */
module AlertHost {
  import opened Common
  import opened Grading
  import opened Alerts

  /** What one run has to tell. */
  datatype Outcome = Outcome(started: seq<Finding>, changed: seq<Finding>, cleared: seq<(string, string)>,
                             reminders: seq<Finding>, digest: seq<Finding>)

  const NOTHING := Outcome([], [], [], [], [])

  function Add(out: Outcome, s: Said): Outcome {
    match s
    case New(f, _) => out.(started := out.started + [f])
    case Changed(f, _) => out.(changed := out.changed + [f])
    case Reminder(f, _, _) => out.(reminders := out.reminders + [f])
    case Cleared(k, text) => out.(cleared := out.cleared + [(k, text)])
    case Digest(f, _) => out.(digest := out.digest + [f])
    case Dropped(_) => out
  }

  /** The outcome that tells of all that was said. */
  function OutcomeOf(said: seq<Said>): Outcome {
    if |said| == 0 then NOTHING else Add(OutcomeOf(said[..|said| - 1]), said[|said| - 1])
  }

  lemma OutcomeSnoc(said: seq<Said>, s: Said)
    ensures OutcomeOf(said + [s]) == Add(OutcomeOf(said), s)
  {
    assert (said + [s])[..|said|] == said;
  }

  predicate IsUrgent(out: Outcome) {
    out.started != [] || out.changed != [] || out.cleared != [] || out.reminders != []
  }

  /** The outcome tells of `s`. */
  predicate InLetter(out: Outcome, s: Said) {
    match s
    case New(f, _) => f in out.started
    case Changed(f, _) => f in out.changed
    case Reminder(f, _, _) => f in out.reminders
    case Cleared(k, text) => (k, text) in out.cleared
    case Digest(f, _) => f in out.digest
    case Dropped(_) => true
  }

  lemma {:induction false} OutcomeTells(said: seq<Said>, i: nat)
    requires i < |said|
    ensures InLetter(OutcomeOf(said), said[i])
  {
    if i < |said| - 1 { OutcomeTells(said[..|said| - 1], i); }
  }

  function Heard(said: seq<Said>): nat {
    if |said| == 0 then 0 else Heard(said[..|said| - 1]) + if said[|said| - 1].Dropped? then 0 else 1
  }

  /** Every entry of an outcome was said, as what it is listed as. */
  ghost predicate OnlySaid(out: Outcome, said: seq<Said>) {
    && (forall f :: f in out.started ==> exists j :: 0 <= j < |said| && said[j].New? && said[j].finding == f)
    && (forall f :: f in out.changed ==> exists j :: 0 <= j < |said| && said[j].Changed? && said[j].finding == f)
    && (forall f :: f in out.reminders ==> exists j :: 0 <= j < |said| && said[j].Reminder? && said[j].finding == f)
    && (forall f :: f in out.digest ==> exists j :: 0 <= j < |said| && said[j].Digest? && said[j].finding == f)
    && (forall c :: c in out.cleared ==> exists j :: 0 <= j < |said| && said[j] == Cleared(c.0, c.1))
  }

  /** The outcome tells each thing said once, and nothing else. */
  lemma {:induction false} OutcomeTellsOnlyThat(said: seq<Said>)
    ensures OnlySaid(OutcomeOf(said), said)
    ensures var out := OutcomeOf(said);
            |out.started| + |out.changed| + |out.cleared| + |out.reminders| + |out.digest| == Heard(said)
  {
    if |said| > 0 {
      var front, last := said[..|said| - 1], said[|said| - 1];
      OutcomeTellsOnlyThat(front);
      SaidLater(OutcomeOf(front), front, last);
      AddSays(OutcomeOf(front), said, last);
      assert said == front + [last];
    }
  }

  lemma SaidLater(out: Outcome, said: seq<Said>, s: Said)
    requires OnlySaid(out, said)
    ensures OnlySaid(out, said + [s])
  {
    var more := said + [s];
    forall j | 0 <= j < |said| ensures more[j] == said[j] {}
  }

  lemma AddSays(out: Outcome, said: seq<Said>, s: Said)
    requires |said| > 0 && s == said[|said| - 1] && OnlySaid(out, said)
    ensures OnlySaid(Add(out, s), said)
  {
  }

  class AlertState {
    var data: Data

    /** Read from the saved file; a missing or unreadable one counts as empty. */
    constructor (saved: Data)
      ensures data == saved
    {
      data := saved;
    }

    /** One finding. */
    method Take(f: Finding, now: real, repeatHours: real, before: Outcome, ghost said: seq<Said>) returns (out: Outcome)
      requires before == OutcomeOf(said)
      modifies this
      ensures data == One(old(data), f, now, repeatHours).0
      ensures out == OutcomeOf(said + One(old(data), f, now, repeatHours).1)
    {
      hide OutcomeOf;
      out := before;
      ghost var more := One(data, f, now, repeatHours).1;
      assert |more| == 0 ==> said + more == said;
      if |more| > 0 { OutcomeSnoc(said, more[0]); }
      if |more| == 2 {
        OutcomeSnoc(said + [more[0]], more[1]);
        assert said + more == said + [more[0]] + [more[1]];
      } else if |more| == 1 {
        assert more == [more[0]];
      }
      var known := f.key in data;
      if f.level == Fine {
        if known && data[f.key].Urgent? { out := out.(cleared := out.cleared + [(f.key, data[f.key].text)]); }
        data := data - {f.key};
      } else if f.level == Info {
        if !known || data[f.key].Urgent? || now - data[f.key].digestAt >= DIGEST_EVERY {
          out := out.(digest := out.digest + [f]);
          data := data[f.key := Note(f.text, if known then data[f.key].since else now, now)];
        }
      } else if !known || data[f.key].Note? {
        out := out.(started := out.started + [f]);
        data := data[f.key := Urgent(f.level, f.text, now, now)];
      } else {
        var prev := data[f.key];
        if prev.level != f.level {
          out := out.(changed := out.changed + [f]);
          data := data[f.key := Urgent(f.level, f.text, prev.since, now)];
        } else if now - prev.sentAt >= repeatHours * 3600.0 {
          out := out.(reminders := out.reminders + [f]);
          data := data[f.key := Urgent(prev.level, f.text, prev.since, now)];
        } else {
          data := data[f.key := Urgent(prev.level, f.text, prev.since, prev.sentAt)];
        }
      }
    }

    /** `list(self.data)`, in whatever order. */
    method Keys() returns (keys: seq<string>)
      ensures forall k :: k in keys <==> k in data
    {
      keys := [];
      var left := data.Keys;
      while left != {}
        invariant left <= data.Keys
        invariant forall k :: k in keys <==> k in data && k !in left
        decreases |left|
      {
        var k :| k in left;
        keys := keys + [k];
        left := left - {k};
      }
    }

    method ProcessFindings(findings: seq<Finding>, now: real, repeatHours: real, prefixes: seq<string>)
      returns (out: Outcome, ghost call: Call)
      modifies this
      ensures call == Call(findings, now, repeatHours, prefixes, call.keys)
      ensures forall k :: k in call.keys <==> k in Pass(old(data), findings, now, repeatHours).0
      ensures data == Process(old(data), call).0 && out == OutcomeOf(Process(old(data), call).1)
    {
      out := NOTHING;
      ghost var said: seq<Said> := [];
      ghost var first := data;
      var seen: set<string> := {};
      var i := 0;
      while i < |findings|
        invariant 0 <= i <= |findings|
        invariant (data, said) == Pass(first, findings[..i], now, repeatHours)
        invariant out == OutcomeOf(said)
        invariant forall k :: k in seen <==> exists j :: 0 <= j < i && findings[j].key == k
      {
        ghost var was := data;
        assert findings[..i + 1][..i] == findings[..i];
        seen := seen + {findings[i].key};
        out := Take(findings[i], now, repeatHours, out, said);
        said := said + One(was, findings[i], now, repeatHours).1;
        i := i + 1;
      }
      assert findings[..i] == findings;
      assert forall k :: k in seen <==> Seen(findings, k);
      var keys := Keys();
      out := Clear(findings, seen, prefixes, keys, out, said);
      call := Call(findings, now, repeatHours, prefixes, keys);
    }

    method Forget(key: string, before: Outcome, ghost said: seq<Said>) returns (out: Outcome)
      requires key in data && before == OutcomeOf(said)
      modifies this
      ensures data == old(data) - {key} && out == OutcomeOf(said + Removed(old(data), key))
    {
      out := before;
      var prev := data[key];
      data := data - {key};
      if prev.Urgent? {
        OutcomeSnoc(said, Cleared(key, prev.text));
        out := out.(cleared := out.cleared + [(key, prev.text)]);
      } else {
        OutcomeSnoc(said, Dropped(key));
      }
    }

    /** The second loop: stored keys that were not seen. */
    method Clear(ghost findings: seq<Finding>, seen: set<string>, prefixes: seq<string>, keys: seq<string>,
                 before: Outcome, ghost said: seq<Said>)
      returns (out: Outcome)
      requires forall k :: k in seen <==> Seen(findings, k)
      requires before == OutcomeOf(said)
      modifies this
      ensures data == Sweep(old(data), findings, prefixes, keys).0
      ensures out == OutcomeOf(said + Sweep(old(data), findings, prefixes, keys).1)
    {
      hide Removed;
      hide OutcomeOf;
      out := before;
      ghost var first := data;
      ghost var more: seq<Said> := [];
      assert said + more == said;
      var i := 0;
      while i < |keys|
        invariant 0 <= i <= |keys|
        invariant (data, more) == Sweep(first, findings, prefixes, keys[..i])
        invariant out == OutcomeOf(said + more)
      {
        assert keys[..i + 1][..i] == keys[..i];
        var key := keys[i];
        if key in data && key !in seen && !StartsWith(key, prefixes) {
          ghost var gone := Removed(data, key);
          assert said + more + gone == said + (more + gone);
          out := Forget(key, out, said + more);
          more := more + gone;
        }
        i := i + 1;
      }
      assert keys[..i] == keys;
    }
  }

  // ---------- Probes.collect ----------

  const PROBES: seq<string> :=
    ["disk", "mem", "swap", "access", "unit", "failed", "updates", "time", "backup", "brain", "device"]

  /** A probe's findings, or the name of what it raised. */
  type Results = map<string, Result<seq<Finding>, string>>

  /** The probe under whose name keys of this kind are reported. */
  function Owner(kind: string): string {
    if kind == "swap" then "mem" else if kind == "failed" then "unit" else if kind == "time" then "updates" else kind
  }

  function Colon(kind: string): string {
    kind + ":"
  }

  predicate IsOf(key: string, kind: string) {
    ':' !in kind && Colon(kind) <= key
  }

  /** Probes report keys of their own kinds. */
  ghost predicate OwnKeys(results: Results) {
    forall name, i :: name in results && results[name].Ok? && 0 <= i < |results[name].value| ==>
      exists kind :: IsOf(results[name].value[i].key, kind) && Owner(kind) == name
  }

  lemma FirstColon(key: string, kind: string)
    requires IsOf(key, kind)
    ensures |kind| < |key| && key[|kind|] == ':' && kind == key[..|kind|]
    ensures forall i :: 0 <= i < |kind| ==> key[i] != ':'
  {
    forall i | 0 <= i < |kind| ensures key[i] == kind[i] { assert Colon(kind)[i] == kind[i]; }
    assert Colon(kind)[|kind|] == ':';
  }

  /** A key has one kind: what comes before its first colon. */
  lemma KindIsUnique(key: string, a: string, b: string)
    requires IsOf(key, a) && IsOf(key, b)
    ensures a == b
  {
    FirstColon(key, a);
    FirstColon(key, b);
  }

  function ProbeFailed(name: string, error: string): Finding {
    Finding(Colon("probe") + name, Warn, error)
  }

  /** What is reported about the first probes of a list. */
  function Reported(results: Results, names: seq<string>): seq<Finding>
    requires forall i :: 0 <= i < |names| ==> names[i] in results
  {
    if |names| == 0 then []
    else
      var name := names[|names| - 1];
      Reported(results, names[..|names| - 1])
      + match results[name] case Ok(fs) => fs case Err(e) => [ProbeFailed(name, e)]
  }

  function Crashed(results: Results, names: seq<string>): seq<string>
    requires forall i :: 0 <= i < |names| ==> names[i] in results
  {
    if |names| == 0 then []
    else
      var name := names[|names| - 1];
      Crashed(results, names[..|names| - 1]) + if results[name].Err? then [Colon(name)] else []
  }

  /** The kinds that go with a crashed probe. */
  function WithAliases(crashed: seq<string>): seq<string> {
    var a := if Colon("unit") in crashed then crashed + [Colon("failed")] else crashed;
    var b := if Colon("mem") in a then a + [Colon("swap")] else a;
    if Colon("updates") in b then b + [Colon("time")] else b
  }

  method Collect(results: Results) returns (findings: seq<Finding>, crashed: seq<string>)
    requires forall i :: 0 <= i < |PROBES| ==> PROBES[i] in results
    ensures findings == Reported(results, PROBES)
    ensures crashed == WithAliases(Crashed(results, PROBES))
  {
    findings, crashed := [], [];
    var i := 0;
    while i < |PROBES|
      invariant 0 <= i <= |PROBES|
      invariant findings == Reported(results, PROBES[..i])
      invariant crashed == Crashed(results, PROBES[..i])
    {
      assert PROBES[..i + 1][..i] == PROBES[..i];
      var name := PROBES[i];
      match results[name] {
        case Ok(fs) => findings := findings + fs;
        case Err(e) =>
          crashed := crashed + [Colon(name)];
          findings := findings + [ProbeFailed(name, e)];
      }
      i := i + 1;
    }
    assert PROBES[..i] == PROBES;
    if Colon("unit") in crashed { crashed := crashed + [Colon("failed")]; }
    if Colon("mem") in crashed { crashed := crashed + [Colon("swap")]; }
    if Colon("updates") in crashed { crashed := crashed + [Colon("time")]; }
  }

  /** What probe `name` reports. */
  predicate FromProbe(results: Results, name: string, f: Finding)
    requires name in results
  {
    match results[name]
    case Ok(fs) => f in fs
    case Err(e) => f == ProbeFailed(name, e)
  }

  lemma {:induction false} ReportedHas(results: Results, names: seq<string>, i: nat)
    requires forall j :: 0 <= j < |names| ==> names[j] in results
    requires i < |Reported(results, names)|
    ensures var f := Reported(results, names)[i];
            exists j :: 0 <= j < |names| && FromProbe(results, names[j], f)
  {
    var n := |names| - 1;
    var front := names[..n];
    if i < |Reported(results, front)| {
      ReportedHas(results, front, i);
      var f := Reported(results, names)[i];
      var j :| 0 <= j < |front| && FromProbe(results, front[j], f);
      assert names[j] == front[j];
    }
  }

  lemma {:induction false} CrashedHas(results: Results, names: seq<string>, j: nat)
    requires forall i :: 0 <= i < |names| ==> names[i] in results
    requires j < |names| && results[names[j]].Err?
    ensures Colon(names[j]) in Crashed(results, names)
  {
    if j < |names| - 1 {
      assert names[..|names| - 1][j] == names[j];
      CrashedHas(results, names[..|names| - 1], j);
    }
  }

  /** Whatever the other probes report, a run in which the owner of a key crashed leaves the key's record
      as it is and says nothing about it, so that nothing is reported cleared only because nobody looked. */
  lemma NothingClearedByACrash(results: Results, data: Data, c: Call, key: string, kind: string)
    requires forall i :: 0 <= i < |PROBES| ==> PROBES[i] in results
    requires OwnKeys(results) && IsOf(key, kind) && kind != "probe" && Owner(kind) in PROBES
             && results[Owner(kind)].Err?
    requires c.findings == Reported(results, PROBES) && c.prefixes == WithAliases(Crashed(results, PROBES))
    ensures At(Process(data, c).0, key) == At(data, key) && Silent(Process(data, c).1, key)
  {
    var j :| 0 <= j < |PROBES| && PROBES[j] == Owner(kind);
    CrashedHas(results, PROBES, j);
    assert Colon(kind) in c.prefixes;
    var p :| 0 <= p < |c.prefixes| && c.prefixes[p] == Colon(kind);
    assert StartsWith(key, c.prefixes);
    NobodyElseReports(results, key, kind);
    CrashedKeysKept(data, c, key);
  }

  lemma NobodyElseReports(results: Results, key: string, kind: string)
    requires forall i :: 0 <= i < |PROBES| ==> PROBES[i] in results
    requires OwnKeys(results) && IsOf(key, kind) && kind != "probe" && Owner(kind) in PROBES
             && results[Owner(kind)].Err?
    ensures !Seen(Reported(results, PROBES), key)
  {
    forall i | 0 <= i < |Reported(results, PROBES)| ensures Reported(results, PROBES)[i].key != key {
      ReportedHas(results, PROBES, i);
      var f := Reported(results, PROBES)[i];
      var j :| 0 <= j < |PROBES| && FromProbe(results, PROBES[j], f);
      if f.key == key {
        match results[PROBES[j]] {
          case Ok(fs) =>
            var m :| 0 <= m < |fs| && fs[m] == f;
            var other :| IsOf(fs[m].key, other) && Owner(other) == PROBES[j];
            KindIsUnique(key, kind, other);
          case Err(_) =>
            KindIsUnique(key, kind, "probe");
        }
        assert false;
      }
    }
  }
}
