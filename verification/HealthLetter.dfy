/** `compose` of pskit/runtime/health.py: the one message a health run queues, and how much of it arrives. */
module HealthLetter {
  import opened Common
  import opened Grading
  import opened Alerts
  import opened AlertHost
  import Cooldown
  import Lines
  import Spool
  import SpoolTheorems

  /** The translated words. */
  datatype Words = Words(still: string, resolved: string, problem: string, recovered: string)

  predicate Begins(s: string) {
    |s| > 0 && !IsSpace(s[0])
  }

  /** What the translations have in common. */
  predicate Spoken(w: Words) {
    Begins(w.still) && Begins(w.resolved) && Begins(w.problem) && Begins(w.recovered)
  }

  const ENGLISH := Words("Still:", "Resolved:", "needs attention", "back to normal")

  const PORTUGUESE := Words("Continua:", "Resolvido:", "precisa de aten\U{e7}\U{e3}o", "voltou ao normal")

  lemma BothAreSpoken()
    ensures Spoken(ENGLISH) && Spoken(PORTUGUESE)
  {
  }

  // ---------- the lines ----------

  function Marked(f: Finding): string {
    (if f.level == Crit then "[!!] " else "[!] ") + f.text
  }

  function Problems(fs: seq<Finding>): (lines: seq<string>)
    ensures |lines| == |fs| && forall i :: 0 <= i < |fs| ==> lines[i] == Marked(fs[i])
  {
    if |fs| == 0 then [] else Problems(fs[..|fs| - 1]) + [Marked(fs[|fs| - 1])]
  }

  function Stills(w: Words, fs: seq<Finding>): (lines: seq<string>)
    ensures |lines| == |fs| && forall i :: 0 <= i < |fs| ==> lines[i] == w.still + " " + fs[i].text
  {
    if |fs| == 0 then [] else Stills(w, fs[..|fs| - 1]) + [w.still + " " + fs[|fs| - 1].text]
  }

  function Resolveds(w: Words, cs: seq<(string, string)>): (lines: seq<string>)
    ensures |lines| == |cs| && forall i :: 0 <= i < |cs| ==> lines[i] == w.resolved + " " + cs[i].1
  {
    if |cs| == 0 then [] else Resolveds(w, cs[..|cs| - 1]) + [w.resolved + " " + cs[|cs| - 1].1]
  }

  function LetterLines(w: Words, out: Outcome): seq<string> {
    Problems(out.started + out.changed) + Stills(w, out.reminders) + Resolveds(w, out.cleared)
  }

  /** The line that tells of one entry, if it goes into the letter. */
  function LineFor(w: Words, s: Said): Option<string> {
    match s
    case New(f, _) => Some(Marked(f))
    case Changed(f, _) => Some(Marked(f))
    case Reminder(f, _, _) => Some(w.still + " " + f.text)
    case Cleared(_, text) => Some(w.resolved + " " + text)
    case _ => None
  }

  lemma LinesAt(w: Words, out: Outcome)
    ensures var lines, a, b, c := LetterLines(w, out), out.started + out.changed, out.reminders, out.cleared;
            && |lines| == |a| + |b| + |c|
            && (forall i :: 0 <= i < |a| ==> lines[i] == Marked(a[i]))
            && (forall i :: 0 <= i < |b| ==> lines[|a| + i] == w.still + " " + b[i].text)
            && (forall i :: 0 <= i < |c| ==> lines[|a| + |b| + i] == w.resolved + " " + c[i].1)
  {
  }

  /** Each entry has its line. */
  lemma HasItsLine(w: Words, out: Outcome, s: Said) returns (j: nat)
    requires InLetter(out, s) && LineFor(w, s).Some?
    ensures j < |LetterLines(w, out)| && LetterLines(w, out)[j] == LineFor(w, s).value
  {
    var a, b, c := out.started + out.changed, out.reminders, out.cleared;
    LinesAt(w, out);
    hide LetterLines;
    match s {
      case New(f, _) =>
        var i :| 0 <= i < |out.started| && out.started[i] == f;
        assert a[i] == f;
        j := i;
      case Changed(f, _) =>
        var i :| 0 <= i < |out.changed| && out.changed[i] == f;
        assert a[|out.started| + i] == f;
        j := |out.started| + i;
      case Reminder(f, _, _) =>
        var i :| 0 <= i < |b| && b[i] == f;
        j := |a| + i;
      case Cleared(k, text) =>
        var i :| 0 <= i < |c| && c[i] == (k, text);
        j := |a| + |b| + i;
    }
  }

  lemma LinesBegin(w: Words, out: Outcome)
    requires Spoken(w)
    ensures forall i :: 0 <= i < |LetterLines(w, out)| ==> Begins(LetterLines(w, out)[i])
    ensures IsUrgent(out) <==> |LetterLines(w, out)| > 0
  {
  }

  // ---------- the letter ----------

  function Severity(out: Outcome): string {
    if exists i :: 0 <= i < |out.started + out.changed + out.reminders|
                   && (out.started + out.changed + out.reminders)[i].level == Crit
    then "critical" else "warn"
  }

  datatype Letter = Letter(severity: string, title: string, body: string)

  function Composed(w: Words, out: Outcome): Option<Letter> {
    if !IsUrgent(out) then None
    else
      var body := Lines.Join(LetterLines(w, out));
      if out.started != [] || out.changed != [] || out.reminders != [] then Some(Letter(Severity(out), w.problem, body))
      else Some(Letter("warn", w.recovered, body))
  }

  ghost predicate Mentions(out: Outcome, f: Finding) {
    f in out.started || f in out.changed || f in out.reminders
  }

  /** There is a letter unless nothing happened; it is critical exactly if it tells of a critical problem, and
      else a warning; it is titled as a recovery exactly if it tells of nothing else; and it has a line for
      each entry, first the new and the changed problems, critical ones marked as such, then what is still
      open and what is over. */
  lemma LetterExactly(w: Words, out: Outcome)
    ensures Composed(w, out).None?
            <==> out.started == [] && out.changed == [] && out.reminders == [] && out.cleared == []
    ensures Composed(w, out).Some? ==>
              var l, a := Composed(w, out).value, out.started + out.changed;
              && l.severity == (if exists f :: Mentions(out, f) && f.level == Crit then "critical" else "warn")
              && l.title == (if a == [] && out.reminders == [] then w.recovered else w.problem)
              && l.body == Lines.Join(LetterLines(w, out))
    ensures var lines, a := LetterLines(w, out), out.started + out.changed;
            && |lines| == |a| + |out.reminders| + |out.cleared|
            && (forall i :: 0 <= i < |a| ==> lines[i] == (if a[i].level == Crit then "[!!] " else "[!] ") + a[i].text)
            && (forall i :: 0 <= i < |out.reminders| ==>
                  lines[|a| + i] == w.still + " " + out.reminders[i].text)
            && (forall i :: 0 <= i < |out.cleared| ==>
                  lines[|a| + |out.reminders| + i] == w.resolved + " " + out.cleared[i].1)
  {
    LinesAt(w, out);
    hide LetterLines;
    SeverityIs(out);
    hide Severity;
  }

  lemma SeverityIs(out: Outcome)
    ensures Severity(out) == if exists f :: Mentions(out, f) && f.level == Crit then "critical" else "warn"
  {
    var all := out.started + out.changed + out.reminders;
    if f :| Mentions(out, f) && f.level == Crit {
      assert f in all;
      var i :| 0 <= i < |all| && all[i] == f;
    }
    if i :| 0 <= i < |all| && all[i].level == Crit {
      assert all[i] in all;
      assert Mentions(out, all[i]);
    }
  }

  method Compose(w: Words, out: Outcome) returns (r: Option<Letter>)
    ensures r == Composed(w, out)
  {
    if !IsUrgent(out) { return None; }
    var lines: seq<string> := [];
    var problems := out.started + out.changed;
    for i := 0 to |problems|
      invariant lines == Problems(problems)[..i]
    {
      lines := lines + [(if problems[i].level == Crit then "[!!] " else "[!] ") + problems[i].text];
    }
    for i := 0 to |out.reminders|
      invariant lines == Problems(problems) + Stills(w, out.reminders)[..i]
    {
      lines := lines + [w.still + " " + out.reminders[i].text];
    }
    for i := 0 to |out.cleared|
      invariant lines == Problems(problems) + Stills(w, out.reminders) + Resolveds(w, out.cleared)[..i]
    {
      lines := lines + [w.resolved + " " + out.cleared[i].1];
    }
    assert lines == LetterLines(w, out);
    if out.started != [] || out.changed != [] || out.reminders != [] {
      r := Some(Letter(Severity(out), w.problem, Lines.Join(lines)));
    } else {
      r := Some(Letter("warn", w.recovered, Lines.Join(lines)));
    }
  }

  /** What `enqueue` makes of it: neither key nor cooldown. */
  function Enqueued(l: Letter): Option<Spool.Message> {
    Spool.Compose(l.severity, l.title, l.body, "", 0.0)
  }

  /** The file in the spool, `frame` bytes of it for names, numbers and the source. */
  function FileOf(w: Words, out: Outcome, frame: nat): Option<Spool.File> {
    match Composed(w, out)
    case None => None
    case Some(l) =>
      match Enqueued(l)
      case None => None
      case Some(m) => Some(Spool.File(Spool.Encoded(m, frame), Some(m)))
  }

  // ---------- how much of it arrives ----------

  /** The letter up to the end of line `i`, white space at that end aside. */
  function Through(lines: seq<string>, i: nat): string
    requires i < |lines|
  {
    (if i == 0 then "" else Lines.Join(lines[..i]) + "\n") + Spool.StripRight(lines[i])
  }

  /** The delivered message has line `i`, in its place after the lines before. */
  predicate Told(file: Spool.File, lines: seq<string>, i: nat)
    requires i < |lines|
  {
    var m := Spool.Accept(file);
    m.Some? && Through(lines, i) <= m.value.body
  }

  lemma {:induction false} StripRightPrefix(p: string, q: string)
    ensures Spool.StripRight(p) <= p
    ensures Spool.StripRight(p) <= Spool.StripRight(p + q)
  {
    if |q| == 0 {
      assert p + q == p;
      if |p| > 0 && IsSpace(p[|p| - 1]) { StripRightPrefix(p[..|p| - 1], ""); }
    } else {
      var n := |q| - 1;
      StripRightPrefix(p, q[..n]);
      assert (p + q)[..|p + q| - 1] == p + q[..n] && (p + q)[|p + q| - 1] == q[n];
    }
  }

  /** Stripping from the right stops at the last character that is no white space. */
  lemma {:induction false} StripRightStops(p: string, q: string)
    requires Begins(q)
    ensures Spool.StripRight(p + q) == p + Spool.StripRight(q)
  {
    if IsSpace(q[|q| - 1]) {
      var n := |q| - 1;
      StripRightStops(p, q[..n]);
      assert (p + q)[..|p + q| - 1] == p + q[..n];
    } else {
      assert (p + q)[|p + q| - 1] == q[|q| - 1];
    }
  }

  lemma {:induction false} JoinSnoc(lines: seq<string>, line: string)
    ensures Lines.Join(lines + [line]) == (if |lines| == 0 then "" else Lines.Join(lines) + "\n") + line
  {
    if |lines| == 0 {
      assert lines + [line] == [line];
    } else {
      assert (lines + [line])[1..] == lines[1..] + [line] && (lines + [line])[0] == lines[0];
      JoinSnoc(lines[1..], line);
      if |lines| == 1 { assert lines[1..] == []; }
    }
  }

  lemma ThroughIs(lines: seq<string>, i: nat)
    requires i < |lines| && Begins(lines[i])
    ensures Through(lines, i) == Spool.StripRight(Lines.Join(lines[..i + 1]))
  {
    assert lines[..i + 1] == lines[..i] + [lines[i]];
    JoinSnoc(lines[..i], lines[i]);
    StripRightStops(if i == 0 then "" else Lines.Join(lines[..i]) + "\n", lines[i]);
  }

  lemma {:induction false} JoinPrefix(lines: seq<string>, n: nat)
    requires n <= |lines|
    ensures Lines.Join(lines[..n]) <= Lines.Join(lines)
    decreases |lines| - n
  {
    if n < |lines| {
      JoinPrefix(lines, n + 1);
      assert lines[..n + 1] == lines[..n] + [lines[n]];
      JoinSnoc(lines[..n], lines[n]);
    } else {
      assert lines[..n] == lines;
    }
  }

  /** The body of the queued message. */
  lemma BodyIs(w: Words, out: Outcome)
    requires Spoken(w) && IsUrgent(out)
    ensures var l := Composed(w, out).value;
            var text := Spool.StripRight(Lines.Join(LetterLines(w, out)));
            && Enqueued(l).Some?
            && Enqueued(l).value.body == Spool.Clip(text, Spool.MAX_BODY)
            && Cooldown.Free(Enqueued(l).value.key, Enqueued(l).value.hours)
  {
    var lines := LetterLines(w, out);
    LinesBegin(w, out);
    assert Begins(Lines.Join(lines));
    hide LetterLines;
    TitleStays(w.problem);
    TitleStays(w.recovered);
  }

  lemma TitleStays(s: string)
    requires Begins(s)
    ensures Spool.Strip(s) != ""
  {
    FirstStays(s);
  }

  lemma {:induction false} FirstStays(s: string)
    requires Begins(s)
    ensures Begins(Spool.StripRight(s))
  {
    if IsSpace(s[|s| - 1]) { FirstStays(s[..|s| - 1]); }
  }

  /** Which entries reach the owner: exactly those whose line ends within the first 3000 characters of the
      letter, and those only if the file stays within the limit of the spool. */
  lemma ArrivesExactly(w: Words, out: Outcome, frame: nat, i: nat)
    requires Spoken(w) && i < |LetterLines(w, out)|
    ensures var lines, file := LetterLines(w, out), FileOf(w, out, frame);
            && file.Some?
            && (Told(file.value, lines, i)
                <==> |Through(lines, i)| <= Spool.MAX_BODY && file.value.size <= Spool.MAX_FILE_BYTES)
  {
    var lines := LetterLines(w, out);
    LinesBegin(w, out);
    BodyIs(w, out);
    ThroughIsPrefix(lines, i);
    hide LetterLines;
    hide Composed;
    hide Through;
    hide Spool.Strip;
    hide Spool.StripRight;
    hide Spool.Clip;
    hide Spool.Encoded;
    hide Spool.Compose;
    hide Spool.Accept;
    hide Lines.Join;
    var l := Composed(w, out).value;
    SpoolTheorems.EnqueuedIsAcceptedIff(l.severity, l.title, l.body, "", 0.0, frame);
    ClippedPrefix(Through(lines, i), Spool.StripRight(Lines.Join(lines)), Spool.MAX_BODY);
  }

  lemma ThroughIsPrefix(lines: seq<string>, i: nat)
    requires i < |lines| && Begins(lines[i])
    ensures Through(lines, i) <= Spool.StripRight(Lines.Join(lines))
  {
    hide Through;
    hide Lines.Join;
    hide Spool.StripRight;
    ThroughIs(lines, i);
    JoinPrefix(lines, i + 1);
    StripRightKeeps(Lines.Join(lines[..i + 1]), Lines.Join(lines));
  }

  lemma StripRightKeeps(front: string, whole: string)
    requires front <= whole
    ensures Spool.StripRight(front) <= Spool.StripRight(whole)
  {
    StripRightPrefix(front, whole[|front|..]);
    assert whole == front + whole[|front|..];
  }

  lemma ClippedPrefix(p: string, s: string, n: nat)
    requires p <= s
    ensures p <= Spool.Clip(s, n) <==> |p| <= n
  {
  }
}
