/** What uninstalling gives back, after any history of installs, crashes and edits by the owner. */
module LedgerTheorems {
  import opened Common
  import opened Ledger
  import Lines

  // ---------- one origin per path ----------

  ghost predicate OneOrigin(ledger: seq<Entry>) {
    forall i, j, p :: 0 <= i < j < |ledger| && IsOrigin(ledger[i], p) ==> !IsOrigin(ledger[j], p)
  }

  /** The origin entry of `p` tells what was there before. */
  ghost predicate OriginTells(s: Past, e: Entry, p: Path) {
    && p in s.before
    && (e.FileCreated? ==> s.before[p] == None)
    && (e.FileReplaced? ==> e.backup.path == p && e.backup in s.disk.backups
                            && s.before[p] == Some(s.disk.backups[e.backup]))
  }

  ghost predicate Inv(s: Past) {
    && OneOrigin(s.disk.ledger)
    && (forall i, p :: 0 <= i < |s.disk.ledger| && IsOrigin(s.disk.ledger[i], p) && p !in s.orphans ==>
          OriginTells(s, s.disk.ledger[i], p))
    && (forall i, p :: 0 <= i < |s.disk.ledger| && IsOrigin(s.disk.ledger[i], p) && s.disk.ledger[i].FileReplaced? ==>
          s.disk.ledger[i].backup.path == p && s.disk.ledger[i].backup in s.disk.backups)
    && (forall p :: p in s.before && !Managed(s.disk.ledger, p) ==> p in s.orphans)
    && (forall i :: 0 <= i < |s.disk.ledger| && s.disk.ledger[i].FileWritten? ==>
          Managed(s.disk.ledger, s.disk.ledger[i].path))
    && (forall p :: p in s.orphans ==> p in s.before)
  }

  lemma ManagedSnoc(ledger: seq<Entry>, e: Entry, p: Path)
    ensures Managed(ledger + [e], p) <==> Managed(ledger, p) || IsOrigin(e, p)
  {
    var more := ledger + [e];
    if Managed(ledger, p) {
      var i :| 0 <= i < |ledger| && IsOrigin(ledger[i], p);
      assert more[i] == ledger[i];
    }
    if IsOrigin(e, p) { assert more[|ledger|] == e; }
    if Managed(more, p) {
      var i :| 0 <= i < |more| && IsOrigin(more[i], p);
      if i < |ledger| { assert more[i] == ledger[i]; }
    }
  }

  lemma Exec1(d: Disk, a: Write)
    ensures ExecAll(d, [a]) == Exec(d, a)
  {
    assert [a][..0] == [];
    assert ExecAll(d, [a][..0]) == d;
  }

  lemma Exec2(d: Disk, a: Write, b: Write)
    ensures ExecAll(d, [a, b]) == Exec(Exec(d, a), b)
  {
    Exec1(d, a);
    assert [a, b][..1] == [a];
  }

  lemma Exec3(d: Disk, a: Write, b: Write, c: Write)
    ensures ExecAll(d, [a, b, c]) == Exec(Exec(Exec(d, a), b), c)
  {
    Exec2(d, a, b);
    assert [a, b, c][..2] == [a, b];
  }

  /** The disk after `n` writes of a script. */
  function ExecSome(d: Disk, ws: seq<Write>, n: nat): Disk {
    if n == 0 || |ws| == 0 then d
    else if n == 1 || |ws| == 1 then Exec(d, ws[0])
    else if n == 2 || |ws| == 2 then Exec(Exec(d, ws[0]), ws[1])
    else Exec(Exec(Exec(d, ws[0]), ws[1]), ws[2])
  }

  lemma ExecCut(d: Disk, ws: seq<Write>, n: nat)
    requires |ws| <= 3 && n <= |ws|
    ensures ExecAll(d, ws[..n]) == ExecSome(d, ws, n)
  {
    if n == 1 {
      assert ws[..n] == [ws[0]];
      Exec1(d, ws[0]);
    } else if n == 2 {
      assert ws[..n] == [ws[0], ws[1]];
      Exec2(d, ws[0], ws[1]);
    } else if n == 3 {
      assert ws[..n] == [ws[0], ws[1], ws[2]];
      Exec3(d, ws[0], ws[1], ws[2]);
    }
  }

  /** A step that leaves the ledger as it is keeps the invariant if it keeps what the ledger speaks of. */
  lemma SameLedger(s: Past, t: Past)
    requires Inv(s) && t.disk.ledger == s.disk.ledger && s.orphans <= t.orphans
    requires forall p :: p in s.before ==> p in t.before && t.before[p] == s.before[p]
    requires forall p :: p in t.before && p !in s.before ==> p in t.orphans
    requires forall p :: p in t.orphans ==> p in t.before
    requires forall b :: b in s.disk.backups ==> b in t.disk.backups
    requires forall b :: b in s.disk.backups && t.disk.backups[b] != s.disk.backups[b] ==>
               !Managed(s.disk.ledger, b.path)
    ensures Inv(t)
  {
    forall i, p | 0 <= i < |t.disk.ledger| && IsOrigin(t.disk.ledger[i], p) && p !in t.orphans
      ensures OriginTells(t, t.disk.ledger[i], p)
    {
      assert OriginTells(s, s.disk.ledger[i], p);
      assert Managed(s.disk.ledger, p);
    }
  }

  /** Recording the origin of a path that has none. */
  lemma NewOrigin(s: Past, t: Past, e: Entry, p: Path)
    requires Inv(s) && !Managed(s.disk.ledger, p) && IsOrigin(e, p)
    requires t.disk.ledger == s.disk.ledger + [e] && t.orphans == s.orphans
    requires t.before == if p in s.before then s.before else s.before[p := Get(s.disk.files, p)]
    requires e.FileCreated? ==> p !in s.disk.files && t.disk.backups == s.disk.backups
    requires e.FileReplaced? ==> p in s.disk.files && e.backup.path == p
                                 && t.disk.backups == s.disk.backups[e.backup := s.disk.files[p]]
    ensures Inv(t)
  {
    var was, ledger := s.disk.ledger, t.disk.ledger;
    forall q ensures Managed(ledger, q) <==> Managed(was, q) || q == p { ManagedSnoc(was, e, q); }
    forall i, j, q | 0 <= i < j < |ledger| && IsOrigin(ledger[i], q) ensures !IsOrigin(ledger[j], q) {
      assert ledger[i] == was[i];
      assert Managed(was, q);
      if j < |was| { assert ledger[j] == was[j]; }
    }
    forall i, q | 0 <= i < |ledger| && IsOrigin(ledger[i], q) && q !in t.orphans ensures OriginTells(t, ledger[i], q) {
      if i < |was| {
        assert OriginTells(s, was[i], q) && Managed(was, q);
      } else {
        assert q == p && p !in s.before;
      }
    }
  }

  /** Recording another write to a managed path, or a line. */
  lemma AnotherWrite(s: Past, t: Past, e: Entry)
    requires Inv(s) && !IsAnyOrigin(e) && (e.FileWritten? ==> Managed(s.disk.ledger, e.path))
    requires t.disk.ledger == s.disk.ledger + [e] && t.disk.backups == s.disk.backups
    requires t.before == s.before && t.orphans == s.orphans
    ensures Inv(t)
  {
    var was, ledger := s.disk.ledger, t.disk.ledger;
    forall q ensures Managed(ledger, q) <==> Managed(was, q) { ManagedSnoc(was, e, q); }
    forall i, j, q | 0 <= i < j < |ledger| && IsOrigin(ledger[i], q) ensures !IsOrigin(ledger[j], q) {
      assert ledger[i] == was[i];
      if j < |was| { assert ledger[j] == was[j]; }
    }
    forall i, q | 0 <= i < |ledger| && IsOrigin(ledger[i], q) && q !in t.orphans ensures OriginTells(t, ledger[i], q) {
      assert ledger[i] == was[i] && OriginTells(s, was[i], q);
    }
  }

  lemma ManagedIsKnown(s: Past, p: Path)
    requires Inv(s) && Managed(s.disk.ledger, p)
    ensures p in s.before
  {
    if p in s.orphans { return; }
    var i :| 0 <= i < |s.disk.ledger| && IsOrigin(s.disk.ledger[i], p);
    assert OriginTells(s, s.disk.ledger[i], p);
  }

  lemma InstallKeepsInv(s: Past, e: Event)
    requires Inv(s) && e.Install?
    ensures Inv(Step(s, e))
  {
    var p, d := e.path, s.disk;
    var script := Script(d, p, e.raw, e.clock);
    var n := Min(e.done, |script|);
    ExecCut(d, script, n);
    var t := Step(s, e);
    if n > 0 {
      if Managed(d.ledger, p) {
        ManagedIsKnown(s, p);
        InstallManaged(s, e, t);
      } else {
        InstallNew(s, e, t);
      }
    }
  }

  lemma InstallManaged(s: Past, e: Event, t: Past)
    requires Inv(s) && e.Install? && t == Step(s, e) && Managed(s.disk.ledger, e.path) && e.path in s.before
    requires var script := Script(s.disk, e.path, e.raw, e.clock);
             Min(e.done, |script|) > 0 && t.disk == ExecSome(s.disk, script, Min(e.done, |script|))
    ensures Inv(t)
  {
    hide Inv;
    hide Managed;
    var script := Script(s.disk, e.path, e.raw, e.clock);
    var n := Min(e.done, |script|);
    var entry := FileWritten(e.path, e.raw);
    if e.path !in s.disk.files && n == 1 {
      OrphansKnown(s);
      SameLedger(s, t);
    } else {
      AnotherWrite(s, t, entry);
    }
  }

  lemma InstallNew(s: Past, e: Event, t: Past)
    requires Inv(s) && e.Install? && t == Step(s, e) && !Managed(s.disk.ledger, e.path)
    requires var script := Script(s.disk, e.path, e.raw, e.clock);
             Min(e.done, |script|) > 0 && t.disk == ExecSome(s.disk, script, Min(e.done, |script|))
    ensures Inv(t)
  {
    hide Inv;
    hide Managed;
    var script := Script(s.disk, e.path, e.raw, e.clock);
    var n := Min(e.done, |script|);
    if n == 1 {
      OrphansKnown(s);
      SameLedger(s, t);
    } else if e.path !in s.disk.files {
      NewOrigin(s, t, FileCreated(e.path, e.raw), e.path);
    } else {
      NewOrigin(s, t, FileReplaced(e.path, BackupName(e.clock, e.path), e.raw), e.path);
    }
  }

  lemma OrphansKnown(s: Past)
    requires Inv(s)
    ensures forall p :: p in s.orphans ==> p in s.before
  {
  }

  lemma LineKeepsInv(s: Past, e: Event)
    requires Inv(s) && e.AddLine?
    ensures Inv(Step(s, e))
  {
    hide Inv;
    hide Managed;
    var script := LineScript(s.disk, e.path, e.line);
    var n, t := Min(e.done, |script|), Step(s, e);
    ExecCut(s.disk, script, n);
    OrphansKnown(s);
    if n == 2 {
      AnotherWrite(s, t, LineAdded(e.path, e.line));
    } else {
      SameLedger(s, t);
    }
  }

  /** Nothing was there before the kit, where a first write went unrecorded. */
  lemma {:induction false} OrphansWereAbsent(files: Files, es: seq<Event>, p: Path)
    requires p in After(Untouched(files), es).orphans
    ensures var s := After(Untouched(files), es); p in s.before && s.before[p] == None
  {
    var front, e := es[..|es| - 1], es[|es| - 1];
    var s := After(Untouched(files), front);
    AfterKeepsInv(files, front);
    if p in s.orphans {
      OrphansWereAbsent(files, front, p);
    } else {
      assert e.Install? && e.path == p && p !in s.before;
    }
  }

  lemma {:induction false} AfterKeepsInv(files: Files, es: seq<Event>)
    ensures Inv(After(Untouched(files), es))
  {
    if |es| > 0 {
      var front, e := es[..|es| - 1], es[|es| - 1];
      AfterKeepsInv(files, front);
      var s := After(Untouched(files), front);
      hide After;
      match e {
        case Install(_, _, _, _) => InstallKeepsInv(s, e);
        case AddLine(_, _, _) => LineKeepsInv(s, e);
        case _ =>
          OrphansKnown(s);
          SameLedger(s, Step(s, e));
      }
    }
  }

  /** Installing what a path already holds changes nothing at all, not even the ledger; so does installing
      the same again after a whole installation. */
  lemma InstallingAgainChangesNothing(s: Past, p: Path, raw: Content, clock: int, later: int, done: nat, again: nat)
    requires Completes(Install(p, raw, clock, done), s.disk)
    ensures var t := Step(s, Install(p, raw, clock, done));
            Get(t.disk.files, p) == Some(raw) && Step(t, Install(p, raw, later, again)) == t
  {
    hide Managed;
    var script := Script(s.disk, p, raw, clock);
    ExecCut(s.disk, script, |script|);
  }

  // ---------- the reverse pass ----------

  /** What entry `e` makes of what the path `p` holds. */
  function OneAlong(now: Option<Content>, u: Setup, e: Entry, p: Path): Option<Content> {
    if e.Other? || e.path != p then now
    else
      match e
      case FileCreated(_, _) => if p in u.kept then now else None
      case FileReplaced(_, backup, _) =>
        if p in u.kept || backup !in u.backups then now
        else if now.Some? && now.value != LatestFor(u.latest, e) then now
        else Some(u.backups[backup])
      case LineAdded(_, line) => if now.None? then None else Some(LineTaken(now.value, line))
      case _ => now
  }

  /** What the entries of a ledger make of it, newest first. */
  function Along(now: Option<Content>, u: Setup, ledger: seq<Entry>, p: Path): Option<Content>
    decreases |ledger|
  {
    if |ledger| == 0 then now
    else Along(OneAlong(now, u, ledger[|ledger| - 1], p), u, ledger[..|ledger| - 1], p)
  }

  lemma UndoOne(r: Remains, u: Setup, e: Entry, p: Path)
    ensures Get(Undo(r, u, e).files, p) == OneAlong(Get(r.files, p), u, e, p)
  {
    hide LineTaken;
    hide AsideName;
  }

  /** The pass treats every path by itself. */
  lemma {:induction false} UndoAllIs(r: Remains, u: Setup, ledger: seq<Entry>, p: Path)
    ensures Get(UndoAll(r, u, ledger).files, p) == Along(Get(r.files, p), u, ledger, p)
    decreases |ledger|
  {
    hide Undo;
    hide OneAlong;
    if |ledger| > 0 {
      UndoOne(r, u, ledger[|ledger| - 1], p);
      UndoAllIs(Undo(r, u, ledger[|ledger| - 1]), u, ledger[..|ledger| - 1], p);
    }
  }

  predicate IsLine(e: Entry, p: Path) {
    e.LineAdded? && e.path == p
  }

  predicate HasLine(ledger: seq<Entry>, p: Path) {
    exists i :: 0 <= i < |ledger| && IsLine(ledger[i], p)
  }

  lemma HasLineSnoc(ledger: seq<Entry>, e: Entry, p: Path)
    ensures HasLine(ledger + [e], p) <==> HasLine(ledger, p) || IsLine(e, p)
  {
    var more := ledger + [e];
    if HasLine(ledger, p) {
      var i :| 0 <= i < |ledger| && IsLine(ledger[i], p);
      assert more[i] == ledger[i];
    }
    if IsLine(e, p) { assert more[|ledger|] == e; }
    if HasLine(more, p) {
      var i :| 0 <= i < |more| && IsLine(more[i], p);
      if i < |ledger| { assert more[i] == ledger[i]; }
    }
  }

  lemma {:induction false} AlongElsewhere(now: Option<Content>, u: Setup, ledger: seq<Entry>, p: Path)
    requires !Managed(ledger, p) && !HasLine(ledger, p)
    ensures Along(now, u, ledger, p) == now
    decreases |ledger|
  {
    if |ledger| > 0 {
      var e, front := ledger[|ledger| - 1], ledger[..|ledger| - 1];
      assert ledger == front + [e];
      ManagedSnoc(front, e, p);
      HasLineSnoc(front, e, p);
      AlongElsewhere(now, u, front, p);
    }
  }

  lemma {:induction false} AlongAt(now: Option<Content>, u: Setup, ledger: seq<Entry>, i: nat)
    requires OneOrigin(ledger) && i < |ledger| && IsAnyOrigin(ledger[i]) && !HasLine(ledger, ledger[i].path)
    ensures Along(now, u, ledger, ledger[i].path) == OneAlong(now, u, ledger[i], ledger[i].path)
    decreases |ledger|
  {
    var last, front, p := ledger[|ledger| - 1], ledger[..|ledger| - 1], ledger[i].path;
    assert ledger == front + [last];
    HasLineSnoc(front, last, p);
    if i == |ledger| - 1 {
      forall j | 0 <= j < |front| ensures !IsOrigin(front[j], p) { assert front[j] == ledger[j]; }
      AlongElsewhere(OneAlong(now, u, last, p), u, front, p);
    } else {
      assert IsOrigin(ledger[i], p) && !IsOrigin(last, p);
      OneOriginFront(ledger);
      AlongAt(now, u, front, i);
    }
  }

  lemma OneOriginFront(ledger: seq<Entry>)
    requires OneOrigin(ledger) && |ledger| > 0
    ensures OneOrigin(ledger[..|ledger| - 1])
    ensures IsAnyOrigin(ledger[|ledger| - 1]) ==> !Managed(ledger[..|ledger| - 1], ledger[|ledger| - 1].path)
  {
    var front, last := ledger[..|ledger| - 1], ledger[|ledger| - 1];
    forall i, j, p | 0 <= i < j < |front| && IsOrigin(front[i], p) ensures !IsOrigin(front[j], p) {
      assert front[i] == ledger[i] && front[j] == ledger[j];
    }
    if IsAnyOrigin(last) {
      forall i | 0 <= i < |front| ensures !IsOrigin(front[i], last.path) {
        assert front[i] == ledger[i] && IsOrigin(last, last.path);
      }
    }
  }

  /** The whole reverse pass does to a path what its origin entry says. */
  lemma UndoAllAt(r: Remains, u: Setup, ledger: seq<Entry>, i: nat)
    requires OneOrigin(ledger) && i < |ledger| && IsAnyOrigin(ledger[i]) && !HasLine(ledger, ledger[i].path)
    ensures var p := ledger[i].path;
            Get(UndoAll(r, u, ledger).files, p) == OneAlong(Get(r.files, p), u, ledger[i], p)
  {
    UndoAllIs(r, u, ledger, ledger[i].path);
    AlongAt(Get(r.files, ledger[i].path), u, ledger, i);
  }

  // ---------- lines ----------

  /** The lines the kit recorded for a path. */
  function LinesOf(ledger: seq<Entry>, p: Path): set<string> {
    set i | 0 <= i < |ledger| && IsLine(ledger[i], p) :: ledger[i].line
  }

  function Others(lines: seq<string>, gone: set<string>): seq<string> {
    if |lines| == 0 then []
    else (if lines[0] in gone then [] else [lines[0]]) + Others(lines[1..], gone)
  }

  lemma {:induction false} OthersOfWithout(lines: seq<string>, line: string, gone: set<string>)
    ensures Others(Lines.Without(lines, line), gone) == Others(lines, gone + {line})
  {
    if |lines| > 0 {
      var rest := Lines.Without(lines[1..], line);
      OthersOfWithout(lines[1..], line, gone);
      if lines[0] != line {
        assert ([lines[0]] + rest)[1..] == rest;
      } else {
        assert [] + rest == rest;
      }
    }
  }

  lemma LineTakenIs(text: Content, line: string)
    ensures Lines.SplitLines(LineTaken(text, line)) == Lines.Without(Lines.SplitLines(text), line)
  {
    hide Lines.SplitLines;
    if line in Lines.SplitLines(text) {
      Lines.RemovesExactlyTheLine(text, line);
    } else {
      Lines.WithoutHas(Lines.SplitLines(text), line);
    }
  }

  lemma {:induction false} OthersOfNone(lines: seq<string>)
    ensures Others(lines, {}) == lines
  {
    if |lines| > 0 {
      OthersOfNone(lines[1..]);
      assert lines == [lines[0]] + lines[1..];
    }
  }

  /** A file the kit did not take over loses exactly the lines recorded for it. */
  lemma {:induction false} AlongLines(now: Content, u: Setup, ledger: seq<Entry>, p: Path)
    requires !Managed(ledger, p)
    ensures var final := Along(Some(now), u, ledger, p);
            && final.Some?
            && Lines.SplitLines(final.value) == Others(Lines.SplitLines(now), LinesOf(ledger, p))
    decreases |ledger|
  {
    hide Lines.SplitLines;
    hide LineTaken;
    if |ledger| == 0 {
      OthersOfNone(Lines.SplitLines(now));
      assert LinesOf(ledger, p) == {};
    } else {
      var e, front := ledger[|ledger| - 1], ledger[..|ledger| - 1];
      assert ledger == front + [e];
      ManagedSnoc(front, e, p);
      LinesOfSnoc(front, e, p);
      if IsLine(e, p) {
        AlongLines(LineTaken(now, e.line), u, front, p);
        LineTakenIs(now, e.line);
        OthersOfWithout(Lines.SplitLines(now), e.line, LinesOf(front, p));
      } else {
        AlongLines(now, u, front, p);
        assert LinesOf(front, p) + {} == LinesOf(front, p);
        assert OneAlong(Some(now), u, e, p) == Some(now) by { assert !IsOrigin(e, p); }
      }
    }
  }

  lemma LinesOfSnoc(ledger: seq<Entry>, e: Entry, p: Path)
    ensures LinesOf(ledger + [e], p) == LinesOf(ledger, p) + if IsLine(e, p) then {e.line} else {}
  {
    var more := ledger + [e];
    forall i | 0 <= i < |ledger| ensures more[i] == ledger[i] {}
    assert more[|ledger|] == e;
  }

  // ---------- what is there at all ----------

  lemma {:induction false} AlongAbsent(u: Setup, ledger: seq<Entry>, p: Path)
    requires forall i :: 0 <= i < |ledger| ==> !(ledger[i].FileReplaced? && ledger[i].path == p)
    ensures Along(None, u, ledger, p) == None
    decreases |ledger|
  {
    if |ledger| > 0 { AlongAbsent(u, ledger[..|ledger| - 1], p); }
  }

  lemma {:induction false} AlongPresent(now: Option<Content>, u: Setup, ledger: seq<Entry>, p: Path)
    requires now.Some?
             || exists i :: 0 <= i < |ledger| && ledger[i].FileReplaced? && ledger[i].path == p
                 && ledger[i].backup in u.backups
    requires p !in u.kept
    requires forall i :: 0 <= i < |ledger| ==> !(ledger[i].FileCreated? && ledger[i].path == p)
    ensures Along(now, u, ledger, p).Some?
    decreases |ledger|
  {
    if |ledger| > 0 {
      var e, front := ledger[|ledger| - 1], ledger[..|ledger| - 1];
      var next := OneAlong(now, u, e, p);
      if next.None? {
        var i :| 0 <= i < |ledger| && ledger[i].FileReplaced? && ledger[i].path == p && ledger[i].backup in u.backups;
        assert i < |front| && front[i] == ledger[i];
      }
      AlongPresent(next, u, front, p);
    }
  }

  lemma {:induction false} AlongCreated(now: Option<Content>, u: Setup, ledger: seq<Entry>, i: nat)
    requires OneOrigin(ledger) && i < |ledger| && ledger[i].FileCreated? && ledger[i].path !in u.kept
    ensures Along(now, u, ledger, ledger[i].path) == None
    decreases |ledger|
  {
    var last, front, p := ledger[|ledger| - 1], ledger[..|ledger| - 1], ledger[i].path;
    assert IsOrigin(ledger[i], p);
    OneOriginFront(ledger);
    if i == |ledger| - 1 {
      forall j | 0 <= j < |front| ensures !(front[j].FileReplaced? && front[j].path == p) {
        assert front[j] == ledger[j] && !IsOrigin(front[j], p);
      }
      AlongAbsent(u, front, p);
    } else {
      AlongCreated(OneAlong(now, u, last, p), u, front, i);
    }
  }

  // ---------- aside ----------

  /** What undoing `e` puts aside. */
  function AsideData(r: Remains, u: Setup, e: Entry): Option<Content> {
    match e
    case FileCreated(p, _) =>
      if p !in u.kept && p in r.files && r.files[p] != LatestFor(u.latest, e) then Some(r.files[p]) else None
    case FileReplaced(p, backup, _) =>
      if p !in u.kept && backup in u.backups && p in r.files && r.files[p] != LatestFor(u.latest, e)
      then Some(u.backups[backup]) else None
    case _ => None
  }

  /** The machine when the pass comes to entry `i`. */
  function Before(r: Remains, u: Setup, ledger: seq<Entry>, i: nat): Remains
    requires i < |ledger|
  {
    UndoAll(r, u, ledger[i + 1..])
  }

  /** What entry `i` puts aside under `name`. */
  function Puts(r: Remains, u: Setup, ledger: seq<Entry>, name: string, i: nat): Option<Content>
    requires i < |ledger|
  {
    if IsAnyOrigin(ledger[i]) && AsideName(ledger[i]) == name
    then AsideData(Before(r, u, ledger, i), u, ledger[i]) else None
  }

  lemma AsideOne(r: Remains, u: Setup, e: Entry)
    ensures var d := AsideData(r, u, e);
            Undo(r, u, e).aside == if d.Some? then r.aside[AsideName(e) := d.value] else r.aside
  {
    hide AsideName;
    hide LineTaken;
  }

  lemma BeforeFront(r: Remains, u: Setup, ledger: seq<Entry>, i: nat)
    requires i + 1 < |ledger|
    ensures Before(Undo(r, u, ledger[|ledger| - 1]), u, ledger[..|ledger| - 1], i) == Before(r, u, ledger, i)
  {
    var rest := ledger[i + 1..];
    assert rest[|rest| - 1] == ledger[|ledger| - 1] && rest[..|rest| - 1] == ledger[..|ledger| - 1][i + 1..];
  }

  /** For any ledger: what is aside under a name in the end is what the oldest entry put there that put
      anything there at all. */
  lemma {:induction false} AsideIs(r: Remains, u: Setup, ledger: seq<Entry>, name: string, i: nat)
    requires i <= |ledger|
    requires forall j :: 0 <= j < i ==> Puts(r, u, ledger, name, j) == None
    requires i < |ledger| ==> Puts(r, u, ledger, name, i).Some?
    ensures var f := UndoAll(r, u, ledger);
            if i < |ledger| then name in f.aside && f.aside[name] == Puts(r, u, ledger, name, i).value
            else Get(f.aside, name) == Get(r.aside, name)
    decreases |ledger|
  {
    if |ledger| > 0 {
      var n := |ledger| - 1;
      var last, front := ledger[n], ledger[..n];
      var next := Undo(r, u, last);
      AsideOne(r, u, last);
      assert ledger[n + 1..] == [] && Before(r, u, ledger, n) == r;
      var put := Puts(r, u, ledger, name, n);
      assert Get(next.aside, name) == if put.Some? then put else Get(r.aside, name);
      forall j | 0 <= j < n
        ensures front[j] == ledger[j] && Puts(next, u, front, name, j) == Puts(r, u, ledger, name, j)
      {
        BeforeFront(r, u, ledger, j);
      }
      AsideIs(next, u, front, name, Min(i, n));
    }
  }

  // ---------- what the kit last wrote ----------

  ghost predicate Uncut(s: Past, e: Event) {
    e.Install? ==> Completes(e, s.disk)
  }

  lemma LineKeepsFaithful(s: Past, e: Event)
    requires Faithful(s) && e.AddLine?
    ensures Faithful(Step(s, e))
  {
    var script, t := LineScript(s.disk, e.path, e.line), Step(s, e);
    var n := Min(e.done, |script|);
    ExecCut(s.disk, script, n);
    if n == 2 {
      var entry := LineAdded(e.path, e.line);
      LatestSnoc(s.disk.ledger, entry);
      forall q ensures Managed(t.disk.ledger, q) <==> Managed(s.disk.ledger, q) {
        ManagedSnoc(s.disk.ledger, entry, q);
      }
    }
  }

  ghost predicate NeverCut(s: Past, es: seq<Event>) {
    forall k :: 0 <= k < |es| ==> Uncut(After(s, es[..k]), es[k])
  }

  /** The ledger's last digest of a path is what the kit last wrote there. */
  ghost predicate Faithful(s: Past) {
    && s.orphans == {}
    && Latest(s.disk.ledger) == s.written
    && (forall p :: Managed(s.disk.ledger, p) <==> p in s.written)
  }

  lemma LatestSnoc(ledger: seq<Entry>, e: Entry)
    ensures Latest(ledger + [e]) == if IsFile(e) then Latest(ledger)[e.path := e.sha] else Latest(ledger)
  {
    assert (ledger + [e])[..|ledger|] == ledger;
  }

  lemma UncutKeepsFaithful(s: Past, e: Event)
    requires Faithful(s) && Uncut(s, e)
    ensures Faithful(Step(s, e))
  {
    if e.AddLine? {
      LineKeepsFaithful(s, e);
    } else if e.Install? {
      var p, d, t := e.path, s.disk, Step(s, e);
      var script := Script(d, p, e.raw, e.clock);
      ExecCut(d, script, |script|);
      assert script[..|script|] == script;
      if |script| > 0 {
        var entry := InstalledEntry(s, e);
        LatestSnoc(d.ledger, entry);
        forall q ensures Managed(t.disk.ledger, q) <==> Managed(d.ledger, q) || q == p {
          ManagedSnoc(d.ledger, entry, q);
        }
      }
    }
  }

  /** The entry a whole install adds. */
  lemma InstalledEntry(s: Past, e: Event) returns (entry: Entry)
    requires e.Install?
    requires var script := Script(s.disk, e.path, e.raw, e.clock);
             |script| > 0 && Completes(e, s.disk) && ExecAll(s.disk, script) == ExecSome(s.disk, script, |script|)
    ensures IsFile(entry) && entry.path == e.path && entry.sha == e.raw
    ensures IsOrigin(entry, e.path) <==> !Managed(s.disk.ledger, e.path)
    ensures Step(s, e).disk.ledger == s.disk.ledger + [entry]
    ensures Step(s, e).written == s.written[e.path := e.raw] && Step(s, e).orphans == s.orphans
  {
    hide Managed;
    hide ExecAll;
    var script := Script(s.disk, e.path, e.raw, e.clock);
    assert script[..|script|] == script;
    entry := ExecSome(s.disk, script, |script|).ledger[|s.disk.ledger|];
  }

  lemma {:induction false} NeverCutIsFaithful(files: Files, es: seq<Event>)
    requires NeverCut(Untouched(files), es)
    ensures Faithful(After(Untouched(files), es))
  {
    if |es| > 0 {
      var front, e := es[..|es| - 1], es[|es| - 1];
      forall k | 0 <= k < |front| ensures Uncut(After(Untouched(files), front[..k]), front[k]) {
        assert front[..k] == es[..k];
      }
      NeverCutIsFaithful(files, front);
      assert Uncut(After(Untouched(files), front), e);
      UncutKeepsFaithful(After(Untouched(files), front), e);
    }
  }

  // ---------- main results ----------

  /** Each path the kit took over has one origin entry, and unless a crash kept the kit from recording
      its very first write, that entry tells what was there before. */
  lemma OneTrueOrigin(files: Files, es: seq<Event>, i: nat, j: nat, p: Path)
    requires var s := After(Untouched(files), es);
             && i < |s.disk.ledger| && j < |s.disk.ledger|
             && IsOrigin(s.disk.ledger[i], p) && IsOrigin(s.disk.ledger[j], p)
    ensures var s := After(Untouched(files), es);
            i == j && (p !in s.orphans ==> OriginTells(s, s.disk.ledger[i], p))
  {
    AfterKeepsInv(files, es);
  }

  /** Uninstalling, after any history of installs and lines cut anywhere, and of owner edits. */
  lemma UninstallRestores(files: Files, es: seq<Event>, kept: set<Path>, p: Path)
    requires p !in kept
    ensures var s := After(Untouched(files), es);
            var d, latest, now := s.disk, Latest(s.disk.ledger), Get(s.disk.files, p);
            var final := Get(Uninstall(d, kept).files, p);
            // a path the kit never took over is left alone, but for the lines recorded for it
            && (!Managed(d.ledger, p) && !HasLine(d.ledger, p) ==> final == now)
            && (!Managed(d.ledger, p) && now.Some? ==>
                  && final.Some?
                  && Lines.SplitLines(final.value) == Others(Lines.SplitLines(now.value), LinesOf(d.ledger, p)))
            // a path it created, or which holds what it last recorded, or nothing, is as before the kit,
            // and any other still holds what it holds
            && (Managed(d.ledger, p) && p !in s.orphans && !HasLine(d.ledger, p) ==>
                  && p in s.before && p in latest
                  && (final == s.before[p]
                      <==> s.before[p] == None || now == None || now == Some(latest[p]) || now == s.before[p])
                  && (final == s.before[p] || final == now))
  {
    var s := After(Untouched(files), es);
    AfterKeepsInv(files, es);
    var d, now, u := s.disk, Get(s.disk.files, p), SetupOf(s.disk, kept);
    UndoAllIs(Remains(d.files, map[]), u, d.ledger, p);
    hide UndoAll;
    if Managed(d.ledger, p) {
      if !HasLine(d.ledger, p) {
        var i :| 0 <= i < |d.ledger| && IsOrigin(d.ledger[i], p);
        AlongAt(now, u, d.ledger, i);
        LatestKnows(d.ledger, i);
        if p !in s.orphans { assert OriginTells(s, d.ledger[i], p); }
      }
    } else {
      if !HasLine(d.ledger, p) { AlongElsewhere(now, u, d.ledger, p); }
      if now.Some? { AlongLines(now.value, u, d.ledger, p); }
    }
  }

  ghost predicate CreatedByKit(ledger: seq<Entry>, p: Path) {
    exists i :: 0 <= i < |ledger| && ledger[i].FileCreated? && ledger[i].path == p
  }

  /** A path is gone afterwards if and only if its origin entry says the kit created it, or the kit never
      took it over and it is gone already. */
  lemma GoneExactly(files: Files, es: seq<Event>, kept: set<Path>, p: Path)
    requires p !in kept
    ensures var s := After(Untouched(files), es);
            var d := s.disk;
            Get(Uninstall(d, kept).files, p) == None
            <==> CreatedByKit(d.ledger, p) || (!Managed(d.ledger, p) && p !in d.files)
  {
    var s := After(Untouched(files), es);
    AfterKeepsInv(files, es);
    var d, now, u := s.disk, Get(s.disk.files, p), SetupOf(s.disk, kept);
    UndoAllIs(Remains(d.files, map[]), u, d.ledger, p);
    hide UndoAll;
    hide Along;
    if CreatedByKit(d.ledger, p) {
      var i :| 0 <= i < |d.ledger| && d.ledger[i].FileCreated? && d.ledger[i].path == p;
      AlongCreated(now, u, d.ledger, i);
    } else if Managed(d.ledger, p) {
      var i :| 0 <= i < |d.ledger| && IsOrigin(d.ledger[i], p);
      assert d.ledger[i].FileReplaced? && d.ledger[i].backup in u.backups;
      AlongPresent(now, u, d.ledger, p);
    } else if now.Some? {
      forall i | 0 <= i < |d.ledger| ensures !(d.ledger[i].FileCreated? && d.ledger[i].path == p) {}
      AlongPresent(now, u, d.ledger, p);
    } else {
      forall i | 0 <= i < |d.ledger| ensures !(d.ledger[i].FileReplaced? && d.ledger[i].path == p) {
        assert !IsOrigin(d.ledger[i], p);
      }
      AlongAbsent(u, d.ledger, p);
    }
  }

  /** A path whose first write went unrecorded held nothing before the kit, and is as before exactly if
      the kit recorded it later as its own, or somebody removed it and the kit never recorded it at all. */
  lemma OrphansExactly(files: Files, es: seq<Event>, kept: set<Path>, p: Path)
    requires p !in kept && p in After(Untouched(files), es).orphans
    ensures var s := After(Untouched(files), es);
            && p in s.before && s.before[p] == None
            && (Get(Uninstall(s.disk, kept).files, p) == s.before[p]
                <==> CreatedByKit(s.disk.ledger, p) || (!Managed(s.disk.ledger, p) && p !in s.disk.files))
  {
    OrphansWereAbsent(files, es, p);
    GoneExactly(files, es, kept, p);
  }

  lemma {:induction false} LatestKnows(ledger: seq<Entry>, i: nat)
    requires i < |ledger| && IsFile(ledger[i])
    ensures ledger[i].path in Latest(ledger)
  {
    if i < |ledger| - 1 { LatestKnows(ledger[..|ledger| - 1], i); }
  }

  lemma {:induction false} AlongKept(now: Option<Content>, u: Setup, ledger: seq<Entry>, p: Path)
    requires p in u.kept
    ensures Along(now, u, ledger, p) == Stripped(now, ledger, p)
    decreases |ledger|
  {
    if |ledger| > 0 { AlongKept(OneAlong(now, u, ledger[|ledger| - 1], p), u, ledger[..|ledger| - 1], p); }
  }

  /** On any disk, a path that is kept is afterwards what it was, but for the lines recorded for it; without
      any, exactly what it was, and nothing is put aside for it. */
  lemma KeptStays(d: Disk, kept: set<Path>, p: Path)
    requires p in kept
    ensures Get(Uninstall(d, kept).files, p) == Stripped(Get(d.files, p), d.ledger, p)
    ensures !HasLine(d.ledger, p) ==> Get(Uninstall(d, kept).files, p) == Get(d.files, p)
    ensures forall i :: 0 <= i < |d.ledger| && IsOrigin(d.ledger[i], p) ==> SetsAside(d, kept, i) == None
  {
    hide Stripped;
    UndoAllIs(Remains(d.files, map[]), SetupOf(d, kept), d.ledger, p);
    AlongKept(Get(d.files, p), SetupOf(d, kept), d.ledger, p);
    if !HasLine(d.ledger, p) { StrippedOfNoLine(Get(d.files, p), d.ledger, p); }
  }

  /** Without crashes "what the kit last recorded" is what it last wrote. */
  lemma UninstallRestoresUnedited(files: Files, es: seq<Event>, kept: set<Path>, p: Path)
    requires p !in kept && NeverCut(Untouched(files), es)
    requires var s := After(Untouched(files), es);
             p in s.written && Get(s.disk.files, p) == Some(s.written[p]) && !HasLine(s.disk.ledger, p)
    ensures var s := After(Untouched(files), es);
            p in s.before && Get(Uninstall(s.disk, kept).files, p) == s.before[p]
  {
    hide After;
    NeverCutIsFaithful(files, es);
    UninstallRestores(files, es, kept, p);
  }

  // ---------- aside, by the disk before the call ----------

  /** What is left of a file when the lines recorded for it are taken, newest first. */
  function Stripped(now: Option<Content>, ledger: seq<Entry>, p: Path): Option<Content>
    decreases |ledger|
  {
    if |ledger| == 0 || now.None? then now
    else
      var e := ledger[|ledger| - 1];
      Stripped(if IsLine(e, p) then Some(LineTaken(now.value, e.line)) else now, ledger[..|ledger| - 1], p)
  }

  /** What the disk holds at the path of entry `i`, but for the lines recorded since. */
  function Found(d: Disk, i: nat): Option<Content>
    requires i < |d.ledger| && IsAnyOrigin(d.ledger[i])
  {
    Stripped(Get(d.files, d.ledger[i].path), d.ledger[i + 1..], d.ledger[i].path)
  }

  /** What uninstalling this disk sets aside for entry `i`: if its file was changed, the owner's version of
      a file the kit created, and the former version of one it replaced. */
  function SetsAside(d: Disk, kept: set<Path>, i: nat): Option<Content>
    requires i < |d.ledger| && IsAnyOrigin(d.ledger[i])
  {
    var e, found := d.ledger[i], Found(d, i);
    if e.path in kept || found.None? || found.value == LatestFor(Latest(d.ledger), e) then None
    else if e.FileCreated? then found
    else if e.backup in d.backups then Some(d.backups[e.backup])
    else None
  }

  /** The same for a name: nothing, unless the entry is an origin that goes by it. */
  function SetsUnder(d: Disk, kept: set<Path>, name: string, i: nat): Option<Content>
    requires i < |d.ledger|
  {
    if IsAnyOrigin(d.ledger[i]) && AsideName(d.ledger[i]) == name then SetsAside(d, kept, i) else None
  }

  lemma {:induction false} AlongIsStripped(now: Option<Content>, u: Setup, ledger: seq<Entry>, p: Path)
    requires !Managed(ledger, p)
    ensures Along(now, u, ledger, p) == Stripped(now, ledger, p)
    decreases |ledger|
  {
    if |ledger| > 0 {
      var e, front := ledger[|ledger| - 1], ledger[..|ledger| - 1];
      assert ledger == front + [e];
      ManagedSnoc(front, e, p);
      AlongIsStripped(OneAlong(now, u, e, p), u, front, p);
    }
  }

  lemma {:induction false} StrippedOfNoLine(now: Option<Content>, ledger: seq<Entry>, p: Path)
    requires !HasLine(ledger, p)
    ensures Stripped(now, ledger, p) == now
    decreases |ledger|
  {
    if |ledger| > 0 {
      var e, front := ledger[|ledger| - 1], ledger[..|ledger| - 1];
      assert ledger == front + [e];
      HasLineSnoc(front, e, p);
      StrippedOfNoLine(now, front, p);
    }
  }

  /** Where no line was recorded, it is what the disk holds. */
  lemma FoundWithoutLines(d: Disk, i: nat)
    requires i < |d.ledger| && IsAnyOrigin(d.ledger[i]) && !HasLine(d.ledger, d.ledger[i].path)
    ensures Found(d, i) == Get(d.files, d.ledger[i].path)
  {
    var p, rest := d.ledger[i].path, d.ledger[i + 1..];
    forall j | 0 <= j < |rest| ensures !IsLine(rest[j], p) { assert rest[j] == d.ledger[i + 1 + j]; }
    StrippedOfNoLine(Get(d.files, p), rest, p);
  }

  /** What the pass finds at the path of an origin entry, told from the disk before the call. */
  lemma FoundAt(d: Disk, kept: set<Path>, i: nat)
    requires OneOrigin(d.ledger) && i < |d.ledger| && IsAnyOrigin(d.ledger[i])
    ensures Get(Before(Remains(d.files, map[]), SetupOf(d, kept), d.ledger, i).files, d.ledger[i].path) == Found(d, i)
  {
    var p, rest := d.ledger[i].path, d.ledger[i + 1..];
    forall j | 0 <= j < |rest| ensures !IsOrigin(rest[j], p) {
      assert rest[j] == d.ledger[i + 1 + j] && IsOrigin(d.ledger[i], p);
    }
    UndoAllIs(Remains(d.files, map[]), SetupOf(d, kept), rest, p);
    AlongIsStripped(Get(d.files, p), SetupOf(d, kept), rest, p);
  }

  /** What an entry puts under a name in the course of the pass is told by the disk before it. */
  lemma PutsByTheDisk(d: Disk, kept: set<Path>, name: string, i: nat)
    requires OneOrigin(d.ledger) && i < |d.ledger|
    ensures Puts(Remains(d.files, map[]), SetupOf(d, kept), d.ledger, name, i) == SetsUnder(d, kept, name, i)
  {
    hide AsideName;
    hide Found;
    hide Before;
    hide OneOrigin;
    if IsAnyOrigin(d.ledger[i]) { FoundAt(d, kept, i); }
  }

  /** What is aside under a name in the end is what the oldest entry sets aside that sets anything aside
      under it, and nothing if none does. */
  lemma AsideByTheDisk(d: Disk, kept: set<Path>, name: string, i: nat)
    requires OneOrigin(d.ledger) && i <= |d.ledger|
    requires forall j :: 0 <= j < i ==> SetsUnder(d, kept, name, j) == None
    requires i < |d.ledger| ==> SetsUnder(d, kept, name, i).Some?
    ensures Get(Uninstall(d, kept).aside, name) == if i < |d.ledger| then SetsUnder(d, kept, name, i) else None
  {
    hide Puts;
    hide SetsUnder;
    hide UndoAll;
    hide OneOrigin;
    var r, u := Remains(d.files, map[]), SetupOf(d, kept);
    forall j | 0 <= j < |d.ledger| ensures Puts(r, u, d.ledger, name, j) == SetsUnder(d, kept, name, j) {
      PutsByTheDisk(d, kept, name, j);
    }
    AsideIs(r, u, d.ledger, name, i);
  }

  /** No older file that goes by the aside name of entry `i` was changed. */
  ghost predicate OwnAsideName(d: Disk, kept: set<Path>, i: nat)
    requires i < |d.ledger| && IsAnyOrigin(d.ledger[i])
  {
    forall j :: 0 <= j < i ==> SetsUnder(d, kept, AsideName(d.ledger[i]), j) == None
  }

  /** What the owner made of a file the kit created is put aside, and is there in the end exactly if the
      oldest changed file that goes by the same aside name sets the same aside. */
  lemma CreatedEditsSurvive(d: Disk, kept: set<Path>, i: nat) returns (k: nat)
    requires OneOrigin(d.ledger) && i < |d.ledger| && d.ledger[i].FileCreated? && d.ledger[i].path !in kept
    requires Found(d, i).Some? && Found(d, i).value != LatestFor(Latest(d.ledger), d.ledger[i])
    ensures var name, aside := AsideName(d.ledger[i]), Uninstall(d, kept).aside;
            && k <= i && SetsUnder(d, kept, name, k).Some?
            && (forall j :: 0 <= j < k ==> SetsUnder(d, kept, name, j) == None)
            && name in aside
            && (aside[name] == Found(d, i).value <==> SetsUnder(d, kept, name, k) == Found(d, i))
            && (k == i <==> OwnAsideName(d, kept, i))
            && (k == i ==> aside[name] == Found(d, i).value)
  {
    hide AsideName;
    hide Found;
    hide UndoAll;
    hide OneOrigin;
    var name := AsideName(d.ledger[i]);
    assert SetsUnder(d, kept, name, i) == Found(d, i);
    hide SetsUnder;
    k := 0;
    while k < i && SetsUnder(d, kept, name, k).None?
      invariant 0 <= k <= i
      invariant forall j :: 0 <= j < k ==> SetsUnder(d, kept, name, j) == None
    {
      k := k + 1;
    }
    AsideByTheDisk(d, kept, name, k);
  }

  /** No bytes the owner wrote after the kit are lost, lines of the kit aside: they stay in place or are
      aside, as long as nothing older is put aside under the same name. */
  lemma OwnerEditsSurvive(files: Files, es: seq<Event>, kept: set<Path>, p: Path)
    requires var s := After(Untouched(files), es);
             && p in s.disk.files && !HasLine(s.disk.ledger, p)
             && (Managed(s.disk.ledger, p) ==>
                   p in Latest(s.disk.ledger) && s.disk.files[p] != Latest(s.disk.ledger)[p])
             && forall i :: 0 <= i < |s.disk.ledger| && IsOrigin(s.disk.ledger[i], p) ==> OwnAsideName(s.disk, kept, i)
    ensures var s := After(Untouched(files), es);
            var r := Uninstall(s.disk, kept);
            || Get(r.files, p) == Some(s.disk.files[p])
            || exists name :: name in r.aside && r.aside[name] == s.disk.files[p]
  {
    hide After;
    hide SetsUnder;
    hide Found;
    hide AsideName;
    var s := After(Untouched(files), es);
    AfterKeepsInv(files, es);
    var d, u := s.disk, SetupOf(s.disk, kept);
    if Managed(d.ledger, p) {
      var i :| 0 <= i < |d.ledger| && IsOrigin(d.ledger[i], p);
      UndoAllAt(Remains(d.files, map[]), u, d.ledger, i);
      FoundWithoutLines(d, i);
      if d.ledger[i].FileCreated? && p !in kept {
        var k := CreatedEditsSurvive(d, kept, i);
      }
    } else {
      UndoAllIs(Remains(d.files, map[]), u, d.ledger, p);
      AlongElsewhere(Get(d.files, p), u, d.ledger, p);
    }
  }

  /** Two files the kit creates, which the owner then changes. */
  function TwoFiles(a: Path, b: Path, x: Content, y: Content, raw: Content): seq<Event> {
    [Install(a, raw, 0, 2), Install(b, raw, 0, 2), OwnerWrites(a, x), OwnerWrites(b, y)]
  }

  lemma TwoFilesLeave(a: Path, b: Path, x: Content, y: Content, raw: Content)
    requires a != b
    ensures After(Untouched(map[]), TwoFiles(a, b, x, y, raw)).disk
            == Disk(map[a := x, b := y], map[], [FileCreated(a, raw), FileCreated(b, raw)])
  {
    hide Script;
    hide ExecAll;
    var es, s0 := TwoFiles(a, b, x, y, raw), Untouched(map[]);
    AfterFour(s0, es[0], es[1], es[2], es[3]);
    assert !Managed(s0.disk.ledger, a);
    var d1 := Creating(s0, a, raw);
    assert d1 == Disk(map[a := raw], map[], [FileCreated(a, raw)]);
    assert !Managed(d1.ledger, b);
    var d2 := Creating(Step(s0, es[0]), b, raw);
    assert d2 == Disk(map[a := raw, b := raw], map[], [FileCreated(a, raw), FileCreated(b, raw)]);
    assert d2.files[a := x][b := y] == map[a := x, b := y];
  }

  /** The first installation of a file that is not there, whole. */
  lemma Creating(s: Past, p: Path, raw: Content) returns (d: Disk)
    requires p !in s.disk.files && !Managed(s.disk.ledger, p)
    ensures d == Step(s, Install(p, raw, 0, 2)).disk
    ensures d == Disk(s.disk.files[p := raw], s.disk.backups, s.disk.ledger + [FileCreated(p, raw)])
  {
    hide Managed;
    var script := Script(s.disk, p, raw, 0);
    assert |script| == 2;
    ExecCut(s.disk, script, 2);
    d := Step(s, Install(p, raw, 0, 2)).disk;
  }

  lemma AfterFour(s: Past, a: Event, b: Event, c: Event, d: Event)
    ensures After(s, [a, b, c, d]) == Step(Step(Step(Step(s, a), b), c), d)
  {
    hide Step;
    AfterTwo(s, a, b);
    assert [a, b, c][..2] == [a, b] && [a, b, c, d][..3] == [a, b, c];
    assert After(s, [a, b, c]) == Step(After(s, [a, b]), c);
  }

  /** The condition is needed: when two files the kit created share an aside name, what the owner wrote to
      the one installed later is nowhere. */
  lemma SharedAsideNameLosesBytes(a: Path, b: Path, x: Content, y: Content, raw: Content)
    requires a != b && AsideName(FileCreated(a, raw)) == AsideName(FileCreated(b, raw))
    requires x != y && x != raw && y != raw
    ensures var d := After(Untouched(map[]), TwoFiles(a, b, x, y, raw)).disk;
            var r := Uninstall(d, {});
            d.files == map[a := x, b := y] && r.files == map[] && forall name :: name in r.aside ==> r.aside[name] != y
  {
    hide After;
    TwoFilesLeave(a, b, x, y, raw);
    var ea, eb := FileCreated(a, raw), FileCreated(b, raw);
    var ledger, name := [ea, eb], AsideName(ea);
    var files: Files := map[a := x, b := y];
    LatestSnoc([ea], eb);
    LatestSnoc([], ea);
    assert ledger == [ea] + [eb] && [ea] == [] + [ea];
    var u := Setup(map[], Latest(ledger), {});
    var r0 := Remains(files, map[]);
    var r1 := Undo(r0, u, eb);
    assert r1 == Remains(map[a := x], map[name := y]);
    var r2 := Undo(r1, u, ea);
    assert r2 == Remains(map[], map[name := x]);
    UndoTwo(r0, u, ea, eb);
  }

  /** Such paths: a file in a folder, and a file named after both with two underscores. */
  lemma FlattenedAlike(folder: string, file: string, raw: Content)
    requires |folder| > 0 && |file| > 0 && '/' !in folder && '/' !in file
    ensures var a, b := "/" + folder + "/" + file, "/" + folder + "__" + file;
            a != b && AsideName(FileCreated(a, raw)) == AsideName(FileCreated(b, raw))
  {
    hide Flatten;
    hide AsideName;
    var stemA, stemB := folder + "/" + file, folder + "__" + file;
    StripOnce(stemA, raw);
    StripOnce(stemB, raw);
    FlattenJoin(folder, "/", file);
    FlattenJoin(folder, "__", file);
    FlattenPlain("__");
    SlashIsTwo();
    assert "/" + folder + "/" + file == "/" + stemA && "/" + folder + "__" + file == "/" + stemB;
    assert |stemA| != |stemB|;
  }

  /** The parts of a path, joined. */
  function PathOf(parts: seq<string>): string {
    if |parts| == 0 then "" else "/" + parts[0] + PathOf(parts[1..])
  }

  function Underlined(parts: seq<string>): string {
    if |parts| == 0 then "" else if |parts| == 1 then parts[0] else parts[0] + "__" + Underlined(parts[1..])
  }

  ghost predicate Names(parts: seq<string>) {
    |parts| > 0 && forall i :: 0 <= i < |parts| ==> parts[i] != "" && '/' !in parts[i]
  }

  /** The name something is put aside under: the parts of its path with two underscores in between, and an
      ending of its own for the former version of a file. */
  lemma AsideNameIs(parts: seq<string>, backup: BackupName, raw: Content)
    requires Names(parts)
    ensures AsideName(FileCreated(PathOf(parts), raw)) == Underlined(parts)
    ensures AsideName(FileReplaced(PathOf(parts), backup, raw)) == Underlined(parts) + ".before-pskit"
  {
    hide Flatten;
    PathFlattened(parts);
    var p := PathOf(parts);
    var stem := p[1..];
    PathEnds(parts);
    assert p == "/" + stem;
    assert StripLeft(p) == stem && StripRight(stem) == stem;
  }

  lemma {:induction false} PathEnds(parts: seq<string>)
    requires Names(parts)
    ensures var p := PathOf(parts); |p| >= 2 && p[0] == '/' && p[1] != '/' && p[|p| - 1] != '/'
  {
    var p := PathOf(parts);
    assert p[1] == parts[0][0] && parts[0][|parts[0]| - 1] != '/';
    if |parts| > 1 {
      PathEnds(parts[1..]);
      assert p == "/" + parts[0] + PathOf(parts[1..]);
    } else {
      assert PathOf(parts[1..]) == "" && p == "/" + parts[0];
    }
  }

  lemma {:induction false} PathFlattened(parts: seq<string>)
    requires Names(parts)
    ensures |PathOf(parts)| > 0 && Flatten(PathOf(parts)[1..]) == Underlined(parts)
  {
    var rest := PathOf(parts[1..]);
    assert PathOf(parts)[1..] == parts[0] + rest;
    FlattenAppend(parts[0], rest);
    FlattenPlain(parts[0]);
    if |parts| > 1 {
      PathFlattened(parts[1..]);
      assert rest == "/" + rest[1..] by { PathEnds(parts[1..]); }
      FlattenAppend("/", rest[1..]);
      SlashIsTwo();
      assert parts[0] + ("__" + Underlined(parts[1..])) == parts[0] + "__" + Underlined(parts[1..]);
    } else {
      assert rest == "" && parts[0] + "" == parts[0];
    }
  }

  lemma SlashIsTwo()
    ensures Flatten("/") == "__"
  {
    assert "/"[1..] == "";
  }

  lemma StripOnce(stem: string, raw: Content)
    requires |stem| > 0 && stem[0] != '/' && stem[|stem| - 1] != '/'
    ensures AsideName(FileCreated("/" + stem, raw)) == Flatten(stem)
  {
    hide Flatten;
    assert ("/" + stem)[1..] == stem;
    assert StripLeft("/" + stem) == stem;
    assert StripRight(stem) == stem;
  }

  lemma FlattenJoin(p: string, q: string, r: string)
    ensures Flatten(p + q + r) == Flatten(p) + Flatten(q) + Flatten(r)
  {
    hide Flatten;
    FlattenAppend(p + q, r);
    FlattenAppend(p, q);
  }

  lemma {:induction false} FlattenAppend(p: string, q: string)
    ensures Flatten(p + q) == Flatten(p) + Flatten(q)
  {
    if |p| == 0 {
      assert p + q == q;
    } else {
      assert (p + q)[0] == p[0] && (p + q)[1..] == p[1..] + q;
      FlattenAppend(p[1..], q);
    }
  }

  lemma {:induction false} FlattenPlain(p: string)
    requires '/' !in p
    ensures Flatten(p) == p
  {
    if |p| > 0 {
      assert p == [p[0]] + p[1..];
      FlattenPlain(p[1..]);
    }
  }

  /** And so is recording the first write: cut between writing a new file and recording it, the kit no
      longer knows that the file is its own, and uninstalling leaves it behind. */
  lemma UnrecordedWriteStays(files: Files, p: Path, raw: Content, clock: int)
    requires p !in files
    ensures var s := After(Untouched(files), [Install(p, raw, clock, 1)]);
            Get(Uninstall(s.disk, {}).files, p) == Some(raw) && p in s.orphans
  {
    var e := Install(p, raw, clock, 1);
    assert [e][..0] == [];
    assert After(Untouched(files), [e]) == Step(Untouched(files), e);
    var d := Untouched(files).disk;
    ExecCut(d, Script(d, p, raw, clock), 1);
  }

  /** A rewrite that was recorded and then cut off before the write: what the kit itself had written is
      taken for an edit of the owner's, and stays. */
  lemma CutRewriteLooksEdited(files: Files, p: Path, first: Content, second: Content, clock: int)
    requires p in files && files[p] != first && first != second
    ensures var s := After(Untouched(files), [Install(p, first, clock, 3), Install(p, second, clock, 1)]);
            && s.written == map[p := first] && p in s.before && s.before[p] == Some(files[p])
            && Get(Uninstall(s.disk, {}).files, p) == Some(first)
  {
    hide Script;
    hide ExecAll;
    hide Managed;
    var e1, e2 := Install(p, first, clock, 3), Install(p, second, clock, 1);
    var s0 := Untouched(files);
    var s1 := Replacing(files, p, first, clock);
    AfterTwo(s0, e1, e2);
    CutAgain(s1, e2);
    var replaced, written := FileReplaced(p, BackupName(clock, p), first), FileWritten(p, second);
    var d := Step(s1, e2).disk;
    assert [replaced] + [written] == [replaced, written];
    LatestSnoc([replaced], written);
    UndoTwo(Remains(d.files, map[]), SetupOf(d, {}), replaced, written);
  }

  lemma AfterTwo(s: Past, a: Event, b: Event)
    ensures After(s, [a, b]) == Step(Step(s, a), b)
  {
    hide Step;
    assert [a, b][..1] == [a] && [a][..0] == [];
    assert After(s, [a]) == Step(s, a);
  }

  /** The first replacement of a file, whole. */
  lemma Replacing(files: Files, p: Path, raw: Content, clock: int) returns (t: Past)
    requires p in files && files[p] != raw
    ensures t == Step(Untouched(files), Install(p, raw, clock, 3))
    ensures var name := BackupName(clock, p);
            t == Past(Disk(files[p := raw], map[name := files[p]], [FileReplaced(p, name, raw)]),
                      map[p := Some(files[p])], map[p := raw], {})
    ensures Managed(t.disk.ledger, p)
  {
    var s := Untouched(files);
    var script := Script(s.disk, p, raw, clock);
    assert |script| == 3;
    ExecCut(s.disk, script, 3);
    t := Step(s, Install(p, raw, clock, 3));
    assert IsOrigin(t.disk.ledger[0], p);
  }

  lemma CutAgain(s: Past, e: Event)
    requires e.Install? && e.done == 1 && Managed(s.disk.ledger, e.path)
    requires e.path in s.disk.files && s.disk.files[e.path] != e.raw && e.path in s.before
    ensures Step(s, e) == s.(disk := s.disk.(ledger := s.disk.ledger + [FileWritten(e.path, e.raw)]))
  {
    hide Managed;
    ExecCut(s.disk, Script(s.disk, e.path, e.raw, e.clock), 1);
  }

  lemma UndoTwo(r: Remains, u: Setup, a: Entry, b: Entry)
    ensures UndoAll(r, u, [a, b]) == Undo(Undo(r, u, b), u, a)
  {
    hide Undo;
    assert [a, b][..1] == [a] && [a][..0] == [];
    var r1 := Undo(r, u, b);
    assert UndoAll(Undo(r1, u, a), u, []) == Undo(r1, u, a);
    assert UndoAll(r1, u, [a]) == Undo(r1, u, a);
  }
}
