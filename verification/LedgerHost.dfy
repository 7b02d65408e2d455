/**
 pskit/state.py and pskit/uninstall.py as they work on the machine: `install_file` writing file,
 backup and ledger one after the other, and `run` walking the ledger backwards.

 Each write is logged, so the contract of `InstallFile` says what the disk holds at every moment of
 the call, not only at its end.
 */
module LedgerHost {
  import opened Common
  import opened Ledger
  import opened LedgerTheorems
  import Lines

  datatype Installed = Unchanged | Created | Replaced

  /** The `report` of uninstall. */
  datatype Report = Report(removed: nat, restored: nat, keptAside: nat, keptChanged: seq<Path>)

  /** The owner changed the file after the kit wrote it. */
  predicate Changed(files: Files, u: Setup, e: Entry)
    requires IsAnyOrigin(e)
  {
    e.path in files && files[e.path] != LatestFor(u.latest, e)
  }

  function Note(report: Report, r: Remains, u: Setup, e: Entry): Report {
    if !IsAnyOrigin(e) || e.path in u.kept then report
    else if e.FileCreated? then
      if e.path !in r.files then report
      else if Changed(r.files, u, e) then report.(keptAside := report.keptAside + 1)
      else report.(removed := report.removed + 1)
    else if e.backup !in u.backups then report
    else if Changed(r.files, u, e) then report.(keptChanged := report.keptChanged + [e.path])
    else report.(restored := report.restored + 1)
  }

  function Tally(report: Report, r: Remains, u: Setup, ledger: seq<Entry>): Report
    decreases |ledger|
  {
    if |ledger| == 0 then report
    else
      var last := ledger[|ledger| - 1];
      Tally(Note(report, r, u, last), Undo(r, u, last), u, ledger[..|ledger| - 1])
  }

  /** Entry `e` is a file the kit replaced, the owner changed since, and uninstalling leaves in place. */
  ghost predicate LeftChanged(files: Files, u: Setup, e: Entry) {
    e.FileReplaced? && e.path !in u.kept && e.backup in u.backups && Changed(files, u, e)
  }

  /** No file is both installed whole and given single lines. */
  ghost predicate NoMixed(ledger: seq<Entry>) {
    forall p :: Managed(ledger, p) ==> !HasLine(ledger, p)
  }

  /** The paths reported as kept changed are exactly those the owner changed in a file the kit had
      replaced, judged on the files as they were before the pass began. */
  lemma {:induction false} TallyIs(report: Report, r: Remains, files: Files, u: Setup, ledger: seq<Entry>, p: Path)
    requires OneOrigin(ledger) && NoMixed(ledger)
    requires forall q :: Managed(ledger, q) ==> Get(r.files, q) == Get(files, q)
    ensures p in Tally(report, r, u, ledger).keptChanged
            <==> p in report.keptChanged
                 || exists i :: 0 <= i < |ledger| && ledger[i].FileReplaced? && ledger[i].path == p
                                && LeftChanged(files, u, ledger[i])
    decreases |ledger|
  {
    hide Undo;
    hide OneOrigin;
    hide LeftChanged;
    hide Note;
    hide Managed;
    hide HasLine;
    if |ledger| > 0 {
      var last, front := ledger[|ledger| - 1], ledger[..|ledger| - 1];
      assert ledger == front + [last];
      OneOriginFront(ledger);
      LastLeaves(r, files, u, ledger);
      TallyIs(Note(report, r, u, last), Undo(r, u, last), files, u, front, p);
      LastNoted(report, r, files, u, ledger, p);
      forall i | 0 <= i < |front| ensures front[i] == ledger[i] {}
    }
  }

  /** Undoing the last entry touches no path an older entry took over. */
  lemma LastLeaves(r: Remains, files: Files, u: Setup, ledger: seq<Entry>)
    requires |ledger| > 0 && OneOrigin(ledger) && NoMixed(ledger)
    requires forall q :: Managed(ledger, q) ==> Get(r.files, q) == Get(files, q)
    ensures var front := ledger[..|ledger| - 1];
            && NoMixed(front)
            && forall q :: Managed(front, q) ==> Get(Undo(r, u, ledger[|ledger| - 1]).files, q) == Get(files, q)
  {
    hide Undo;
    hide Managed;
    hide HasLine;
    hide OneOrigin;
    var last, front := ledger[|ledger| - 1], ledger[..|ledger| - 1];
    assert ledger == front + [last];
    OneOriginFront(ledger);
    forall q | Managed(front, q) ensures !HasLine(front, q) && Get(Undo(r, u, last).files, q) == Get(files, q) {
      ManagedSnoc(front, last, q);
      HasLineSnoc(front, last, q);
      UndoOne(r, u, last, q);
    }
  }

  lemma LastNoted(report: Report, r: Remains, files: Files, u: Setup, ledger: seq<Entry>, p: Path)
    requires |ledger| > 0
    requires forall q :: Managed(ledger, q) ==> Get(r.files, q) == Get(files, q)
    ensures var last := ledger[|ledger| - 1];
            p in Note(report, r, u, last).keptChanged
            <==> p in report.keptChanged || (last.FileReplaced? && last.path == p && LeftChanged(files, u, last))
  {
    var last := ledger[|ledger| - 1];
    if IsAnyOrigin(last) {
      assert IsOrigin(last, last.path) && Managed(ledger, last.path);
      assert Get(r.files, last.path) == Get(files, last.path);
    }
  }

  class Machine {
    var files: Files
    var backups: map<BackupName, Content>
    var ledger: seq<Entry>
    var aside: map<string, Content>
    ghost const start: Disk
    ghost var writes: seq<Write>

    /** The disk is what the logged writes made of the first one. */
    ghost predicate Valid()
      reads this
    {
      Now() == ExecAll(start, writes)
    }

    ghost function Now(): Disk
      reads this
    {
      Disk(files, backups, ledger)
    }

    constructor (before: Files)
      ensures Valid() && Now() == Untouched(before).disk && start == Untouched(before).disk && writes == []
    {
      files, backups, ledger, aside := before, map[], [], map[];
      start, writes := Disk(before, map[], []), [];
    }

    // ---------- single writes ----------

    method WriteAtomic(path: Path, data: Content)
      requires Valid()
      modifies this`files, this`writes
      ensures Valid() && writes == old(writes) + [PutFile(path, data)] && Now() == Exec(old(Now()), PutFile(path, data))
    {
      files := files[path := data];
      writes := writes + [PutFile(path, data)];
      Logged();
    }

    method WriteBackup(name: BackupName, data: Content)
      requires Valid()
      modifies this`backups, this`writes
      ensures Valid() && writes == old(writes) + [PutBackup(name, data)]
              && Now() == Exec(old(Now()), PutBackup(name, data))
    {
      backups := backups[name := data];
      writes := writes + [PutBackup(name, data)];
      Logged();
    }

    method Add(e: Entry)
      requires Valid()
      modifies this`ledger, this`writes
      ensures Valid() && writes == old(writes) + [AddEntry(e)] && Now() == Exec(old(Now()), AddEntry(e))
    {
      ledger := ledger + [e];
      writes := writes + [AddEntry(e)];
      Logged();
    }

    lemma Logged()
      ensures |writes| > 0 ==>
                ExecAll(start, writes) == Exec(ExecAll(start, writes[..|writes| - 1]), writes[|writes| - 1])
    {
    }

    // ---------- install_file ----------

    /** `has("file_created") or has("file_replaced")`. */
    method Has(path: Path) returns (managed: bool)
      ensures managed == Managed(ledger, path)
    {
      managed := false;
      var i := 0;
      while i < |ledger| && !managed
        invariant 0 <= i <= |ledger|
        invariant managed <==> exists j :: 0 <= j < i && IsOrigin(ledger[j], path)
      {
        managed := IsOrigin(ledger[i], path);
        i := i + 1;
      }
    }

    method InstallFile(path: Path, raw: Content, clock: int) returns (done: Installed)
      requires Valid()
      modifies this`files, this`backups, this`ledger, this`writes
      ensures Valid() && path in files && files[path] == raw
      // every disk in between is the old one after a prefix of the script
      ensures writes == old(writes) + Script(old(Now()), path, raw, clock)
      ensures Now() == ExecAll(old(Now()), Script(old(Now()), path, raw, clock))
      ensures done == if Get(old(files), path) == Some(raw) then Unchanged
                      else if path !in old(files) then Created else Replaced
      ensures forall q :: q != path ==> Get(files, q) == Get(old(files), q)
    {
      hide ExecAll;
      hide Managed;
      ghost var script := Script(Now(), path, raw, clock);
      ghost var before := Now();
      ExecCut(before, script, |script|);
      assert script[..|script|] == script;
      if path in files && files[path] == raw {
        assert script == [];
        return Unchanged;
      }
      var managed := Has(path);
      if path !in files {
        WriteAtomic(path, raw);
        Add(if managed then FileWritten(path, raw) else FileCreated(path, raw));
        return Created;
      }
      if !managed {
        var backup := BackupName(clock, path);
        WriteBackup(backup, files[path]);
        Add(FileReplaced(path, backup, raw));
      } else {
        Add(FileWritten(path, raw));
      }
      WriteAtomic(path, raw);
      return Replaced;
    }

    /** `add_line`: the text first, the record of it after. */
    method AddLine(path: Path, line: string) returns (added: bool)
      requires Valid()
      modifies this`files, this`ledger, this`writes
      ensures Valid() && added == (line !in Lines.SplitLines(TextOf(old(files), path)))
      // every disk in between is the old one after a prefix of the script
      ensures writes == old(writes) + LineScript(old(Now()), path, line)
      ensures Now() == ExecAll(old(Now()), LineScript(old(Now()), path, line))
      ensures forall q :: q != path ==> Get(files, q) == Get(old(files), q)
    {
      hide ExecAll;
      hide Lines.SplitLines;
      ghost var script := LineScript(Now(), path, line);
      ghost var before := Now();
      ExecCut(before, script, |script|);
      assert script[..|script|] == script;
      var text := if path in files then files[path] else "";
      match Lines.AddLine(text, line) {
        case None =>
          assert script == [];
          return false;
        case Some(more) =>
          WriteAtomic(path, more);
          Add(LineAdded(path, line));
          return true;
      }
    }

    // ---------- uninstall ----------

    method LastWritten() returns (out: map<Path, Content>)
      ensures out == Latest(ledger)
    {
      out := map[];
      var i := 0;
      while i < |ledger|
        invariant 0 <= i <= |ledger|
        invariant out == Latest(ledger[..i])
      {
        assert ledger[..i + 1][..i] == ledger[..i];
        if IsFile(ledger[i]) {
          out := out[ledger[i].path := ledger[i].sha];
        }
        i := i + 1;
      }
      assert ledger[..i] == ledger;
    }

    method Uninstall(kept: set<Path>) returns (report: Report)
      requires aside == map[]
      modifies this`files, this`aside
      ensures Remains(files, aside) == Ledger.Uninstall(old(Now()), kept)
      ensures report == Tally(Report(0, 0, 0, []), Remains(old(files), map[]), SetupOf(old(Now()), kept), ledger)
      ensures OneOrigin(ledger) && NoMixed(ledger) ==>
                (forall p :: p in report.keptChanged
                   <==> exists i :: 0 <= i < |ledger| && ledger[i].FileReplaced? && ledger[i].path == p
                                    && LeftChanged(old(files), SetupOf(old(Now()), kept), ledger[i]))
    {
      hide LineTaken;
      report := Report(0, 0, 0, []);
      var latest := LastWritten();
      ghost var u := SetupOf(Now(), kept);
      ghost var whole := Ledger.Uninstall(Now(), kept);
      ghost var told := Tally(report, Remains(files, aside), u, ledger);
      var i := |ledger|;
      assert ledger[..i] == ledger;
      while i > 0
        invariant 0 <= i <= |ledger|
        invariant UndoAll(Remains(files, aside), u, ledger[..i]) == whole
        invariant Tally(report, Remains(files, aside), u, ledger[..i]) == told
      {
        ghost var r := Remains(files, aside);
        ghost var noted := report;
        var e := ledger[i - 1];
        assert ledger[..i][i - 1] == e && ledger[..i][..i - 1] == ledger[..i - 1];
        match e {
          case FileCreated(path, _) =>
            if path !in kept && path in files {
              if files[path] != LatestFor(latest, e) {
                aside := aside[AsideName(e) := files[path]];
                files := files - {path};
                report := report.(keptAside := report.keptAside + 1);
              } else {
                files := files - {path};
                report := report.(removed := report.removed + 1);
              }
            }
          case FileReplaced(path, backup, _) =>
            if path !in kept && backup in backups {
              if path in files && files[path] != LatestFor(latest, e) {
                aside := aside[AsideName(e) := backups[backup]];
                report := report.(keptChanged := report.keptChanged + [path]);
              } else {
                files := files[path := backups[backup]];
                report := report.(restored := report.restored + 1);
              }
            }
          case LineAdded(path, line) =>
            if path in files {
              files := files[path := LineTaken(files[path], line)];
            }
          case _ =>
        }
        assert Remains(files, aside) == Undo(r, u, e);
        assert report == Note(noted, r, u, e);
        i := i - 1;
      }
      if OneOrigin(ledger) && NoMixed(ledger) {
        forall p ensures p in report.keptChanged
            <==> exists i :: 0 <= i < |ledger| && ledger[i].FileReplaced? && ledger[i].path == p
                             && LeftChanged(old(files), u, ledger[i])
        {
          TallyIs(Report(0, 0, 0, []), Remains(old(files), map[]), old(files), u, ledger, p);
        }
      }
    }
  }
}
