/**
 The change ledger of pskit/state.py and the reverse pass of pskit/uninstall.py.

 `install_file` and `add_line` are short scripts of writes; a history may cut them after any of them. What
 a file holds is text, and digests are as good as the text they were computed from. Paths are those outside
 the kit's own folders, whose backups and ledger are kept apart here.
 */
module Ledger {
  import opened Common
  import Lines

  type Path = string

  /** What a file holds, as the characters it decodes to. */
  type Content = string

  type Files = map<Path, Content>

  /** `file-backups/<seconds><path>`. */
  datatype BackupName = BackupName(seconds: int, path: Path)

  datatype Entry =
    | FileCreated(path: Path, sha: Content)
    | FileReplaced(path: Path, backup: BackupName, sha: Content)
    | FileWritten(path: Path, sha: Content)
    | LineAdded(path: Path, line: string)
    | Other    // the kinds this model leaves out: units, users, groups, folders, packages, keys, swap

  datatype Disk = Disk(files: Files, backups: map<BackupName, Content>, ledger: seq<Entry>)

  function Get(files: Files, p: Path): Option<Content> {
    if p in files then Some(files[p]) else None
  }

  // ---------- install_file ----------

  /** The kinds `last_written_sha` reads. */
  predicate IsFile(e: Entry) {
    e.FileCreated? || e.FileReplaced? || e.FileWritten?
  }

  predicate IsAnyOrigin(e: Entry) {
    e.FileCreated? || e.FileReplaced?
  }

  predicate IsOrigin(e: Entry, p: Path) {
    IsAnyOrigin(e) && e.path == p
  }

  /** `ledger.has` of either origin kind. */
  predicate Managed(ledger: seq<Entry>, p: Path) {
    exists i :: 0 <= i < |ledger| && IsOrigin(ledger[i], p)
  }

  datatype Write =
    | PutFile(path: Path, data: Content)
    | PutBackup(name: BackupName, data: Content)
    | AddEntry(entry: Entry)

  function Exec(d: Disk, w: Write): Disk {
    match w
    case PutFile(p, data) => d.(files := d.files[p := data])
    case PutBackup(name, data) => d.(backups := d.backups[name := data])
    case AddEntry(e) => d.(ledger := d.ledger + [e])
  }

  function ExecAll(d: Disk, ws: seq<Write>): Disk {
    if |ws| == 0 then d else Exec(ExecAll(d, ws[..|ws| - 1]), ws[|ws| - 1])
  }

  /** The writes of `install_file(path, raw)` in their order. */
  function Script(d: Disk, p: Path, raw: Content, clock: int): seq<Write> {
    if Get(d.files, p) == Some(raw) then []
    else if p !in d.files then
      [PutFile(p, raw), AddEntry(if Managed(d.ledger, p) then FileWritten(p, raw) else FileCreated(p, raw))]
    else if !Managed(d.ledger, p) then
      var name := BackupName(clock, p);
      [PutBackup(name, d.files[p]), AddEntry(FileReplaced(p, name, raw)), PutFile(p, raw)]
    else
      [AddEntry(FileWritten(p, raw)), PutFile(p, raw)]
  }

  function TextOf(files: Files, p: Path): Content {
    if p in files then files[p] else ""
  }

  /** The writes of `add_line(path, line)`; none if the line is there. */
  function LineScript(d: Disk, p: Path, line: string): seq<Write> {
    match Lines.AddLine(TextOf(d.files, p), line)
    case None => []
    case Some(text) => [PutFile(p, text), AddEntry(LineAdded(p, line))]
  }

  // ---------- histories ----------

  datatype Event =
    | Install(path: Path, raw: Content, clock: int, done: nat)   // `done` writes happen before the machine dies
    | AddLine(path: Path, line: string, done: nat)
    | OwnerWrites(path: Path, data: Content)
    | OwnerRemoves(path: Path)

  /** The disk, and for stating properties: what a path held before the kit first installed a file there,
      what it last installed, and the paths it installed without getting to record it. */
  datatype Past = Past(disk: Disk, before: map<Path, Option<Content>>, written: map<Path, Content>, orphans: set<Path>)

  function Completes(e: Event, d: Disk): bool
    requires e.Install?
  {
    e.done >= |Script(d, e.path, e.raw, e.clock)|
  }

  function Step(s: Past, e: Event): Past {
    match e
    case OwnerWrites(p, data) => s.(disk := s.disk.(files := s.disk.files[p := data]))
    case OwnerRemoves(p) => s.(disk := s.disk.(files := s.disk.files - {p}))
    case AddLine(p, line, done) =>
      var script := LineScript(s.disk, p, line);
      s.(disk := ExecAll(s.disk, script[..Min(done, |script|)]))
    case Install(p, raw, clock, done) =>
      var script := Script(s.disk, p, raw, clock);
      var n := Min(done, |script|);
      var d := ExecAll(s.disk, script[..n]);
      if n == 0 then s
      else
        Past(d,
             if p in s.before || script[n - 1].PutBackup? then s.before else s.before[p := Get(s.disk.files, p)],
             if n == |script| then s.written[p := raw] else s.written,
             if n < |script| && script[0].PutFile? && !Managed(s.disk.ledger, p) then s.orphans + {p} else s.orphans)
  }

  function After(s: Past, es: seq<Event>): Past {
    if |es| == 0 then s else Step(After(s, es[..|es| - 1]), es[|es| - 1])
  }

  /** A machine the kit has not touched. */
  function Untouched(files: Files): Past {
    Past(Disk(files, map[], []), map[], map[], {})
  }

  // ---------- uninstall ----------

  /** `last_written_sha`. */
  function Latest(ledger: seq<Entry>): map<Path, Content> {
    if |ledger| == 0 then map[]
    else
      var m, e := Latest(ledger[..|ledger| - 1]), ledger[|ledger| - 1];
      if IsFile(e) then m[e.path := e.sha] else m
  }

  function LatestFor(latest: map<Path, Content>, e: Entry): Content
    requires IsFile(e)
  {
    if e.path in latest then latest[e.path] else e.sha
  }

  /** `path.strip("/").replace("/", "__")`. */
  function StripLeft(p: string): string {
    if |p| > 0 && p[0] == '/' then StripLeft(p[1..]) else p
  }

  function StripRight(p: string): string {
    if |p| > 0 && p[|p| - 1] == '/' then StripRight(p[..|p| - 1]) else p
  }

  function Flatten(p: string): string {
    if |p| == 0 then "" else (if p[0] == '/' then "__" else [p[0]]) + Flatten(p[1..])
  }

  /** Where `uninstall` puts what it will not delete. */
  function AsideName(e: Entry): string
    requires e.FileCreated? || e.FileReplaced?
  {
    var flat := Flatten(StripRight(StripLeft(e.path)));
    if e.FileCreated? then flat else flat + ".before-pskit"
  }

  datatype Remains = Remains(files: Files, aside: map<string, Content>)

  /** What the whole pass works with; `kept` are the paths protected while the lockdown stays. */
  datatype Setup = Setup(backups: map<BackupName, Content>, latest: map<Path, Content>, kept: set<Path>)

  /** What uninstall does for one entry. */
  function Undo(r: Remains, u: Setup, e: Entry): Remains {
    match e
    case FileCreated(p, _) =>
      if p in u.kept || p !in r.files then r
      else if r.files[p] != LatestFor(u.latest, e) then
        Remains(r.files - {p}, r.aside[AsideName(e) := r.files[p]])
      else Remains(r.files - {p}, r.aside)
    case FileReplaced(p, backup, _) =>
      if p in u.kept || backup !in u.backups then r
      else if p in r.files && r.files[p] != LatestFor(u.latest, e) then
        Remains(r.files, r.aside[AsideName(e) := u.backups[backup]])
      else Remains(r.files[p := u.backups[backup]], r.aside)
    case LineAdded(p, line) =>
      if p !in r.files then r else Remains(r.files[p := LineTaken(r.files[p], line)], r.aside)
    case _ => r
  }

  /** `remove_line` on a file that is there. */
  function LineTaken(text: Content, line: string): Content {
    match Lines.RemoveLine(text, line) case None => text case Some(t) => t
  }

  /** The pass over the ledger, newest entry first. */
  function UndoAll(r: Remains, u: Setup, ledger: seq<Entry>): Remains
    decreases |ledger|
  {
    if |ledger| == 0 then r
    else UndoAll(Undo(r, u, ledger[|ledger| - 1]), u, ledger[..|ledger| - 1])
  }

  function SetupOf(d: Disk, kept: set<Path>): Setup {
    Setup(d.backups, Latest(d.ledger), kept)
  }

  function Uninstall(d: Disk, kept: set<Path>): Remains {
    UndoAll(Remains(d.files, map[]), SetupOf(d, kept), d.ledger)
  }
}
