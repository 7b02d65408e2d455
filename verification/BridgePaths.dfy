/** Which paths a delivery may name: `safe_rel` and `Source.accepts` of pskit/bridge.py. */
module BridgePaths {
  import opened Common

  const MAX_PATH: nat := 1024
  const MAX_DEPTH: nat := 12

  datatype Source = Claude | Codex | Grok

  function SourceOf(tag: string): Option<Source> {
    if tag == "claude" then Some(Claude)
    else if tag == "codex" then Some(Codex)
    else if tag == "grok" then Some(Grok)
    else None
  }

  /** The last component of the folder a source lives in, `.claude/projects` for instance. */
  function BaseTail(s: Source): string {
    match s case Claude => "projects" case Codex => "sessions" case Grok => "sessions"
  }

  predicate StartsWith(s: string, prefix: string) {
    prefix <= s
  }

  predicate EndsWith(s: string, suffix: string) {
    |suffix| <= |s| && s[|s| - |suffix|..] == suffix
  }

  /** `s.split("/")`. */
  function Split(s: string): (parts: seq<string>)
    ensures |parts| >= 1
  {
    if s == "" then [""]
    else
      var rest := Split(s[1..]);
      if s[0] == '/' then [""] + rest else [[s[0]] + rest[0]] + rest[1..]
  }

  /** `"/".join(parts)`. */
  function Join(parts: seq<string>): string {
    if |parts| == 0 then "" else if |parts| == 1 then parts[0] else parts[0] + "/" + Join(parts[1..])
  }

  /** `Source.accepts`, on the path below the source's folder. */
  predicate Accepts(src: Source, rel: string) {
    var parts := Split(rel);
    var name := parts[|parts| - 1];
    match src
    case Claude => EndsWith(name, ".jsonl")
    case Codex => StartsWith(name, "rollout-") && EndsWith(name, ".jsonl")
    case Grok => StartsWith(parts[0], "%2F") && !EndsWith(name, ".lock") && !StartsWith(name, "session_search.sqlite")
  }

  predicate PlainComponent(p: string) {
    p != "" && p != "." && p != ".." && !StartsWith(p, ".pskit")
  }

  /** `safe_rel`: the normalized path, or None. */
  function SafeRel(path: string): Option<string> {
    if path == "" || |path| > MAX_PATH || '\0' in path || '\\' in path then None
    else if path[0] == '/' then None
    else
      var parts := Split(path);
      if |parts| < 3 || |parts| > MAX_DEPTH then None
      else if exists i :: 0 <= i < |parts| && !PlainComponent(parts[i]) then None
      else
        match SourceOf(parts[0])
        case None => None
        case Some(src) =>
          if parts[1] != BaseTail(src) || !Accepts(src, Join(parts[2..])) then None else Some(Join(parts))
  }

  lemma {:induction false} JoinSplit(s: string)
    ensures Join(Split(s)) == s
  {
    if s != "" {
      JoinSplit(s[1..]);
      var rest := Split(s[1..]);
      if s[0] == '/' {
        assert ([""] + rest)[1..] == rest;
        assert Join(Split(s)) == "" + "/" + Join(rest);
      } else {
        assert ([[s[0]] + rest[0]] + rest[1..])[1..] == rest[1..];
        assert [s[0]] + s[1..] == s;
        if |rest| > 1 {
          assert Join(Split(s)) == [s[0]] + rest[0] + "/" + Join(rest[1..]);
        }
      }
    }
  }

  lemma {:induction false} SplitJoin(parts: seq<string>)
    requires |parts| > 0 && forall i :: 0 <= i < |parts| ==> '/' !in parts[i]
    ensures Split(Join(parts)) == parts
  {
    if |parts| == 1 {
      SplitPlain(parts[0]);
    } else {
      SplitJoin(parts[1..]);
      SplitFirst(parts[0], Join(parts[1..]));
      assert parts == [parts[0]] + parts[1..];
    }
  }

  lemma {:induction false} SplitPlain(p: string)
    requires '/' !in p
    ensures Split(p) == [p]
  {
    if p != "" {
      SplitPlain(p[1..]);
      assert [p[0]] + p[1..] == p;
    }
  }

  lemma {:induction false} SplitFirst(p: string, rest: string)
    requires '/' !in p
    ensures Split(p + "/" + rest) == [p] + Split(rest)
  {
    var s := p + "/" + rest;
    if p == "" {
      assert s[1..] == rest;
    } else {
      assert s[1..] == p[1..] + "/" + rest;
      SplitFirst(p[1..], rest);
      assert [p[0]] + p[1..] == p;
      assert ([p[1..]] + Split(rest))[1..] == Split(rest);
    }
  }

  /** An accepted path is accepted as it is: nothing is rewritten, and every component of it is an
      ordinary name, so it can only lead downwards and never to a file of the kit. */
  lemma SafeRelIsItself(path: string)
    requires SafeRel(path).Some?
    ensures SafeRel(path) == Some(path)
    ensures forall i :: 0 <= i < |Split(path)| ==> PlainComponent(Split(path)[i])
    ensures 3 <= |Split(path)| <= MAX_DEPTH && |path| <= MAX_PATH
  {
    JoinSplit(path);
  }

  lemma OrdinaryStart(p: string)
    requires p != "" && p[0] != '.'
    ensures PlainComponent(p)
  {
    assert "."[0] == '.' && ".."[0] == '.' && ".pskit"[0] == '.';
  }

  /** What the client scans is what the server takes: a path built from a source label, its folder
      and an accepted inner path passes exactly if its components are plain and it is not too long
      or too deep. */
  lemma ScannedPathIsSafe(tag: string, inner: seq<string>)
    requires SourceOf(tag).Some? && |inner| > 0
    requires forall i :: 0 <= i < |inner| ==> '/' !in inner[i]
    requires Accepts(SourceOf(tag).value, Join(inner))
    ensures var path := Join([tag, BaseTail(SourceOf(tag).value)] + inner);
            SafeRel(path).Some? <==>
              && |path| <= MAX_PATH && |inner| + 2 <= MAX_DEPTH && '\0' !in path && '\\' !in path
              && forall i :: 0 <= i < |inner| ==> PlainComponent(inner[i])
  {
    hide Accepts;
    hide Split;
    hide Join;
    var src := SourceOf(tag).value;
    var parts := [tag, BaseTail(src)] + inner;
    var path := Join(parts);
    LabelledPath(tag, src, inner);
    assert parts[2..] == inner;
    if forall i :: 0 <= i < |inner| ==> PlainComponent(inner[i]) {
      forall i | 0 <= i < |parts| ensures PlainComponent(parts[i]) {
        if i >= 2 { assert parts[i] == inner[i - 2]; }
      }
    } else {
      var i :| 0 <= i < |inner| && !PlainComponent(inner[i]);
      assert !PlainComponent(parts[i + 2]);
    }
  }

  lemma LabelledPath(tag: string, src: Source, inner: seq<string>)
    requires SourceOf(tag) == Some(src) && |inner| > 0
    requires forall i :: 0 <= i < |inner| ==> '/' !in inner[i]
    ensures var parts := [tag, BaseTail(src)] + inner;
            var path := Join(parts);
            && Split(path) == parts && path != "" && path[0] != '/'
            && PlainComponent(parts[0]) && PlainComponent(parts[1])
  {
    var parts := [tag, BaseTail(src)] + inner;
    assert tag == "claude" || tag == "codex" || tag == "grok";
    assert BaseTail(src) == "projects" || BaseTail(src) == "sessions";
    SplitJoin(parts);
    assert Join(parts) == tag + "/" + Join(parts[1..]);
    OrdinaryStart(tag);
    OrdinaryStart(BaseTail(src));
  }

  // ---------- exactly the session trees ----------

  lemma {:induction false} SplitHasNoSlash(s: string)
    ensures forall i :: 0 <= i < |Split(s)| ==> '/' !in Split(s)[i]
  {
    if s != "" { SplitHasNoSlash(s[1..]); }
  }

  /** A path below the folder of a known source, of ordinary components, in the server's measures. */
  ghost predicate InSource(path: string, tag: string, inner: seq<string>) {
    && SourceOf(tag).Some? && 0 < |inner| <= MAX_DEPTH - 2
    && path == Join([tag, BaseTail(SourceOf(tag).value)] + inner)
    && (forall i :: 0 <= i < |inner| ==> '/' !in inner[i] && PlainComponent(inner[i]))
    && Accepts(SourceOf(tag).value, Join(inner))
  }

  /** `safe_rel` accepts exactly the paths in the session trees, not too long and without odd characters. */
  lemma SafeRelExactly(path: string)
    ensures SafeRel(path).Some?
            <==> |path| <= MAX_PATH && '\0' !in path && '\\' !in path && exists tag, inner :: InSource(path, tag, inner)
  {
    if SafeRel(path).Some? {
      var parts := Split(path);
      JoinSplit(path);
      SplitHasNoSlash(path);
      hide Accepts;
      hide Join;
      hide Split;
      assert [parts[0], parts[1]] + parts[2..] == parts;
      assert InSource(path, parts[0], parts[2..]);
    } else if tag, inner :| InSource(path, tag, inner) {
      ScannedPathIsSafe(tag, inner);
    }
  }

  /** The same by name: JSON lines below the projects of Claude, roll-outs of Codex, and what is no lock and no
      index below an encoded path of Grok. */
  ghost predicate SessionName(parts: seq<string>)
    requires |parts| >= 3
  {
    var name := parts[|parts| - 1];
    var jsonl := |name| >= 6 && name[|name| - 6..] == ".jsonl";
    || (parts[0] == "claude" && parts[1] == "projects" && jsonl)
    || (parts[0] == "codex" && parts[1] == "sessions" && jsonl && "rollout-" <= name)
    || (parts[0] == "grok" && parts[1] == "sessions" && "%2F" <= parts[2] && !("session_search.sqlite" <= name)
        && !(|name| >= 5 && name[|name| - 5..] == ".lock"))
  }

  lemma AcceptedNames(path: string)
    ensures var parts := Split(path);
            SafeRel(path).Some?
            <==> && |path| <= 1024 && 3 <= |parts| <= 12 && '\0' !in path && '\\' !in path
                 && (forall i :: 0 <= i < |parts| ==>
                       parts[i] != "" && parts[i] != "." && parts[i] != ".." && !(".pskit" <= parts[i]))
                 && SessionName(parts)
  {
    var parts := Split(path);
    assert path == "" ==> |parts| == 1;
    assert path != "" && path[0] == '/' ==> parts[0] == "" && !PlainComponent(parts[0]);
    SplitHasNoSlash(path);
    if |parts| >= 3 { SessionNameIs(parts); }
    hide Split;
    hide Join;
    hide SessionName;
    hide SourceOf;
    hide BaseTail;
    hide Accepts;
  }

  lemma SessionNameIs(parts: seq<string>)
    requires |parts| >= 3 && forall i :: 0 <= i < |parts| ==> '/' !in parts[i]
    ensures SessionName(parts)
            <==> && SourceOf(parts[0]).Some? && parts[1] == BaseTail(SourceOf(parts[0]).value)
                 && Accepts(SourceOf(parts[0]).value, Join(parts[2..]))
  {
    SplitJoin(parts[2..]);
    assert parts[2..][|parts[2..]| - 1] == parts[|parts| - 1] && parts[2..][0] == parts[2];
    assert SessionName(parts) ==> SourceOf(parts[0]).Some?;
    hide Join;
    hide Split;
    hide SourceOf;
    hide SessionName;
    hide BaseTail;
    hide StartsWith;
    hide EndsWith;
    if SourceOf(parts[0]).Some? { NamesOf(SourceOf(parts[0]).value, parts); }
  }

  lemma NamesOf(src: Source, parts: seq<string>)
    requires |parts| >= 3 && SourceOf(parts[0]) == Some(src)
    ensures SessionName(parts)
            <==> var name := parts[|parts| - 1];
                 parts[1] == BaseTail(src)
                 && match src
                    case Claude => EndsWith(name, ".jsonl")
                    case Codex => StartsWith(name, "rollout-") && EndsWith(name, ".jsonl")
                    case Grok =>
                      && StartsWith(parts[2], "%2F") && !EndsWith(name, ".lock")
                      && !StartsWith(name, "session_search.sqlite")
  {
  }
}
