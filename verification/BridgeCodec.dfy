/**
 A codec with the properties the protocol relies on exists: digits, four of them to a character, and
 separators between fields. With it there are safe paths whose header line is as long as the limit, and longer.
 */
module BridgeCodec {
  import opened Common
  import opened BridgePaths
  import opened BridgeWire
  import opened BridgePlan
  import opened BridgeHeaders
  import opened BridgeHistory
  import opened BridgeConvergence

  const ONE: byte := 1
  const PLUS: byte := 3
  const MINUS: byte := 4
  const SEP: byte := 5
  const STOP: byte := 7

  const BASE := 64

  function Digit(n: nat): (b: byte)
    requires n < BASE
    ensures b >= 64
  {
    (64 + n) as byte
  }

  function Digits(n: nat): (r: Bytes)
    ensures |r| > 0 && forall i :: 0 <= i < |r| ==> r[i] >= 64
  {
    if n < BASE then [Digit(n)] else Digits(n / BASE) + [Digit(n % BASE)]
  }

  function Number(n: Option<int>): Bytes {
    match n
    case None => []
    case Some(k) => if k >= 0 then [PLUS] + Digits(k) else [MINUS] + Digits(-k)
  }

  function Quad(c: char): (r: Bytes)
    ensures |r| == 4 && forall i :: 0 <= i < |r| ==> r[i] >= 64
  {
    var n := c as int;
    [Digit(n / 262144), Digit(n / 4096 % BASE), Digit(n / BASE % BASE), Digit(n % BASE)]
  }

  function Chars(s: string): (r: Bytes)
    ensures |r| == 4 * |s| && forall i :: 0 <= i < |r| ==> r[i] >= 64
  {
    if |s| == 0 then [] else Quad(s[0]) + Chars(s[1..])
  }

  function Text(s: Option<string>): Bytes {
    match s case None => [] case Some(t) => [PLUS] + Chars(t)
  }

  function Flag(b: bool): Bytes {
    if b then [ONE] else []
  }

  function Enc(h: Head): Bytes {
    Number(h.v) + [SEP] + (Flag(h.end) + [SEP]
                           + (Text(h.path) + [SEP] + (Number(h.offset) + [SEP] + (Number(h.length) + [STOP]))))
  }

  ghost predicate Free(s: Bytes, sep: byte) {
    forall i :: 0 <= i < |s| ==> s[i] != sep && s[i] != NL
  }

  lemma SplitAt(a: Bytes, x: Bytes, b: Bytes, y: Bytes, sep: byte)
    requires Free(a, sep) && Free(b, sep) && a + [sep] + x == b + [sep] + y
    ensures a == b && x == y
  {
    var l, r := a + [sep] + x, b + [sep] + y;
    assert l[|a|] == sep && r[|b|] == sep;
    forall i | 0 <= i < |a| ensures l[i] != sep { assert l[i] == a[i]; }
    forall i | 0 <= i < |b| ensures r[i] != sep { assert r[i] == b[i]; }
    assert |a| == |b|;
    assert a == l[..|a|] && b == r[..|b|];
    assert x == l[|a| + 1..] && y == r[|b| + 1..];
  }

  lemma FieldsFree(h: Head, sep: byte)
    requires sep == SEP || sep == STOP
    ensures Free(Number(h.v), sep) && Free(Flag(h.end), sep) && Free(Text(h.path), sep)
    ensures Free(Number(h.offset), sep) && Free(Number(h.length), sep)
  {
  }

  lemma {:induction false} DigitsSame(m: nat, n: nat)
    requires Digits(m) == Digits(n)
    ensures m == n
  {
    var r := Digits(m);
    assert (m >= BASE <==> |Digits(m)| >= 2) && (n >= BASE <==> |Digits(n)| >= 2);
    if m >= BASE {
      assert r[..|r| - 1] == Digits(m / BASE) && r[..|r| - 1] == Digits(n / BASE);
      DigitsSame(m / BASE, n / BASE);
      assert r[|r| - 1] == Digit(m % BASE) == Digit(n % BASE);
    } else {
      assert r[0] == Digit(m) == Digit(n);
    }
  }

  lemma NumberSame(m: Option<int>, n: Option<int>)
    requires Number(m) == Number(n)
    ensures m == n
  {
    hide Digits;
    if m.Some? && n.Some? {
      assert Number(m)[0] == Number(n)[0];
      assert Digits(if m.value >= 0 then m.value else -m.value) == Number(m)[1..];
      assert Digits(if n.value >= 0 then n.value else -n.value) == Number(n)[1..];
      DigitsSame(if m.value >= 0 then m.value else -m.value, if n.value >= 0 then n.value else -n.value);
    }
  }

  lemma QuadSame(c: char, d: char)
    requires Quad(c) == Quad(d)
    ensures c == d
  {
    var m, n := c as int, d as int;
    assert Quad(c)[0] == Quad(d)[0] && Quad(c)[1] == Quad(d)[1] && Quad(c)[2] == Quad(d)[2] && Quad(c)[3] == Quad(d)[3];
    FourDigits(m);
    FourDigits(n);
  }

  lemma FourDigits(n: nat)
    ensures n == n / 262144 * 262144 + n / 4096 % BASE * 4096 + n / BASE % BASE * BASE + n % BASE
  {
    assert n / 4096 == n / BASE / BASE && n / 262144 == n / 4096 / BASE;
  }

  lemma {:induction false} CharsSame(s: string, t: string)
    requires Chars(s) == Chars(t)
    ensures s == t
  {
    hide Quad;
    if |s| > 0 && |t| > 0 {
      var r := Chars(s);
      assert r[..4] == Quad(s[0]) && r[4..] == Chars(s[1..]);
      assert r[..4] == Quad(t[0]) && r[4..] == Chars(t[1..]);
      QuadSame(s[0], t[0]);
      CharsSame(s[1..], t[1..]);
      assert s == [s[0]] + s[1..] && t == [t[0]] + t[1..];
    }
  }

  lemma TextSame(s: Option<string>, t: Option<string>)
    requires Text(s) == Text(t)
    ensures s == t
  {
    if s.Some? && t.Some? {
      assert Chars(s.value) == Text(s)[1..] && Chars(t.value) == Text(t)[1..];
      CharsSame(s.value, t.value);
    }
  }

  lemma EncSame(g: Head, h: Head)
    requires Enc(g) == Enc(h)
    ensures g == h
  {
    FieldsFree(g, SEP);
    FieldsFree(h, SEP);
    FieldsFree(g, STOP);
    FieldsFree(h, STOP);
    var g3, h3 := Number(g.length) + [STOP], Number(h.length) + [STOP];
    var g2, h2 := Number(g.offset) + [SEP] + g3, Number(h.offset) + [SEP] + h3;
    var g1, h1 := Text(g.path) + [SEP] + g2, Text(h.path) + [SEP] + h2;
    SplitAt(Number(g.v), Flag(g.end) + [SEP] + g1, Number(h.v), Flag(h.end) + [SEP] + h1, SEP);
    SplitAt(Flag(g.end), g1, Flag(h.end), h1, SEP);
    SplitAt(Text(g.path), g2, Text(h.path), h2, SEP);
    SplitAt(Number(g.offset), g3, Number(h.offset), h3, SEP);
    SplitAt(Number(g.length), [], Number(h.length), [], STOP);
    NumberSame(g.v, h.v);
    NumberSame(g.offset, h.offset);
    NumberSame(g.length, h.length);
    TextSame(g.path, h.path);
  }

  /** `r` ends at its first STOP. */
  ghost predicate Stops(r: Bytes) {
    |r| > 0 && r[|r| - 1] == STOP && Free(r[..|r| - 1], STOP)
  }

  lemma StopsMore(a: Bytes, r: Bytes)
    requires Free(a, STOP) && Stops(r)
    ensures Stops(a + [SEP] + r)
  {
    var t := a + [SEP] + r;
    assert t[..|t| - 1] == a + [SEP] + r[..|r| - 1];
  }

  lemma EncStops(h: Head)
    ensures Stops(Enc(h))
  {
    FieldsFree(h, STOP);
    var r4 := Number(h.length) + [STOP];
    assert r4[..|r4| - 1] == Number(h.length);
    var r3 := Number(h.offset) + [SEP] + r4;
    var r2 := Text(h.path) + [SEP] + r3;
    var r1 := Flag(h.end) + [SEP] + r2;
    hide Stops;
    hide Free;
    assert Stops(r4) by { LastStops(Number(h.length)); }
    StopsMore(Number(h.offset), r4);
    StopsMore(Text(h.path), r3);
    StopsMore(Flag(h.end), r2);
    StopsMore(Number(h.v), r1);
  }

  lemma LastStops(a: Bytes)
    requires Free(a, STOP)
    ensures Stops(a + [STOP])
  {
    assert (a + [STOP])[..|a|] == a;
  }

  ghost function Dec(b: Bytes): Option<Head> {
    if exists h :: Enc(h) == b then
      var h :| Enc(h) == b;
      Some(h)
    else None
  }

  lemma CutDoesNotDecode(h: Head, k: nat)
    requires k < |Enc(h)|
    ensures Dec(Enc(h)[..k]) == None
  {
    hide Enc;
    EncStops(h);
    var cut := Enc(h)[..k];
    forall g ensures Enc(g) != cut {
      EncStops(g);
      assert k > 0 ==> cut[k - 1] == Enc(h)[..|Enc(h)| - 1][k - 1];
    }
  }

  lemma Decodes(h: Head)
    ensures Dec(Enc(h)) == Some(h) && OneLine(Enc(h)) && |Enc(h)| > 0
  {
    hide Enc;
    EncStops(h);
    assert Enc(h) == Enc(h)[..|Enc(h)| - 1] + [STOP];
    forall g | Enc(g) == Enc(h) ensures g == h { EncSame(g, h); }
  }

  lemma ShortEnough()
    ensures |Enc(HELLO)| < HELLO_LIMIT && |Enc(END)| < HEADER_LIMIT
  {
  }

  ghost function Witness(): Codec {
    Codec(Enc, b => Dec(b))
  }

  lemma WitnessIsJsonLike()
    ensures JsonLike(Witness())
  {
    var c := Witness();
    ShortEnough();
    hide Enc;
    hide Dec;
    forall h ensures c.dec(c.enc(h)) == Some(h) && OneLine(c.enc(h)) && |c.enc(h)| > 0 {
      Decodes(h);
    }
    forall h, k | 0 <= k < |c.enc(h)| ensures c.dec(c.enc(h)[..k]) == None {
      CutDoesNotDecode(h, k);
    }
  }

  /** So the assumption is not empty. */
  lemma CodecExists()
    ensures exists c :: JsonLike(c)
  {
    WitnessIsJsonLike();
  }

  // ---------- long headers exist ----------

  /** A session file of the client whose name has `n` letters before its ending. */
  function LongPath(n: nat): string {
    Join(["claude", "projects", LongName(n)])
  }

  function LongName(n: nat): string {
    seq(n, _ => 'x') + ".jsonl"
  }

  /** Its parts joined. */
  lemma LongPathJoined(name: string)
    ensures Join(["claude", "projects", name]) == "claude" + "/" + "projects" + "/" + name
  {
    var parts := ["claude", "projects", name];
    assert parts[1..] == ["projects", name] && ["projects", name][1..] == [name];
    assert Join([name]) == name;
    assert Join(["projects", name]) == "projects" + "/" + name;
    assert "claude" + "/" + ("projects" + "/" + name) == "claude" + "/" + "projects" + "/" + name;
  }

  lemma LongNameAccepted(n: nat)
    ensures Accepts(Claude, Join([LongName(n)]))
  {
    var name := LongName(n);
    assert Join([name]) == name;
    SplitPlain(name);
    assert name[|name| - 6..] == ".jsonl";
  }

  lemma LongPathIsSafe(n: nat)
    requires 0 < n <= 1002
    ensures |LongPath(n)| == n + 22 && SafeRel(LongPath(n)) == Some(LongPath(n))
  {
    hide Join;
    hide Split;
    hide SafeRel;
    var name := LongName(n);
    LongPathJoined(name);
    LongNameAccepted(n);
    OrdinaryStart(name);
    hide Accepts;
    assert ["claude", "projects"] + [name] == ["claude", "projects", name];
    ScannedPathIsSafe("claude", [name]);
    SafeRelIsItself(LongPath(n));
  }

  lemma OneDigitMore(n: nat)
    requires n >= BASE
    ensures |Digits(n)| == |Digits(n / BASE)| + 1
  {
  }

  lemma ThreeDigits(n: nat)
    requires 4096 <= n < 262144
    ensures |Digits(n)| == 3
  {
    assert 64 <= n / BASE < 4096 && 1 <= n / BASE / BASE < 64;
    OneDigitMore(n);
    OneDigitMore(n / BASE);
  }

  lemma HeadLength(r: string, n: nat)
    requires 4096 <= n < 262144
    ensures |Witness().enc(Head(None, false, Some(r), Some(0), Some(n)))| == 4 * |r| + 12
  {
    ThreeDigits(n);
    hide Chars;
    assert Digits(0) == [Digit(0)];
    hide Digits;
    assert |Text(Some(r))| == 4 * |r| + 1 && |Number(Some(0))| == 2 && |Number(Some(n))| == 4;
  }

  /** A name of 295 letters and any file of 4096 to 262143 bytes that begins with no newline and ends in one:
      a header of exactly the limit, and the prefix is broken by a run in which nothing is lost. */
  lemma ExactHeaderHappens(data: Bytes, mtime: int, ino: nat, budget: nat)
    requires 4096 <= |data| < 262144 && data[0] != NL && data[|data| - 1] == NL
    ensures var c, r := Witness(), LongPath(295);
            var (w, e) := FirstPush(r, data, mtime, ino, budget);
            var v := Step(c, w, Run(e));
            && JsonLike(c) && SafeRel(r) == Some(r) && HeaderLen(c, Item(r, 0, data)) == HEADER_LIMIT
            && r in v.inbox && !(v.inbox[r] <= data) && UpToDate(e.files[0], v.state)
  {
    hide Step;
    hide SafeRel;
    hide Enc;
    hide LongPath;
    WitnessIsJsonLike();
    LongPathIsSafe(295);
    HeadLength(LongPath(295), |data|);
    ExactHeaderBreaksThePrefix(Witness(), LongPath(295), data, mtime, ino, budget);
  }

  /** And any longer name is that of a file which is never stored, with all that is newer. */
  lemma LongHeaderHappens(n: nat, data: Bytes, mtime: int, ino: nat)
    requires 295 < n <= 1002 && 4096 <= |data| < 262144
    ensures var c, r := Witness(), LongPath(n);
            var f, w := LocalFile(r, |data|, mtime, ino), World(map[r := SourceFile(data, mtime, ino)], map[], map[]);
            JsonLike(c) && ScanOf([f], w.src) && Blocked(c, w, f) && StopsRun(c, w, f)
  {
    hide SafeRel;
    hide Enc;
    hide LongPath;
    WitnessIsJsonLike();
    LongPathIsSafe(n);
    HeadLength(LongPath(n), |data|);
  }
}
