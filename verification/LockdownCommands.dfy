/**
 What a root command of the lockdown asks of the system, besides its own files: the commands in their
 order, which of them must work, and the list of ufw commands that `_apply_changes` builds.
 */
module LockdownCommands {
  import opened Common

  datatype Act =
    | WriteRecord | InstallUnits | ReloadUnits | EnableTimer | RestartTimer    // _arm
    | InstallDropin | TestSshd | Ufw(words: seq<string>) | ReloadSshd          // _apply_changes
    | SwitchUfw(on: bool)                                                      // restore_snapshot: reload or disable
    | DisableTimer                                                             // _disarm
    | Rest                                                                     // between two looks of a wait

  datatype Deed = Deed(act: Act, ok: bool)

  /** Whether the program raises when it fails. */
  predicate Must(a: Act) {
    a.WriteRecord? || a.InstallUnits? || a.ReloadUnits? || a.EnableTimer? || a.InstallDropin? || a.TestSshd? || a.Ufw?
  }

  // ---------- the programs ----------

  const ARMING: seq<Act> := [WriteRecord, InstallUnits, ReloadUnits, EnableTimer, RestartTimer]

  function SshActs(active: bool): seq<Act> {
    if active then [ReloadSshd] else []
  }

  function Changing(rules: seq<Rule>, sshd: bool): seq<Act> {
    [InstallDropin, TestSshd] + UfwActs(UfwCommands(rules)) + SshActs(sshd)
  }

  function Undoing(on: bool, sshd: bool): seq<Act> {
    [SwitchUfw(on)] + SshActs(sshd)
  }

  // ---------- the ufw commands ----------

  /** A rule to keep: its words, if it can be split into any, and whether it opens SSH. */
  datatype Rule = Rule(words: Option<seq<string>>, ssh: bool)

  const CLOSING: seq<seq<string>> := [
    ["ufw", "--force", "reset"], ["ufw", "default", "deny", "incoming"], ["ufw", "default", "allow", "outgoing"],
    ["ufw", "allow", "in", "on", "tailscale0"], ["ufw", "allow", "41641/udp"]
  ]
  const ENABLING: seq<string> := ["ufw", "--force", "enable"]

  predicate Keeps(r: Rule) {
    r.words.Some? && |r.words.value| > 0 && r.words.value[0] == "ufw" && !r.ssh
  }

  function KeptOf(rules: seq<Rule>): seq<seq<string>> {
    if |rules| == 0 then []
    else
      var last := rules[|rules| - 1];
      KeptOf(rules[..|rules| - 1]) + if Keeps(last) then [last.words.value] else []
  }

  function UfwCommands(rules: seq<Rule>): seq<seq<string>> {
    CLOSING + KeptOf(rules) + [ENABLING]
  }

  function UfwActs(commands: seq<seq<string>>): seq<Act> {
    seq(|commands|, i requires 0 <= i < |commands| => Ufw(commands[i]))
  }

  /** Everything is closed but the private network before any kept rule comes, ufw is switched on after the
      last of them, and the kept rules are those that are ufw commands and do not open SSH. */
  lemma {:induction false} UfwCommandsAre(rules: seq<Rule>)
    ensures var c := UfwCommands(rules);
            && |c| >= 6 && c[..5] == CLOSING && c[|c| - 1] == ENABLING
            && (forall w :: w in c[5..|c| - 1] <==> exists r :: r in rules && Keeps(r) && r.words == Some(w))
  {
    var c := UfwCommands(rules);
    assert c[5..|c| - 1] == KeptOf(rules);
    forall w ensures w in KeptOf(rules) <==> exists r :: r in rules && Keeps(r) && r.words == Some(w) {
      KeptHas(rules, w);
    }
  }

  lemma {:induction false} KeptHas(rules: seq<Rule>, w: seq<string>)
    ensures w in KeptOf(rules) <==> exists r :: r in rules && Keeps(r) && r.words == Some(w)
  {
    if |rules| > 0 {
      var front, last := rules[..|rules| - 1], rules[|rules| - 1];
      KeptHas(front, w);
      assert rules == front + [last];
      if Keeps(last) && last.words == Some(w) { assert last in rules; }
    }
  }

  // ---------- what was done of a program ----------

  /** `log` is the program carried out to its end, or up to and with the first thing that must work and
      does not. */
  ghost predicate Ran(log: seq<Deed>, program: seq<Act>, ok: bool) {
    && |log| <= |program| && (forall i :: 0 <= i < |log| ==> log[i].act == program[i])
    && (forall i :: 0 <= i < |log| && (ok || i < |log| - 1) ==> log[i].ok || !Must(log[i].act))
    && (if ok then |log| == |program| else |log| > 0 && !log[|log| - 1].ok && Must(log[|log| - 1].act))
  }

  /** From the log `was` to the log `now`. */
  ghost predicate Went(was: seq<Deed>, now: seq<Deed>, program: seq<Act>, ok: bool) {
    was <= now && Ran(now[|was|..], program, ok)
  }

  function Rests(log: seq<Deed>): nat {
    if |log| == 0 then 0 else Rests(log[..|log| - 1]) + if log[|log| - 1].act.Rest? then 1 else 0
  }

  /** No program rests. */
  lemma {:induction false} RestsKept(was: seq<Deed>, now: seq<Deed>, program: seq<Act>)
    requires Went(was, now, program, true) && forall i :: 0 <= i < |program| ==> !program[i].Rest?
    ensures Rests(now) == Rests(was)
    decreases |now| - |was|
  {
    if |now| > |was| {
      var n := |now| - |was| - 1;
      assert now[..|now| - 1][|was|..] == now[|was|..][..n];
      assert now[|was|..][n] == now[|now| - 1] && was <= now[..|now| - 1];
      assert Ran(now[|was|..][..n], program[..n], true);
      RestsKept(was, now[..|now| - 1], program[..n]);
    } else {
      assert now == was;
    }
  }

  lemma WentThen(a: seq<Deed>, b: seq<Deed>, c: seq<Deed>, p: seq<Act>, q: seq<Act>, ok: bool)
    requires Went(a, b, p, true) && Went(b, c, q, ok)
    ensures Went(a, c, p + q, ok)
  {
    var x, y := b[|a|..], c[|b|..];
    assert c[|a|..] == x + y;
  }

  lemma WentFails(a: seq<Deed>, b: seq<Deed>, p: seq<Act>, q: seq<Act>)
    requires Went(a, b, p, false)
    ensures Went(a, b, p + q, false)
  {
  }

  lemma WentNot(a: seq<Deed>)
    ensures Went(a, a, [], true)
  {
  }

  lemma WentOne(a: seq<Deed>, d: Deed)
    requires d.ok || !Must(d.act)
    ensures Went(a, a + [d], [d.act], true)
  {
  }

  lemma FailedOne(a: seq<Deed>, d: Deed)
    requires !d.ok && Must(d.act)
    ensures Went(a, a + [d], [d.act], false)
  {
  }

  /** From place `n` of the log on, these were done, and worked. */
  ghost predicate Worked(log: seq<Deed>, n: nat, acts: seq<Act>) {
    n + |acts| <= |log| && forall i :: 0 <= i < |acts| ==> log[n + i] == Deed(acts[i], true)
  }

  /** A program that succeeds has begun with everything that must work, and all of that worked. */
  lemma SuccessWorked(was: seq<Deed>, now: seq<Deed>, first: seq<Act>, rest: seq<Act>)
    requires Went(was, now, first + rest, true)
    requires forall i :: 0 <= i < |first| ==>
               !(first[i].RestartTimer? || first[i].ReloadSshd? || first[i].SwitchUfw? || first[i].DisableTimer?
                 || first[i].Rest?)
    ensures Worked(now, |was|, first)
  {
    forall i | 0 <= i < |first| ensures now[|was| + i] == Deed(first[i], true) {
      assert now[|was|..][i].act == (first + rest)[i] == first[i];
      assert now[|was|..][i] == now[|was| + i];
    }
  }

  /** The first thing of a program, and then the others. */
  lemma WentFirst(a: seq<Deed>, d: Deed, c: seq<Deed>, p: seq<Act>, ok: bool)
    requires |p| > 0 && p[0] == d.act && (d.ok || !Must(d.act)) && Went(a + [d], c, p[1..], ok)
    ensures Went(a, c, p, ok)
  {
    WentOne(a, d);
    WentThen(a, a + [d], c, [d.act], p[1..], ok);
    assert [d.act] + p[1..] == p;
  }

  lemma FailedFirst(a: seq<Deed>, d: Deed, p: seq<Act>)
    requires |p| > 0 && p[0] == d.act && !d.ok && Must(d.act)
    ensures Went(a, a + [d], p, false)
  {
    FailedOne(a, d);
    WentFails(a, a + [d], [d.act], p[1..]);
    assert [d.act] + p[1..] == p;
  }
}
