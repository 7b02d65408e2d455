/**
 The cooldown table of pskit/notify.py: when each key was last let through, with stamps older than a
 week forgotten on every write. Times are seconds and cooldowns are hours, both exact.
 */
module Cooldown {

  const WEEK := 604800.0

  type Stamps = map<string, real>

  /** A message that `_cooldown_ok` lets through without looking. */
  predicate Free(key: string, hours: real) {
    key == "" || hours <= 0.0
  }

  predicate Verdict(stamps: Stamps, key: string, hours: real, now: real) {
    Free(key, hours) || key !in stamps || now - stamps[key] >= hours * 3600.0
  }

  function Pruned(stamps: Stamps, now: real): Stamps {
    map k | k in stamps && now - stamps[k] < WEEK :: stamps[k]
  }

  /** The table after a key was let through. */
  function Stamped(stamps: Stamps, key: string, now: real): Stamps {
    Pruned(stamps[key := now], now)
  }

  function Updated(stamps: Stamps, key: string, hours: real, now: real): Stamps {
    if !Free(key, hours) && Verdict(stamps, key, hours, now) then Stamped(stamps, key, now) else stamps
  }

  // ---------- against a table that never forgets ----------

  datatype Call = Call(key: string, hours: real, now: real)

  ghost predicate Forward(calls: seq<Call>) {
    forall i, j :: 0 <= i < j < |calls| ==> calls[i].now <= calls[j].now
  }

  /** The table after the calls, forgetting as the code does. */
  function Table(calls: seq<Call>): Stamps {
    if |calls| == 0 then map[]
    else
      var c := calls[|calls| - 1];
      Updated(Table(calls[..|calls| - 1]), c.key, c.hours, c.now)
  }

  /** The table that keeps every stamp. */
  function Everything(calls: seq<Call>): Stamps {
    if |calls| == 0 then map[]
    else
      var all, c := Everything(calls[..|calls| - 1]), calls[|calls| - 1];
      if !Free(c.key, c.hours) && Verdict(all, c.key, c.hours, c.now) then all[c.key := c.now] else all
  }

  /** The two agree but for stamps a week old. */
  ghost predicate Refines(table: Stamps, all: Stamps, now: real) {
    && (forall k :: k in table ==> k in all && table[k] == all[k])
    && (forall k :: k in all && k !in table ==> now - all[k] >= WEEK)
    && (forall k :: k in all ==> all[k] <= now)
  }

  lemma SameVerdict(table: Stamps, all: Stamps, was: real, c: Call)
    requires Refines(table, all, was) && was <= c.now && c.hours <= 168.0
    ensures Verdict(table, c.key, c.hours, c.now) == Verdict(all, c.key, c.hours, c.now)
    ensures var more := if !Free(c.key, c.hours)
            && Verdict(all, c.key, c.hours, c.now) then all[c.key := c.now] else all;
            Refines(Updated(table, c.key, c.hours, c.now), more, c.now)
  {
  }

  ghost predicate AtMostAWeek(calls: seq<Call>) {
    forall i :: 0 <= i < |calls| ==> calls[i].hours <= 168.0
  }

  lemma {:induction false} TablesAgree(calls: seq<Call>)
    requires Forward(calls) && AtMostAWeek(calls) && |calls| > 0
    ensures Refines(Table(calls), Everything(calls), calls[|calls| - 1].now)
    ensures var front, c := calls[..|calls| - 1], calls[|calls| - 1];
            Verdict(Table(front), c.key, c.hours, c.now) == Verdict(Everything(front), c.key, c.hours, c.now)
  {
    var front, c := calls[..|calls| - 1], calls[|calls| - 1];
    if |front| == 0 {
      SameVerdict(map[], map[], c.now, c);
    } else {
      TablesAgree(front);
      SameVerdict(Table(front), Everything(front), front[|front| - 1].now, c);
    }
  }

  predicate Accepted(calls: seq<Call>, i: nat)
    requires i < |calls|
  {
    Verdict(Table(calls[..i]), calls[i].key, calls[i].hours, calls[i].now)
  }

  /** With cooldowns of at most a week and a clock that does not go back, forgetting old stamps never
      changes an answer. */
  lemma PruningChangesNothing(calls: seq<Call>, i: nat)
    requires Forward(calls) && AtMostAWeek(calls) && i < |calls|
    ensures var c := calls[i];
            Accepted(calls, i) <==> Verdict(Everything(calls[..i]), c.key, c.hours, c.now)
  {
    assert calls[..i + 1][..i] == calls[..i];
    TablesAgree(calls[..i + 1]);
  }

  lemma {:induction false} StampIsLatest(calls: seq<Call>, i: nat)
    requires Forward(calls) && AtMostAWeek(calls) && i < |calls|
    requires !Free(calls[i].key, calls[i].hours) && Accepted(calls, i)
    ensures calls[i].key in Everything(calls) && Everything(calls)[calls[i].key] >= calls[i].now
  {
    var front, c := calls[..|calls| - 1], calls[|calls| - 1];
    PruningChangesNothing(calls, |calls| - 1);
    if i < |calls| - 1 {
      assert front[..i] == calls[..i];
      StampIsLatest(front, i);
    }
  }

  /** Two messages let through under one key are at least the later one's cooldown apart. */
  lemma AcceptedApart(calls: seq<Call>, i: nat, j: nat)
    requires Forward(calls) && AtMostAWeek(calls) && i < j < |calls|
    requires calls[i].key == calls[j].key && !Free(calls[i].key, calls[i].hours) && Accepted(calls, i)
             && Accepted(calls, j)
    ensures calls[j].now - calls[i].now >= calls[j].hours * 3600.0
  {
    if calls[j].hours > 0.0 {
      assert calls[..j][..i] == calls[..i];
      StampIsLatest(calls[..j], i);
      PruningChangesNothing(calls, j);
    }
  }

  /** A longer cooldown is cut short: any other key let through once a week has passed makes the table
      forget, and the same key is let through again. */
  lemma LongCooldownIsForgotten(key: string, other: string, hours: real)
    requires key != "" && other != "" && key != other && hours > 168.0
    ensures var calls := [Call(key, hours, 0.0), Call(other, 1.0, WEEK), Call(key, hours, WEEK)];
            Forward(calls) && Accepted(calls, 0) && Accepted(calls, 2) && WEEK < hours * 3600.0
  {
    var a, b, c := Call(key, hours, 0.0), Call(other, 1.0, WEEK), Call(key, hours, WEEK);
    var calls := [a, b, c];
    assert calls[..0] == [] && calls[..1] == [a] && calls[..2] == [a, b];
    assert [a][..0] == [] && [a, b][..1] == [a];
    assert Table([]) == map[];
    assert Table([a]) == map[key := 0.0];
    assert Table([a, b]) == map[other := WEEK];
  }

  /** Call `i` left a stamp, and nothing since replaced it or made the table forget it. */
  ghost predicate Remembered(calls: seq<Call>, i: int) {
    && 0 <= i < |calls|
    && !Free(calls[i].key, calls[i].hours) && Accepted(calls, i)
    && forall j :: i < j < |calls| && !Free(calls[j].key, calls[j].hours) && Accepted(calls, j) ==>
         calls[j].key != calls[i].key && calls[j].now - calls[i].now < WEEK
  }

  lemma RememberedSnoc(calls: seq<Call>, i: int)
    requires |calls| > 0
    ensures var n := |calls| - 1;
            var c, stamps := calls[n], !Free(calls[n].key, calls[n].hours) && Accepted(calls, n);
            Remembered(calls, i) <==>
            0 <= i <= n
            && if i == n then stamps
               else Remembered(calls[..n], i) && (stamps ==> c.key != calls[i].key && c.now - calls[i].now < WEEK)
  {
    hide Verdict;
    hide Table;
    var n := |calls| - 1;
    var front := calls[..n];
    forall j | 0 <= j < n ensures Accepted(front, j) == Accepted(calls, j) && front[j] == calls[j] {
      assert front[..j] == calls[..j];
    }
  }

  /** Whatever the cooldowns and the clock: the table holds the stamps that are remembered, no others. */
  lemma {:induction false} TableIs(calls: seq<Call>, key: string)
    ensures forall i :: Remembered(calls, i) && calls[i].key == key ==>
              key in Table(calls) && Table(calls)[key] == calls[i].now
    ensures key in Table(calls) ==> exists i :: 0 <= i < |calls| && Remembered(calls, i) && calls[i].key == key
  {
    hide Remembered;
    if |calls| > 0 {
      var n := |calls| - 1;
      var front, c := calls[..n], calls[n];
      TableIs(front, key);
      var stamps := !Free(c.key, c.hours) && Accepted(calls, n);
      assert calls[..n] == front;
      forall i ensures Remembered(calls, i) <==>
                       0 <= i <= n
                       && if i == n then stamps
                          else Remembered(front, i) && (stamps ==> c.key != calls[i].key && c.now - calls[i].now < WEEK)
      {
        RememberedSnoc(calls, i);
      }
      if key in Table(calls) && !(stamps && c.key == key) {
        var i :| 0 <= i < n && Remembered(front, i) && front[i].key == key;
        assert Remembered(calls, i);
      }
    } else {
      forall i ensures !Remembered(calls, i) { NothingRemembered(i); }
    }
  }

  lemma NothingRemembered(i: int)
    ensures !Remembered([], i)
  {
  }

  /** So a message is held back exactly when a remembered stamp of its key is younger than its cooldown. */
  lemma HeldBackExactly(calls: seq<Call>, j: nat)
    requires j < |calls|
    ensures !Accepted(calls, j) <==>
            && calls[j].key != "" && calls[j].hours > 0.0
            && exists i: int :: Remembered(calls[..j], i) && calls[i].key == calls[j].key
                           && calls[j].now - calls[i].now < calls[j].hours * 3600.0
  {
    TableIs(calls[..j], calls[j].key);
    forall i | Remembered(calls[..j], i) ensures calls[..j][i] == calls[i] {
    }
  }
}
