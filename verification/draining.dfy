/** The retry loop drains: every turn uses up attempts, whatever other handlers do in between, and finitely many turns
    leave nothing pending, unless orders without a merchant key fill the turns. */
module Draining {
  import opened Orders
  import opened Interleaving
  import opened OrderStore
  import opened Notification
  import opened Runs
  import opened Progress

  // ---- what statements do to the attempts that an order has left ----

  /** Statements that neither win a payment nor restart notification by hand. */
  predicate IsQuiet(rows: Rows, op: Op) {
    && !(op.MarkPaid? && AnswerTo(rows, op) == Flag(true))
    && !(op.UpdateStatus? && op.status == PAID)
  }

  ghost predicate QuietOps(rows: Rows, ops: seq<Op>) {
    ops == [] || (QuietOps(rows, ops[..|ops| - 1]) && IsQuiet(ApplyAll(rows, ops[..|ops| - 1]), ops[|ops| - 1]))
  }

  /** An attempt was recorded for the order, or the order is gone. */
  predicate Settles(op: Op, t: string) {
    (op.RecordAttempt? || op.Delete?) && op.tradeNo == t
  }

  ghost predicate Settled(ops: seq<Op>, t: string) {
    exists i :: 0 <= i < |ops| && Settles(ops[i], t)
  }

  /** The attempts that a paid order of a merchant with a key has left. */
  function KeyedLeft(keys: set<nat>): Row -> int {
    (row: Row) => if row.draft.uid in keys then AttemptsLeft(row) else 0
  }

  ghost function KeyedPotential(rows: Rows, keys: set<nat>): int {
    Sum(rows, KeyedLeft(keys))
  }

  ghost function Left(rows: Rows, keys: set<nat>, t: string): int {
    Share(At(rows, t), KeyedLeft(keys))
  }

  /** No quiet statement adds attempts to any order; recording one uses one up. */
  lemma QuietKeepsLeft(rows: Rows, op: Op, keys: set<nat>, t: string)
    requires IsQuiet(rows, op)
    ensures 0 <= Left(Apply(rows, op), keys, t) <= Left(rows, keys, t)
    ensures Settles(op, t) && Left(rows, keys, t) > 0 ==> Left(Apply(rows, op), keys, t) < Left(rows, keys, t)
  {
    ApplyAt(rows, op, t);
  }

  lemma LeftIsNatural(rows: Rows, keys: set<nat>, t: string)
    ensures Left(rows, keys, t) >= 0
  {
  }

  lemma SettledLast(ops: seq<Op>, t: string)
    requires ops != [] && Settled(ops, t)
    ensures Settled(ops[..|ops| - 1], t) || Settles(ops[|ops| - 1], t)
  {
    var i :| 0 <= i < |ops| && Settles(ops[i], t);
    assert i < |ops| - 1 ==> Settles(ops[..|ops| - 1][i], t);
  }

  lemma {:induction false} QuietRunKeepsLeft(rows: Rows, ops: seq<Op>, keys: set<nat>, t: string)
    requires QuietOps(rows, ops)
    ensures 0 <= Left(ApplyAll(rows, ops), keys, t) <= Left(rows, keys, t)
    ensures Settled(ops, t) && Left(rows, keys, t) > 0 ==> Left(ApplyAll(rows, ops), keys, t) < Left(rows, keys, t)
  {
    if ops == [] {
      LeftIsNatural(rows, keys, t);
    } else {
      var front, op := ops[..|ops| - 1], ops[|ops| - 1];
      QuietRunKeepsLeft(rows, front, keys, t);
      QuietKeepsLeft(ApplyAll(rows, front), op, keys, t);
      if Settled(ops, t) { SettledLast(ops, t); }
    }
  }

  /** Quiet statements of any handlers, in any order, lower the attempts that are left by at least one for each order
      that has some left and gets settled. */
  lemma QuietRunLowers(rows: Rows, ops: seq<Op>, keys: set<nat>, ts: set<string>)
    requires QuietOps(rows, ops)
    requires forall t | t in ts :: Settled(ops, t) && Left(rows, keys, t) > 0
    ensures 0 <= KeyedPotential(ApplyAll(rows, ops), keys) <= KeyedPotential(rows, keys) - |ts|
  {
    var after, f := ApplyAll(rows, ops), KeyedLeft(keys);
    forall t
      ensures Share(At(after, t), f) <= Share(At(rows, t), f)
      ensures t in ts ==> Share(At(after, t), f) < Share(At(rows, t), f)
    {
      QuietRunKeepsLeft(rows, ops, keys, t);
    }
    SumShrinks(rows, after, f, ts);
    PotentialIsNatural(after, keys);
  }

  lemma {:induction false} PotentialIsNatural(rows: Rows, keys: set<nat>)
    ensures KeyedPotential(rows, keys) >= 0
    ensures forall t :: Left(rows, keys, t) <= KeyedPotential(rows, keys)
    decreases rows.Keys
  {
    forall t | t in rows ensures 0 <= Left(rows, keys, t) <= KeyedPotential(rows, keys) {
      SumWithout(rows, KeyedLeft(keys), t);
      PotentialIsNatural(rows - {t}, keys);
    }
    if rows != map[] { var t :| t in rows; }
  }

  // ---- one turn of the loop as the code runs it ----

  lemma {:induction false} DraftUnlessDeleted(rows: Rows, ops: seq<Op>, t: string)
    requires t in rows && forall op | op in ops :: !(op.Delete? && op.tradeNo == t)
    ensures t in ApplyAll(rows, ops) && ApplyAll(rows, ops)[t].draft == rows[t].draft
  {
    if ops != [] {
      var front, op := ops[..|ops| - 1], ops[|ops| - 1];
      assert op in ops && forall o | o in front :: o in ops;
      DraftUnlessDeleted(rows, front, t);
      ApplyAt(ApplyAll(rows, front), op, t);
    }
  }

  lemma SettledLonger(a: seq<Op>, b: seq<Op>, t: string)
    ensures Settled(a, t) || Settled(b, t) ==> Settled(a + b, t)
  {
    if Settled(a, t) {
      var i :| 0 <= i < |a| && Settles(a[i], t);
      assert Settles((a + b)[i], t);
    }
    if Settled(b, t) {
      var i :| 0 <= i < |b| && Settles(b[i], t);
      assert Settles((a + b)[|a| + i], t);
    }
  }

  lemma SettledOrKeyed(before: Rows, keys: set<nat>, ops: seq<Op>, t: string)
    requires HasKey(before, keys, t)
    ensures Settled(ops, t) || HasKey(ApplyAll(before, ops), keys, t)
  {
    if forall op | op in ops :: !(op.Delete? && op.tradeNo == t) {
      DraftUnlessDeleted(before, ops, t);
    } else {
      var op :| op in ops && op.Delete? && op.tradeNo == t;
      var i :| 0 <= i < |ops| && ops[i] == op;
      assert Settles(ops[i], t);
    }
  }

  lemma RequestSettles(rows: Rows, keys: set<nat>, r: Visit)
    requires HasKey(rows, keys, r.tradeNo)
    ensures Settled(RequestOps(rows, keys, r), r.tradeNo)
  {
    var tail := r.meets.during + [RecordAttempt(r.tradeNo, r.meets.delivered, r.at)];
    assert Settles(tail[|tail| - 1], r.tradeNo);
    SettledLonger(r.meets.ahead, tail, r.tradeNo);
    SettledOrKeyed(rows, keys, r.meets.ahead, r.tradeNo);
  }

  /** The statements of a turn, one after another. */
  function TurnOps(before: Rows, keys: set<nat>, requests: seq<Visit>): (ops: seq<Op>)
    ensures TurnRows(before, keys, requests) == ApplyAll(before, ops)
  {
    if requests == [] then []
    else
      var front := requests[..|requests| - 1];
      var ops := TurnOps(before, keys, front);
      var more := RequestOps(TurnRows(before, keys, front), keys, requests[|requests| - 1]);
      ApplyAllConcat(before, ops, more);
      ops + more
  }

  /** One turn settles every order that it selected and whose merchant has a key, whatever others do meanwhile. */
  lemma {:induction false} TurnSettles(before: Rows, keys: set<nat>, requests: seq<Visit>, i: nat)
    requires i < |requests| && HasKey(before, keys, requests[i].tradeNo)
    ensures Settled(TurnOps(before, keys, requests), requests[i].tradeNo)
  {
    var front, r := requests[..|requests| - 1], requests[|requests| - 1];
    var ops, rows := TurnOps(before, keys, front), TurnRows(before, keys, front);
    SettledLonger(ops, RequestOps(rows, keys, r), requests[i].tradeNo);
    if i < |front| {
      TurnSettles(before, keys, front, i);
    } else {
      SettledOrKeyed(before, keys, ops, r.tradeNo);
      if HasKey(rows, keys, r.tradeNo) { RequestSettles(rows, keys, r); }
    }
  }

  /** A turn of the code lowers the attempts that are left by at least the number of its selected orders that have a
      merchant key, if the statements of others in between are quiet. */
  lemma TickLowers(before: Rows, keys: set<nat>, selected: seq<string>, requests: seq<Visit>, turn: seq<Meets>,
                   now: int, later: int)
    requires AreRequests(requests, selected, turn, now, later) && QuietOps(before, TurnOps(before, keys, requests))
    requires forall t | t in selected :: t in PendingKeys(before, now)
    ensures KeyedPotential(TurnRows(before, keys, requests), keys)
         <= KeyedPotential(before, keys) - |KeyedOf(before, keys, selected)|
  {
    var ops := TurnOps(before, keys, requests);
    forall t | t in KeyedOf(before, keys, selected) ensures Settled(ops, t) && Left(before, keys, t) > 0 {
      var i :| 0 <= i < |selected| && selected[i] == t;
      TurnSettles(before, keys, requests, i);
    }
    QuietRunLowers(before, ops, keys, KeyedOf(before, keys, selected));
  }

  ghost function KeyedOf(rows: Rows, keys: set<nat>, selected: seq<string>): set<string> {
    set t | t in selected && HasKey(rows, keys, t)
  }

  // ---- turns inside the runs of the gateway ----

  /** The statements that committed between two states of a run. */
  function Since(a: Sys, b: Sys): seq<Entry> {
    if |a.log| <= |b.log| then b.log[|a.log|..] else []
  }

  /** The statement did not win a payment or restart notification by hand. */
  predicate IsQuietEntry(e: Entry) {
    !(e.op.MarkPaid? && e.answer == Flag(true)) && !(e.op.UpdateStatus? && e.op.status == PAID)
  }

  ghost predicate QuietLog(log: seq<Entry>) {
    forall e | e in log :: IsQuietEntry(e)
  }

  lemma QuietSnoc(rows: Rows, ops: seq<Op>, e: Entry)
    requires QuietOps(rows, ops) && AnsweredAlone(ApplyAll(rows, ops), e) && IsQuietEntry(e)
    ensures QuietOps(rows, ops + [e.op]) && ApplyAll(rows, ops + [e.op]) == Apply(ApplyAll(rows, ops), e.op)
  {
    assert (ops + [e.op])[..|ops|] == ops;
  }

  lemma {:induction false} QuietLogQuiet(rows: Rows, log: seq<Entry>)
    requires Serial(rows, log) && QuietLog(log)
    ensures QuietOps(rows, OpsOf(log)) && ApplyAll(rows, OpsOf(log)) == Replay(rows, log)
  {
    if log != [] {
      var front, e := log[..|log| - 1], log[|log| - 1];
      SerialStart(rows, log, |log| - 1);
      assert e in log && forall x | x in front :: x in log;
      QuietLogQuiet(rows, front);
      assert AnsweredAlone(Replay(rows, front), e);
      QuietSnoc(rows, OpsOf(front), e);
    }
  }

  /** The clock is past the pause of every order that has attempts left. */
  ghost predicate Rested(rows: Rows, now: int) {
    forall t | t in rows && AttemptsLeft(rows[t]) > 0 && rows[t].notifytime.Some? ::
      rows[t].notifytime.value < now - RETRY_PAUSE
  }

  /** Anything may happen in `gap`; then the retry task reads the pending orders, and anything may happen in `rest`
      while it works on them. */
  datatype Round = Round(gap: seq<Step>, chosen: seq<string>, rest: seq<Step>)

  function RoundSteps(r: Round): seq<Step> {
    r.gap + ([Select(RETRY_TASK, r.chosen)] + r.rest)
  }

  function StepsOf(rounds: seq<Round>): seq<Step> {
    if rounds == [] then [] else StepsOf(rounds[..|rounds| - 1]) + RoundSteps(rounds[|rounds| - 1])
  }

  /** The selection of a full turn; nothing is read if nothing is pending. */
  ghost predicate IsSelection(s: Sys, chosen: seq<string>) {
    && |chosen| == SmallerOf(BATCH, |PendingKeys(s.rows, s.now)|)
    && (chosen != [] ==> Enabled(s, Select(RETRY_TASK, chosen)))
  }

  /** A rested turn in which every selected order whose merchant has a key gets its attempt recorded, among any quiet
      statements of other handlers. */
  ghost predicate GoodRound(s: Sys, keys: set<nat>, r: Round) {
    var a, b := Exec(s, r.gap), Exec(s, RoundSteps(r));
    && Rested(a.rows, a.now) && IsSelection(a, r.chosen) && QuietLog(Since(s, b))
    && forall t | t in KeyedOf(a.rows, keys, r.chosen) :: Settled(OpsOf(Since(a, b)), t)
  }

  ghost predicate GoodRounds(s: Sys, keys: set<nat>, rounds: seq<Round>) {
    rounds == [] || (GoodRounds(s, keys, rounds[..|rounds| - 1])
                     && GoodRound(Exec(s, StepsOf(rounds[..|rounds| - 1])), keys, rounds[|rounds| - 1]))
  }

  /** The states from here on behave like those that a run reaches. */
  ghost predicate Sound(s: Sys) {
    exists init, steps :: IsRunTo(init, steps, s)
  }

  ghost predicate IsRunTo(init: Sys, steps: seq<Step>, s: Sys) {
    Initial(init) && Exec(init, steps) == s
  }

  lemma SoundLater(s: Sys, more: seq<Step>)
    requires Sound(s)
    ensures Sound(Exec(s, more))
  {
    var init, steps :| IsRunTo(init, steps, s);
    ExecConcat(init, steps, more);
    assert IsRunTo(init, steps + more, Exec(s, more));
  }

  ghost predicate LogExtends(a: Sys, b: Sys) {
    |a.log| <= |b.log| && b.log[..|a.log|] == a.log
  }

  lemma SinceOfLogs(a: Sys, b: Sys, c: Sys)
    requires LogExtends(a, b) && LogExtends(b, c)
    ensures Since(a, c) == Since(a, b) + Since(b, c)
  {
    assert c.log == b.log + c.log[|b.log|..];
  }

  lemma RestOfLogs(a: Sys, b: Sys)
    requires LogExtends(a, b)
    ensures b.log == a.log + Since(a, b)
  {
  }

  lemma SinceIsRest(s: Sys, more: seq<Step>)
    ensures Exec(s, more).log == s.log + Since(s, Exec(s, more))
  {
    LogGrows(s, more);
    RestOfLogs(s, Exec(s, more));
  }

  /** What commits between two states of a run is a serial run of statements from the one table to the other. */
  lemma SinceIsSerial(s: Sys, more: seq<Step>)
    requires Sound(s)
    ensures var log := Since(s, Exec(s, more)); Serial(s.rows, log) && Exec(s, more).rows == Replay(s.rows, log)
  {
    var init, steps :| IsRunTo(init, steps, s);
    ExecConcat(init, steps, more);
    Serialisable(init, steps);
    Serialisable(init, steps + more);
    SinceIsRest(s, more);
    SerialRest(init.rows, s.log, Since(s, Exec(s, more)));
  }

  lemma SinceParts(s: Sys, gap: seq<Step>, more: seq<Step>)
    ensures var a, b := Exec(s, gap), Exec(s, gap + more);
            b == Exec(a, more) && Since(s, b) == Since(s, a) + Since(a, b)
  {
    var a := Exec(s, gap);
    ExecConcat(s, gap, more);
    LogGrows(s, gap);
    LogGrows(a, more);
    SinceOfLogs(s, a, Exec(a, more));
  }

  lemma QuietStepsLower(s: Sys, more: seq<Step>, keys: set<nat>, ts: set<string>)
    requires Sound(s) && QuietLog(Since(s, Exec(s, more)))
    requires forall t | t in ts :: Settled(OpsOf(Since(s, Exec(s, more))), t) && Left(s.rows, keys, t) > 0
    ensures 0 <= KeyedPotential(Exec(s, more).rows, keys) <= KeyedPotential(s.rows, keys) - |ts|
  {
    var log := Since(s, Exec(s, more));
    SinceIsSerial(s, more);
    QuietLogQuiet(s.rows, log);
    QuietRunLowers(s.rows, OpsOf(log), keys, ts);
  }

  /** Orders with attempts left whose merchant has no key: the retry task selects them and gives them up. */
  ghost function Keyless(rows: Rows, keys: set<nat>): set<string> {
    set t | t in rows && AttemptsLeft(rows[t]) > 0 && rows[t].draft.uid !in keys
  }

  lemma QuietRunKeepsKeyless(rows: Rows, ops: seq<Op>, keys: set<nat>)
    requires QuietOps(rows, ops)
    ensures Keyless(ApplyAll(rows, ops), keys) <= Keyless(rows, keys)
  {
    var after := ApplyAll(rows, ops);
    forall t | t in Keyless(after, keys) ensures t in Keyless(rows, keys) {
      QuietRunKeepsLeft(rows, ops, {after[t].draft.uid}, t);
    }
  }

  lemma QuietStepsKeepKeyless(s: Sys, more: seq<Step>, keys: set<nat>)
    requires Sound(s) && QuietLog(Since(s, Exec(s, more)))
    ensures Keyless(Exec(s, more).rows, keys) <= Keyless(s.rows, keys)
  {
    var log, after := Since(s, Exec(s, more)), Exec(s, more).rows;
    SinceIsSerial(s, more);
    QuietLogQuiet(s.rows, log);
    assert after == ApplyAll(s.rows, OpsOf(log));
    QuietRunKeepsKeyless(s.rows, OpsOf(log), keys);
  }

  // ---- a turn makes progress unless keyless orders fill it ----

  lemma RestedIsPending(rows: Rows, now: int)
    requires Rested(rows, now)
    ensures forall t :: t in PendingKeys(rows, now) <==> t in rows && AttemptsLeft(rows[t]) > 0
  {
  }

  lemma SubsetEqual(a: set<string>, b: set<string>)
    requires a <= b && |a| >= |b|
    ensures a == b
  {
    if a != b {
      var t :| t in b && t !in a;
      assert a <= b - {t};
      SubsetSize(a, b - {t});
    }
  }

  lemma {:induction false} SizeOfList(ts: seq<string>)
    requires NoRepeats(ts)
    ensures |set t | t in ts| == |ts|
  {
    if ts != [] {
      var front, last := ts[..|ts| - 1], ts[|ts| - 1];
      SizeOfList(front);
      assert (set t | t in ts) == (set t | t in front) + {last};
      assert last !in front;
    }
  }

  lemma ChosenSet(a: Sys, chosen: seq<string>)
    requires IsSelection(a, chosen)
    ensures (set t | t in chosen) <= PendingKeys(a.rows, a.now)
    ensures |set t | t in chosen| == SmallerOf(BATCH, |PendingKeys(a.rows, a.now)|)
  {
    SizeOfList(chosen);
  }

  /** With fewer than twenty keyless orders a turn selects at least one order with a key, if any is pending. */
  lemma SelectsKeyed(a: Sys, keys: set<nat>, chosen: seq<string>, t: string)
    requires Rested(a.rows, a.now) && IsSelection(a, chosen) && |Keyless(a.rows, keys)| < BATCH
    requires Left(a.rows, keys, t) > 0
    ensures KeyedOf(a.rows, keys, chosen) != {}
  {
    var picked, pending := (set u | u in chosen), PendingKeys(a.rows, a.now);
    ChosenSet(a, chosen);
    RestedIsPending(a.rows, a.now);
    assert t in pending && (t in picked ==> t in KeyedOf(a.rows, keys, chosen));
    if KeyedOf(a.rows, keys, chosen) == {} {
      forall u | u in picked ensures u in Keyless(a.rows, keys) {
        assert u !in KeyedOf(a.rows, keys, chosen);
      }
      SubsetSize(picked, Keyless(a.rows, keys));
      SubsetEqual(picked, pending);
    }
  }

  lemma {:induction false} SomethingLeft(rows: Rows, keys: set<nat>) returns (t: string)
    requires KeyedPotential(rows, keys) > 0
    ensures Left(rows, keys, t) > 0
    decreases rows.Keys
  {
    t :| t in rows;
    if Left(rows, keys, t) <= 0 {
      SumWithout(rows, KeyedLeft(keys), t);
      t := SomethingLeft(rows - {t}, keys);
    }
  }

  /** A round lowers the keyed attempts by at least the number of keyed orders it selected, and adds no keyless order. */
  lemma RoundLowers(s: Sys, keys: set<nat>, r: Round)
    requires Sound(s) && GoodRound(s, keys, r)
    ensures var a, b := Exec(s, r.gap), Exec(s, RoundSteps(r));
            && KeyedPotential(a.rows, keys) <= KeyedPotential(s.rows, keys)
            && 0 <= KeyedPotential(b.rows, keys) <= KeyedPotential(a.rows, keys) - |KeyedOf(a.rows, keys, r.chosen)|
            && Keyless(b.rows, keys) <= Keyless(a.rows, keys) <= Keyless(s.rows, keys)
  {
    var work := [Select(RETRY_TASK, r.chosen)] + r.rest;
    var a, b := Exec(s, r.gap), Exec(s, RoundSteps(r));
    SinceParts(s, r.gap, work);
    assert forall e | e in Since(s, a) || e in Since(a, b) :: e in Since(s, b);
    SoundLater(s, r.gap);
    QuietStepsLower(s, r.gap, keys, {});
    QuietStepsKeepKeyless(s, r.gap, keys);
    forall t | t in KeyedOf(a.rows, keys, r.chosen) ensures Left(a.rows, keys, t) > 0 {
      ChosenSet(a, r.chosen);
    }
    QuietStepsLower(a, work, keys, KeyedOf(a.rows, keys, r.chosen));
    QuietStepsKeepKeyless(a, work, keys);
  }

  lemma RoundProgress(s: Sys, keys: set<nat>, r: Round)
    requires Sound(s) && GoodRound(s, keys, r) && |Keyless(s.rows, keys)| < BATCH
    ensures var left := KeyedPotential(Exec(s, RoundSteps(r)).rows, keys);
            left == 0 || left < KeyedPotential(s.rows, keys)
  {
    var a := Exec(s, r.gap);
    RoundLowers(s, keys, r);
    SubsetSize(Keyless(a.rows, keys), Keyless(s.rows, keys));
    if KeyedPotential(a.rows, keys) > 0 {
      var t := SomethingLeft(a.rows, keys);
      SelectsKeyed(a, keys, r.chosen, t);
      assert |KeyedOf(a.rows, keys, r.chosen)| > 0;
    }
  }

  lemma {:induction false} RoundsUseUp(s: Sys, keys: set<nat>, rounds: seq<Round>)
    requires Sound(s) && GoodRounds(s, keys, rounds)
    ensures var end, left := Exec(s, StepsOf(rounds)), KeyedPotential(Exec(s, StepsOf(rounds)).rows, keys);
            && Sound(end) && Keyless(end.rows, keys) <= Keyless(s.rows, keys)
            && 0 <= left <= KeyedPotential(s.rows, keys)
            && (|Keyless(s.rows, keys)| < BATCH ==> left == 0 || left <= KeyedPotential(s.rows, keys) - |rounds|)
  {
    if rounds == [] {
      PotentialIsNatural(s.rows, keys);
    } else {
      var front, r := rounds[..|rounds| - 1], rounds[|rounds| - 1];
      var mid := Exec(s, StepsOf(front));
      RoundsUseUp(s, keys, front);
      ExecConcat(s, StepsOf(front), RoundSteps(r));
      SoundLater(mid, RoundSteps(r));
      RoundLowers(mid, keys, r);
      if |Keyless(s.rows, keys)| < BATCH {
        SubsetSize(Keyless(mid.rows, keys), Keyless(s.rows, keys));
        RoundProgress(mid, keys, r);
      }
    }
  }

  /** In every run, with fewer than twenty keyless orders that have attempts left: after as many rested turns as keyed
      attempts were left, mixed with any quiet statements of others, no order of a merchant with a key is pending. */
  lemma RetryDrains(init: Sys, before: seq<Step>, keys: set<nat>, rounds: seq<Round>)
    requires Initial(init) && GoodRounds(Exec(init, before), keys, rounds)
    requires |Keyless(Exec(init, before).rows, keys)| < 20
    requires |rounds| >= KeyedPotential(Exec(init, before).rows, keys)
    ensures var end := Exec(init, before + StepsOf(rounds));
            && KeyedPotential(end.rows, keys) == 0
            && forall t, now | HasKey(end.rows, keys, t) :: !Pending(end.rows[t], now)
  {
    var s := Exec(init, before);
    assert IsRunTo(init, before, s);
    ExecConcat(init, before, StepsOf(rounds));
    RoundsUseUp(s, keys, rounds);
    var end := Exec(s, StepsOf(rounds));
    PotentialIsNatural(end.rows, keys);
    forall t, now | HasKey(end.rows, keys, t) ensures !Pending(end.rows[t], now) {
      assert Left(end.rows, keys, t) <= 0;
    }
  }

  // ---- starvation ----

  function GiveUps(n: nat): seq<Step> {
    if n == 0 then [] else [GiveUp(RETRY_TASK)] + GiveUps(n - 1)
  }

  /** Nothing but the place of the retry task differs, which is idle again. */
  ghost predicate SameButRetry(s: Sys, s': Sys) {
    && s'.rows == s.rows && s'.log == s.log && s'.now == s.now && s'.channels == s.channels
    && s'.owner == s.owner && s'.gaps == s.gaps && ProcOf(s', RETRY_TASK) == Proc(Idle, NoTxn)
  }

  lemma {:induction false} GivesUpAll(s: Sys, queue: seq<string>)
    requires queue != [] && ProcOf(s, RETRY_TASK) == Proc(Retrying(queue), NoTxn)
    ensures SameButRetry(s, Exec(s, GiveUps(|queue|)))
    decreases |queue|
  {
    var s1 := Fire(s, GiveUp(RETRY_TASK));
    ExecCons(s, GiveUp(RETRY_TASK), GiveUps(|queue| - 1));
    if |queue| > 1 {
      GivesUpAll(s1, queue[1..]);
    } else {
      assert GiveUps(0) == [];
    }
  }

  lemma {:induction false} TakeSome(from: set<string>, n: nat) returns (ts: seq<string>)
    requires |from| >= n
    ensures |ts| == n && NoRepeats(ts) && forall t | t in ts :: t in from
  {
    if n == 0 {
      ts := [];
    } else {
      var t :| t in from;
      var rest := TakeSome(from - {t}, n - 1);
      ts := [t] + rest;
    }
  }

  lemma PicksKeyless(s: Sys, keys: set<nat>) returns (chosen: seq<string>)
    requires ProcOf(s, RETRY_TASK) == Proc(Idle, NoTxn) && Rested(s.rows, s.now) && |Keyless(s.rows, keys)| >= BATCH
    ensures |chosen| == BATCH && IsSelection(s, chosen) && KeyedOf(s.rows, keys, chosen) == {}
  {
    chosen := TakeSome(Keyless(s.rows, keys), BATCH);
    RestedIsPending(s.rows, s.now);
    assert Keyless(s.rows, keys) <= PendingKeys(s.rows, s.now);
    SubsetSize(Keyless(s.rows, keys), PendingKeys(s.rows, s.now));
  }

  lemma GivenUpTurn(s: Sys, chosen: seq<string>)
    requires chosen != [] && Enabled(s, Select(RETRY_TASK, chosen))
    ensures SameButRetry(s, Exec(s, RoundSteps(Round([], chosen, GiveUps(|chosen|)))))
  {
    var steps := [Select(RETRY_TASK, chosen)] + GiveUps(|chosen|);
    assert RoundSteps(Round([], chosen, GiveUps(|chosen|))) == steps;
    ExecCons(s, Select(RETRY_TASK, chosen), GiveUps(|chosen|));
    GivesUpAll(Fire(s, Select(RETRY_TASK, chosen)), chosen);
  }

  lemma EmptyRound(s: Sys, keys: set<nat>, r: Round)
    requires r.gap == [] && Rested(s.rows, s.now) && IsSelection(s, r.chosen) && KeyedOf(s.rows, keys, r.chosen) == {}
    requires Exec(s, RoundSteps(r)).log == s.log
    ensures GoodRound(s, keys, r)
  {
    assert Since(s, Exec(s, RoundSteps(r))) == [];
  }

  /** Twenty keyless orders can fill a turn, which then changes nothing. */
  lemma StarvedRound(s: Sys, keys: set<nat>) returns (r: Round)
    requires ProcOf(s, RETRY_TASK) == Proc(Idle, NoTxn) && Rested(s.rows, s.now) && |Keyless(s.rows, keys)| >= BATCH
    ensures GoodRound(s, keys, r) && SameButRetry(s, Exec(s, RoundSteps(r)))
  {
    var chosen := PicksKeyless(s, keys);
    r := Round([], chosen, GiveUps(BATCH));
    GivenUpTurn(s, chosen);
    EmptyRound(s, keys, r);
  }

  /** And so can any number of turns in a row, for ever. */
  lemma {:induction false} Starves(s: Sys, keys: set<nat>, n: nat) returns (rounds: seq<Round>)
    requires ProcOf(s, RETRY_TASK) == Proc(Idle, NoTxn) && Rested(s.rows, s.now) && |Keyless(s.rows, keys)| >= 20
    ensures |rounds| == n && GoodRounds(s, keys, rounds) && SameButRetry(s, Exec(s, StepsOf(rounds)))
  {
    if n == 0 {
      rounds := [];
    } else {
      var front := Starves(s, keys, n - 1);
      var mid := Exec(s, StepsOf(front));
      var r := StarvedRound(mid, keys);
      rounds := front + [r];
      assert rounds[..n - 1] == front;
      ExecConcat(s, StepsOf(front), RoundSteps(r));
    }
  }

  /** Every attempt was recorded for an order that has a key, which is all that a notification records. */
  ghost predicate KeyedAttempts(log: seq<Entry>, keys: set<nat>) {
    forall e | e in log && e.op.RecordAttempt? && e.seen.Some? :: e.seen.value.draft.uid in keys
  }

  /** The order was refunded, edited by hand, or deleted. */
  predicate IsTakenAway(e: Entry, t: string) {
    (e.op.UpdateStatus? || e.op.Delete? || (e.op.SetRefunded? && e.answer == Flag(true))) && e.op.tradeNo == t
  }

  /** What the retry task goes by is the same. */
  ghost predicate SameForRetry(row: Row, row': Row) {
    row'.draft == row.draft && row'.status == row.status && row'.notify == row.notify
    && row'.notifytime == row.notifytime
  }

  lemma KeylessStatement(rows: Rows, e: Entry, keys: set<nat>, t: string)
    requires AnsweredAlone(rows, e) && !IsTakenAway(e, t)
    requires e.op.RecordAttempt? && e.seen.Some? ==> e.seen.value.draft.uid in keys
    requires t in rows && rows[t].status == PAID && rows[t].draft.uid !in keys
    ensures t in Apply(rows, e.op) && SameForRetry(rows[t], Apply(rows, e.op)[t])
  {
    ApplyAt(rows, e.op, t);
  }

  lemma {:induction false} KeylessStays(rows: Rows, log: seq<Entry>, keys: set<nat>, t: string)
    requires Serial(rows, log) && KeyedAttempts(log, keys) && forall e | e in log :: !IsTakenAway(e, t)
    requires t in rows && rows[t].status == PAID && rows[t].draft.uid !in keys
    ensures t in Replay(rows, log) && SameForRetry(rows[t], Replay(rows, log)[t])
  {
    if log != [] {
      var front, e := log[..|log| - 1], log[|log| - 1];
      assert e in log && forall x | x in front :: x in log;
      SerialStart(rows, log, |log| - 1);
      assert AnsweredAlone(Replay(rows, front), e);
      KeylessStays(rows, front, keys, t);
      KeylessStatement(Replay(rows, front), e, keys, t);
    }
  }

  /** Over whole runs, any number of turns included: while attempts are recorded for orders with a key only, a pending
      order whose merchant has none stays pending, whatever else is run on it, unless it is refunded, edited by hand or
      deleted. */
  lemma KeylessNeverDrains(init: Sys, before: seq<Step>, more: seq<Step>, keys: set<nat>, t: string, now: int, later: int)
    requires Initial(init) && t in Exec(init, before).rows && Pending(Exec(init, before).rows[t], now) && now <= later
    requires Exec(init, before).rows[t].draft.uid !in keys
    requires KeyedAttempts(Since(Exec(init, before), Exec(init, before + more)), keys)
    requires forall e | e in Since(Exec(init, before), Exec(init, before + more)) :: !IsTakenAway(e, t)
    ensures t in Exec(init, before + more).rows && Pending(Exec(init, before + more).rows[t], later)
    ensures SameForRetry(Exec(init, before).rows[t], Exec(init, before + more).rows[t])
  {
    var s := Exec(init, before);
    assert IsRunTo(init, before, s);
    ExecConcat(init, before, more);
    SinceIsSerial(s, more);
    KeylessStays(s.rows, Since(s, Exec(s, more)), keys, t);
  }

  // ---- turns are possible ----

  /** No transaction holds a lock, and the retry task is idle. */
  ghost predicate IsFree(s: Sys) {
    s.owner == map[] && s.gaps.None? && ProcOf(s, RETRY_TASK) == Proc(Idle, NoTxn)
  }

  ghost predicate Serves(s: Sys, end: Sys, queue: seq<string>) {
    && IsFree(end) && |s.log| <= |end.log| && end.log[..|s.log|] == s.log && QuietLog(Since(s, end))
    && forall t | t in queue :: Settled(OpsOf(Since(s, end)), t)
  }

  lemma SettledInLog(log: seq<Entry>, i: nat, t: string)
    requires i < |log| && Settles(log[i].op, t)
    ensures Settled(OpsOf(log), t)
  {
    assert Settles(OpsOf(log)[i], t);
  }

  lemma SettledFront(log: seq<Entry>, e: Entry, t: string)
    ensures Settled(OpsOf(log), t) ==> Settled(OpsOf([e] + log), t)
    ensures Settles(e.op, t) ==> Settled(OpsOf([e] + log), t)
  {
    if Settled(OpsOf(log), t) {
      var i :| 0 <= i < |OpsOf(log)| && Settles(OpsOf(log)[i], t);
      SettledInLog([e] + log, i + 1, t);
    }
    if Settles(e.op, t) { SettledInLog([e] + log, 0, t); }
  }

  lemma ServesOneMore(s: Sys, s1: Sys, end: Sys, queue: seq<string>, e: Entry)
    requires queue != [] && s1.log == s.log + [e] && IsQuietEntry(e) && Settles(e.op, queue[0])
    requires Serves(s1, end, queue[1..])
    ensures Serves(s, end, queue)
  {
    var log := Since(s1, end);
    assert Since(s, end) == [e] + log;
    assert end.log[..|s.log|] == end.log[..|s1.log|][..|s.log|];
    forall t | t in queue ensures Settled(OpsOf(Since(s, end)), t) {
      SettledFront(log, e, t);
      assert t == queue[0] || t in queue[1..];
    }
  }

  lemma {:induction false} ServesQueue(s: Sys, queue: seq<string>) returns (steps: seq<Step>)
    requires queue != [] && ProcOf(s, RETRY_TASK) == Proc(Retrying(queue), NoTxn) && s.owner == map[] && s.gaps.None?
    ensures Serves(s, Exec(s, steps), queue) && Exec(s, steps).now == s.now
    decreases |queue|
  {
    var op := RecordAttempt(queue[0], false, s.now);
    var first := StatementSteps(RETRY_TASK, op);
    StatementRuns(s, RETRY_TASK, op);
    var s1 := Exec(s, first);
    var rest := [];
    if |queue| == 1 {
      assert Serves(s1, s1, []);
    } else {
      rest := ServesQueue(s1, queue[1..]);
    }
    ExecConcat(s, first, rest);
    ServesOneMore(s, s1, Exec(s1, rest), queue, s1.log[|s.log|]);
    steps := first + rest;
  }

  lemma {:induction false} RestsLater(rows: Rows, from: int) returns (now: int)
    ensures now >= from && Rested(rows, now)
    decreases rows.Keys
  {
    if rows == map[] {
      now := from;
    } else {
      var t :| t in rows;
      now := RestsLater(rows - {t}, from);
      if rows[t].notifytime.Some? && rows[t].notifytime.value + RETRY_PAUSE >= now {
        now := rows[t].notifytime.value + RETRY_PAUSE + 1;
      }
      assert forall u | u in rows && u != t :: u in rows - {t} && (rows - {t})[u] == rows[u];
    }
  }

  lemma SelectedRound(s: Sys, keys: set<nat>, now: int, chosen: seq<string>) returns (r: Round)
    requires IsFree(s) && s.now <= now && Rested(s.rows, now) && NoRepeats(chosen)
    requires |chosen| == SmallerOf(BATCH, |PendingKeys(s.rows, now)|)
    requires forall t | t in chosen :: t in PendingKeys(s.rows, now)
    ensures GoodRound(s, keys, r) && IsFree(Exec(s, RoundSteps(r)))
  {
    var a := Exec(s, [Tick(now)]);
    ExecOne(s, Tick(now));
    assert a == s.(now := now) && IsSelection(a, chosen);
    var read := Fire(a, Select(RETRY_TASK, chosen));
    var rest := [];
    if chosen != [] {
      rest := ServesQueue(read, chosen);
    }
    r := Round([Tick(now)], chosen, rest);
    ExecCons(s, Tick(now), [Select(RETRY_TASK, chosen)] + rest);
    ExecCons(a, Select(RETRY_TASK, chosen), rest);
    assert Exec(s, RoundSteps(r)) == Exec(read, rest);
    assert Since(s, Exec(s, RoundSteps(r))) == Since(read, Exec(read, rest)) == Since(a, Exec(s, RoundSteps(r)));
  }

  /** From a state without locks, any number of turns of this kind can follow, so what is said of them is not empty. */
  lemma {:induction false} TurnsExist(s: Sys, keys: set<nat>, n: nat) returns (rounds: seq<Round>)
    requires IsFree(s)
    ensures |rounds| == n && GoodRounds(s, keys, rounds) && IsFree(Exec(s, StepsOf(rounds)))
  {
    if n == 0 {
      rounds := [];
    } else {
      var front := TurnsExist(s, keys, n - 1);
      var mid := Exec(s, StepsOf(front));
      var now := RestsLater(mid.rows, mid.now);
      var pending := PendingKeys(mid.rows, now);
      var chosen := TakeSome(pending, SmallerOf(BATCH, |pending|));
      var r := SelectedRound(mid, keys, now, chosen);
      rounds := front + [r];
      assert rounds[..n - 1] == front;
      ExecConcat(s, StepsOf(front), RoundSteps(r));
    }
  }

  ghost predicate DrainsAlways(s: Sys, keys: set<nat>) {
    forall rounds | GoodRounds(s, keys, rounds) && |rounds| >= KeyedPotential(s.rows, keys) ::
      KeyedPotential(Exec(s, StepsOf(rounds)).rows, keys) == 0
  }

  /** The exact condition: from a rested state of any run, enough turns always drain the orders of merchants with keys
      if and only if fewer than twenty keyless orders have attempts left, or there is nothing to drain. */
  lemma DrainsExactly(init: Sys, before: seq<Step>, keys: set<nat>)
    requires Initial(init)
    requires var s := Exec(init, before); ProcOf(s, RETRY_TASK) == Proc(Idle, NoTxn) && Rested(s.rows, s.now)
    ensures var s := Exec(init, before);
            DrainsAlways(s, keys) <==> (|Keyless(s.rows, keys)| < 20 || KeyedPotential(s.rows, keys) == 0)
  {
    var s := Exec(init, before);
    assert IsRunTo(init, before, s);
    PotentialIsNatural(s.rows, keys);
    if |Keyless(s.rows, keys)| < BATCH || KeyedPotential(s.rows, keys) == 0 {
      forall rounds | GoodRounds(s, keys, rounds) && |rounds| >= KeyedPotential(s.rows, keys)
        ensures KeyedPotential(Exec(s, StepsOf(rounds)).rows, keys) == 0
      {
        RoundsUseUp(s, keys, rounds);
      }
    } else {
      var rounds := Starves(s, keys, KeyedPotential(s.rows, keys));
      assert GoodRounds(s, keys, rounds);
    }
  }
}
