/** When a merchant's order number names one order: `submit` looks for the order and creates it in two statements,
    and the index on (out_trade_no, uid) is a plain one (database/schema.sql). */
module Uniqueness {
  import opened Orders
  import opened Channels
  import opened Interleaving
  import opened RunInvariants
  import opened Memories
  import opened Runs
  import opened Progress

  predicate Creates(e: Entry) {
    e.op.Insert? && e.answer == Flag(true)
  }

  predicate SamePair(a: Draft, b: Draft) {
    a.uid == b.uid && a.outTradeNo == b.outTradeNo
  }

  /** `late` looked for its order only after `i` transactions more than it had committed. */
  predicate FoundAfter(late: Entry, i: nat) {
    late.job.Creating? && i < late.job.foundAt
  }

  /** Of any two committed inserts of one pair, the later one looked for its order after the earlier one committed. */
  ghost predicate NoOverlap(log: seq<Entry>) {
    forall i, j | 0 <= i < j < |log| && Creates(log[i]) && Creates(log[j]) && SamePair(log[i].op.draft, log[j].op.draft)
      :: FoundAfter(log[j], i)
  }

  // ---- what a handler remembers of its search ----

  ghost predicate FoundOk(init: Rows, log: seq<Entry>, job: Job) {
    job.Creating? ==> job.foundAt <= |log| && !HasPair(Replay(init, log[..job.foundAt]), job.uid, job.outTradeNo)
  }

  // ---- orders and the statements that created them ----

  ghost predicate HasDraft(rows: Rows, t: string, draft: Draft) {
    t in rows && rows[t].draft == draft
  }

  lemma StatementKeepsDraft(rows: Rows, op: Op, t: string, draft: Draft)
    requires HasDraft(rows, t, draft) && !op.Delete?
    ensures HasDraft(Apply(rows, op), t, draft)
  {
    ApplyAt(rows, op, t);
  }

  lemma {:induction false} DraftStays(init: Rows, log: seq<Entry>, k: nat, t: string, draft: Draft)
    requires k <= |log| && NoDeletes(log) && HasDraft(Replay(init, log[..k]), t, draft)
    ensures HasDraft(Replay(init, log), t, draft)
  {
    if k == |log| {
      assert log[..k] == log;
    } else {
      var shorter, e := log[..|log| - 1], log[|log| - 1];
      assert shorter[..k] == log[..k] && e in log && forall x | x in shorter :: x in log;
      DraftStays(init, shorter, k, t, draft);
      StatementKeepsDraft(Replay(init, shorter), e.op, t, draft);
    }
  }

  lemma InsertedNow(rows: Rows, e: Entry, t: string)
    requires AnsweredAlone(rows, e) && t !in rows && t in Apply(rows, e.op)
    ensures Creates(e) && e.op.tradeNo == t && HasDraft(Apply(rows, e.op), t, e.op.draft)
  {
    ApplyAt(rows, e.op, t);
  }

  ghost predicate IsCreateOf(init: Rows, log: seq<Entry>, j: nat, t: string) {
    && j < |log| && Creates(log[j]) && log[j].op.tradeNo == t
    && HasDraft(Replay(init, log[..j + 1]), t, log[j].op.draft)
  }

  lemma CreatedEarlier(init: Rows, log: seq<Entry>, n: nat, j: nat, t: string)
    requires n <= |log| && IsCreateOf(init, log[..n], j, t)
    ensures IsCreateOf(init, log, j, t)
  {
    assert log[..n][..j + 1] == log[..j + 1];
  }

  /** An order that was not there at first was created by one of the committed statements. */
  lemma {:induction false} CreatedAt(init: Rows, log: seq<Entry>, t: string) returns (j: nat)
    requires Serial(init, log) && t !in init && t in Replay(init, log)
    ensures IsCreateOf(init, log, j, t)
  {
    var n := |log| - 1;
    if t in Replay(init, log[..n]) {
      SerialStart(init, log, n);
      j := CreatedAt(init, log[..n], t);
      CreatedEarlier(init, log, n, j, t);
    } else {
      j := n;
      assert AnsweredAlone(Replay(init, log[..n]), log[n]);
      InsertedNow(Replay(init, log[..n]), log[n], t);
      assert log[..n + 1] == log;
    }
  }

  lemma CreatedDraft(init: Rows, log: seq<Entry>, j: nat, t: string)
    requires NoDeletes(log) && IsCreateOf(init, log, j, t)
    ensures HasDraft(Replay(init, log), t, log[j].op.draft)
  {
    DraftStays(init, log, j + 1, t, log[j].op.draft);
  }

  lemma CreatedRow(init: Rows, log: seq<Entry>, j: nat)
    requires Serial(init, log) && j < |log| && Creates(log[j])
    ensures log[j].op.tradeNo !in Replay(init, log[..j])
    ensures HasDraft(Replay(init, log[..j + 1]), log[j].op.tradeNo, log[j].op.draft)
  {
    assert AnsweredAlone(Replay(init, log[..j]), log[j]);
    assert log[..j + 1][..j] == log[..j];
  }

  lemma CreatedStays(init: Rows, log: seq<Entry>, i: nat)
    requires Serial(init, log) && NoDeletes(log) && i < |log| && Creates(log[i])
    ensures HasDraft(Replay(init, log), log[i].op.tradeNo, log[i].op.draft)
  {
    CreatedRow(init, log, i);
    DraftStays(init, log, i + 1, log[i].op.tradeNo, log[i].op.draft);
  }

  lemma CreatesDiffer(init: Rows, log: seq<Entry>, i: nat, j: nat)
    requires Serial(init, log) && NoDeletes(log) && i < j < |log| && Creates(log[i]) && Creates(log[j])
    ensures log[i].op.tradeNo != log[j].op.tradeNo
  {
    CreatedRow(init, log, j);
    SerialStart(init, log, j);
    assert forall e | e in log[..j] :: e in log;
    CreatedStays(init, log[..j], i);
  }

  /** Two creates of one pair leave two orders of it. */
  lemma TwoCreates(init: Rows, log: seq<Entry>, i: nat, j: nat)
    requires Serial(init, log) && NoDeletes(log) && i < j < |log|
    requires Creates(log[i]) && Creates(log[j]) && SamePair(log[i].op.draft, log[j].op.draft)
    ensures !AtMostOnePerPair(Replay(init, log))
  {
    CreatesDiffer(init, log, i, j);
    CreatedStays(init, log, i);
    CreatedStays(init, log, j);
    TwoOfPair(Replay(init, log), log[i].op.tradeNo, log[j].op.tradeNo);
  }

  lemma TwoOfPair(rows: Rows, t: string, u: string)
    requires t in rows && u in rows && t != u && SamePair(rows[t].draft, rows[u].draft)
    ensures !AtMostOnePerPair(rows)
  {
    assert IsOrderOf(rows[u], rows[t].draft.uid, rows[t].draft.outTradeNo);
  }

  lemma OrderIsSeen(rows: Rows, t: string, uid: nat, outTradeNo: string)
    ensures t in rows && IsOrderOf(rows[t], uid, outTradeNo) ==> HasPair(rows, uid, outTradeNo)
  {
  }

  /** A search that came late enough would have seen the order. */
  lemma SearchSees(init: Rows, log: seq<Entry>, k: nat, j: nat, t: string, draft: Draft)
    requires NoDeletes(log) && j < |log| && FoundOk(init, log[..j], log[j].job) && log[j].job.Creating?
    requires k <= log[j].job.foundAt && HasDraft(Replay(init, log[..k]), t, draft)
    ensures !(draft.uid == log[j].job.uid && draft.outTradeNo == log[j].job.outTradeNo)
  {
    var found := log[j].job.foundAt;
    assert log[..j][..found] == log[..found] && log[..found][..k] == log[..k];
    assert forall e | e in log[..found] :: e in log;
    DraftStays(init, log[..found], k, t, draft);
    OrderIsSeen(Replay(init, log[..found]), t, log[j].job.uid, log[j].job.outTradeNo);
  }

  /** Creates come from handlers that searched for the pair they create. */
  ghost predicate SearchedFor(init: Rows, log: seq<Entry>) {
    && Serial(init, log) && NoDeletes(log)
    && forall j | 0 <= j < |log| :: FoundOk(init, log[..j], log[j].job)
         && (log[j].op.Insert? ==> log[j].job.Creating? && log[j].op.draft.uid == log[j].job.uid
                                   && log[j].op.draft.outTradeNo == log[j].job.outTradeNo)
  }

  /** An order of the pair that was there first, or was created first, would have been found. */
  lemma LaterIsOther(init: Rows, log: seq<Entry>, k: nat, t: string, draft: Draft, j: nat)
    requires SearchedFor(init, log) && k <= j < |log| && Creates(log[j]) && k <= log[j].job.foundAt
    requires HasDraft(Replay(init, log[..k]), t, draft)
    ensures !SamePair(draft, log[j].op.draft)
  {
    SearchSees(init, log, k, j, t, draft);
  }

  lemma FirstIsThere(init: Rows, log: seq<Entry>, t: string)
    requires NoDeletes(log) && t in init
    ensures HasDraft(Replay(init, log[..0]), t, init[t].draft) && HasDraft(Replay(init, log), t, init[t].draft)
  {
    DraftStays(init, log, 0, t, init[t].draft);
  }

  /** `u` was created; then no other order `t` of its pair was there before, and none was created before. */
  lemma CreatedIsAlone(init: Rows, log: seq<Entry>, t: string, u: string)
    requires SearchedFor(init, log) && NoOverlap(log) && t != u
    requires t in Replay(init, log) && u in Replay(init, log) && u !in init
    ensures !SamePair(Replay(init, log)[t].draft, Replay(init, log)[u].draft)
  {
    var j := CreatedAt(init, log, u);
    CreatedDraft(init, log, j, u);
    if t in init {
      FirstIsThere(init, log, t);
      LaterIsOther(init, log, 0, t, init[t].draft, j);
    } else {
      var i := CreatedAt(init, log, t);
      CreatedDraft(init, log, i, t);
      if SamePair(log[i].op.draft, log[j].op.draft) {
        if i < j {
          assert FoundAfter(log[j], i);
          LaterIsOther(init, log, i + 1, t, log[i].op.draft, j);
        } else {
          assert FoundAfter(log[i], j);
          LaterIsOther(init, log, j + 1, u, log[j].op.draft, i);
        }
      }
    }
  }

  lemma NeverTwo(init: Rows, log: seq<Entry>, t: string, u: string)
    requires SearchedFor(init, log) && NoOverlap(log) && AtMostOnePerPair(init)
    requires t != u && t in Replay(init, log) && u in Replay(init, log)
    ensures !SamePair(Replay(init, log)[t].draft, Replay(init, log)[u].draft)
  {
    if u !in init {
      CreatedIsAlone(init, log, t, u);
    } else if t !in init {
      CreatedIsAlone(init, log, u, t);
    } else {
      FirstIsThere(init, log, t);
      FirstIsThere(init, log, u);
      if SamePair(init[t].draft, init[u].draft) { TwoOfPair(init, t, u); }
    }
  }

  lemma UniqueOnLog(init: Rows, log: seq<Entry>)
    requires SearchedFor(init, log) && AtMostOnePerPair(init)
    ensures AtMostOnePerPair(Replay(init, log)) <==> NoOverlap(log)
  {
    if NoOverlap(log) {
      forall t, u | t in Replay(init, log) && u in Replay(init, log) && t != u
        ensures !SamePair(Replay(init, log)[t].draft, Replay(init, log)[u].draft)
      {
        NeverTwo(init, log, t, u);
      }
    } else {
      var i, j :| 0 <= i < j < |log| && Creates(log[i]) && Creates(log[j])
                  && SamePair(log[i].op.draft, log[j].op.draft) && !FoundAfter(log[j], i);
      TwoCreates(init, log, i, j);
    }
  }

  lemma InsertsSearched(channels: seq<Channel>, e: Entry)
    requires MayIssue(channels, e.job, e.op) && e.op.Insert?
    ensures e.job.Creating? && e.op.draft.uid == e.job.uid && e.op.draft.outTradeNo == e.job.outTradeNo
  {
  }

  lemma RunSearchedFor(init: Sys, steps: seq<Step>)
    requires Initial(init) && NoDeletes(Exec(init, steps).log)
    ensures SearchedFor(init.rows, Exec(init, steps).log)
  {
    Serialisable(init, steps);
    MemoriesHold(init, steps);
    RunFits(init, steps);
    var s := Exec(init, steps);
    var log := s.log;
    forall j | 0 <= j < |log| ensures FoundOk(init.rows, log[..j], log[j].job) {
      assert Remembers(init.rows, s.log[..j], s.log[j].job);
    }
    forall j | 0 <= j < |log| && log[j].op.Insert?
      ensures log[j].job.Creating? && log[j].op.draft.uid == log[j].job.uid
              && log[j].op.draft.outTradeNo == log[j].job.outTradeNo
    {
      assert log[j] in s.log;
      InsertsSearched(s.channels, log[j]);
    }
  }

  /** In every interleaved run without deletions, no state ever has two orders of one pair if and only if no
      committed insert looked for its order before another insert of the pair committed. */
  lemma UniqueExactly(init: Sys, steps: seq<Step>)
    requires Initial(init) && AtMostOnePerPair(init.rows) && NoDeletes(Exec(init, steps).log)
    ensures (forall n | 0 <= n <= |steps| :: AtMostOnePerPair(Exec(init, steps[..n]).rows))
       <==> NoOverlap(Exec(init, steps).log)
  {
    var log := Exec(init, steps).log;
    forall n | 0 <= n <= |steps|
      ensures AtMostOnePerPair(Exec(init, steps[..n]).rows) <==> NoOverlap(Exec(init, steps[..n]).log)
      ensures NoOverlap(log) ==> NoOverlap(Exec(init, steps[..n]).log)
    {
      var part := Exec(init, steps[..n]).log;
      LogOfPrefix(init, steps, n);
      assert forall e | e in part :: e in log;
      RunSearchedFor(init, steps[..n]);
      UniqueOnLog(init.rows, part);
      Serialisable(init, steps[..n]);
      if NoOverlap(log) { PrefixHasNoOverlap(log, |part|); }
    }
    assert steps[..|steps|] == steps;
  }

  lemma PrefixHasNoOverlap(log: seq<Entry>, n: nat)
    requires NoOverlap(log) && n <= |log|
    ensures NoOverlap(log[..n])
  {
    forall i, j | 0 <= i < j < n && Creates(log[..n][i]) && Creates(log[..n][j])
                  && SamePair(log[..n][i].op.draft, log[..n][j].op.draft)
      ensures FoundAfter(log[..n][j], i)
    {
      assert FoundAfter(log[j], i);
    }
  }

  // ---- the run that fails ----

  /** Two handlers look for an order of one pair, and then both create it. */
  function OverlappingSubmits(p: nat, q: nat, uid: nat, outTradeNo: string, first: Op, second: Op): seq<Step>
    requires first.Insert? && second.Insert?
  {
    [FindNothing(p, uid, outTradeNo)] + [FindNothing(q, uid, outTradeNo)]
    + StatementSteps(p, first) + StatementSteps(q, second)
  }

  ghost predicate ReadyToCreate(s: Sys, p: nat, q: nat, first: Op, second: Op) {
    && p != q && ProcOf(s, p) == Proc(Idle, NoTxn) && ProcOf(s, q) == Proc(Idle, NoTxn)
    && s.owner == map[] && s.gaps.None?
    && first.Insert? && second.Insert? && SamePair(first.draft, second.draft) && first.at == s.now && second.at == s.now
    && first.tradeNo != second.tradeNo && first.tradeNo !in s.rows && second.tradeNo !in s.rows
    && !HasPair(s.rows, first.draft.uid, first.draft.outTradeNo)
  }

  lemma BothFindNothing(s: Sys, p: nat, q: nat, first: Op, second: Op)
    requires ReadyToCreate(s, p, q, first, second)
    ensures var found := Exec(s, [FindNothing(p, first.draft.uid, first.draft.outTradeNo)]
                                 + [FindNothing(q, first.draft.uid, first.draft.outTradeNo)]);
            var job := Creating(first.draft.uid, first.draft.outTradeNo, TRIES, |s.log|);
            && found.rows == s.rows && found.log == s.log && found.now == s.now && found.owner == s.owner
            && found.gaps == s.gaps && ProcOf(found, p) == Proc(job, NoTxn) && ProcOf(found, q) == Proc(job, NoTxn)
  {
    var one := FindNothing(p, first.draft.uid, first.draft.outTradeNo);
    ExecOne(s, one);
    ExecSnoc(s, [one], FindNothing(q, first.draft.uid, first.draft.outTradeNo));
  }

  /** Whatever the table holds, this schedule leaves two orders of a pair that had none. */
  lemma InterleavedSubmitsDuplicate(s: Sys, p: nat, q: nat, first: Op, second: Op)
    requires ReadyToCreate(s, p, q, first, second)
    ensures var s' := Exec(s, OverlappingSubmits(p, q, first.draft.uid, first.draft.outTradeNo, first, second));
            first.tradeNo in s'.rows && second.tradeNo in s'.rows && !AtMostOnePerPair(s'.rows)
  {
    var finds := [FindNothing(p, first.draft.uid, first.draft.outTradeNo)]
                 + [FindNothing(q, first.draft.uid, first.draft.outTradeNo)];
    var found := Exec(s, finds);
    BothFindNothing(s, p, q, first, second);
    ExecConcat(s, finds, StatementSteps(p, first));
    ExecConcat(s, finds + StatementSteps(p, first), StatementSteps(q, second));
    StatementRuns(found, p, first);
    var middle := Exec(found, StatementSteps(p, first));
    StatementRuns(middle, q, second);
    var rows := Exec(middle, StatementSteps(q, second)).rows;
    ApplyAt(s.rows, first, first.tradeNo);
    ApplyAt(s.rows, first, second.tradeNo);
    ApplyAt(middle.rows, second, first.tradeNo);
    ApplyAt(middle.rows, second, second.tradeNo);
    assert IsOrderOf(rows[second.tradeNo], rows[first.tradeNo].draft.uid, rows[first.tradeNo].draft.outTradeNo);
  }
}
