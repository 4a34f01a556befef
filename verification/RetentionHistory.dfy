/** Retention over whole histories of a job: verified and failed runs, with and without the early write. */
module RetentionHistory {
  import opened Domain
  import opened Timestamps
  import opened Retention

  /**
   * A history of runs, one state after each, from an empty table; keep_last alone, removals and row
   * updates working.
   */
  ghost predicate History(states: seq<seq<Record>>, runs: seq<Run>, keep: nat) {
    && |states| == |runs| + 1 && states[0] == []
    && (forall i :: 0 <= i < |runs| ==> runs[i].Possible())
    && (forall i :: 0 <= i < |runs| ==> OneRun(states[i], states[i + 1], runs[i], keep))
  }

  ghost predicate OneRun(before: seq<Record>, after: seq<Record>, run: Run, keep: nat) {
    exists now, removed :: RunOnce(before, after, run, Policy(Some(keep), None), now, NoFaults, removed)
  }

  /** Each run starts in a later second than the one before. */
  ghost predicate LaterSeconds(runs: seq<Run>) {
    && (forall i :: 0 <= i < |runs| ==> FourDigitYear(runs[i].record.startedAt))
    && (forall i, j :: 0 <= i < j < |runs| ==>
                         WholeSecond(runs[i].record.startedAt) < WholeSecond(runs[j].record.startedAt))
  }

  /** How many of the runs j to n - 1 stored their archive name. */
  ghost function NamedAfter(runs: seq<Run>, j: nat, n: nat): (c: nat)
    requires j <= n <= |runs|
    decreases n - j
  {
    if j == n then 0 else NamedAfter(runs, j + 1, n) + (if runs[j].Named() then 1 else 0)
  }

  /** How many rows from j on are archived. */
  ghost function ArchivedAfter(rows: seq<Record>, j: nat): nat
    requires j <= |rows|
    decreases |rows| - j
  {
    if j == |rows| then 0 else ArchivedAfter(rows, j + 1) + (if rows[j].Archived() then 1 else 0)
  }

  function Min(a: int, b: int): int {
    if a < b then a else b
  }

  function Cleared(r: Record): Record {
    r.(archiveName := "")
  }

  /** Of the first n runs, exactly the newest c that stored a name still have it. */
  ghost predicate Kept(rows: seq<Record>, runs: seq<Run>, n: nat, c: int)
    requires n <= |runs|
  {
    && |rows| == n
    && forall j :: 0 <= j < n ==>
                     rows[j] == if NamedAfter(runs, j + 1, n) < c then runs[j].Row() else Cleared(runs[j].record)
  }

  /**
   * The number of slots in use after n runs: a sweep cuts them to keep_last, a run that only stores its
   * name adds one.
   */
  ghost function Slots(runs: seq<Run>, n: nat, keep: nat): nat
    requires n <= |runs|
  {
    if n == 0 then 0
    else
      var c, run := Slots(runs, n - 1, keep), runs[n - 1];
      if run.swept && run.first then Min(c + 1, keep)
      else (if run.swept then Min(c, keep) else c) + (if run.Named() then 1 else 0)
  }

  // ----- counting -----

  lemma {:induction false} NamedAfterMore(runs: seq<Run>, j: nat, n: nat)
    requires j <= n < |runs|
    ensures NamedAfter(runs, j, n + 1) == NamedAfter(runs, j, n) + (if runs[n].Named() then 1 else 0)
    decreases n - j
  {
    if j < n {
      NamedAfterMore(runs, j + 1, n);
    } else {
      assert NamedAfter(runs, n + 1, n + 1) == 0;
    }
  }

  /** Appending a run's row: a stored name takes one more slot. */
  lemma KeptAppend(rows: seq<Record>, runs: seq<Run>, n: nat, c: nat)
    requires n < |runs| && Kept(rows, runs, n, c)
    ensures Kept(rows + [runs[n].Row()], runs, n + 1, c + (if runs[n].Named() then 1 else 0))
  {
    hide NamedAfter;
    var longer := rows + [runs[n].Row()];
    var more := if runs[n].Named() then 1 else 0;
    forall j | 0 <= j < n + 1
      ensures longer[j] == if NamedAfter(runs, j + 1, n + 1) < c + more then runs[j].Row() else Cleared(runs[j].record)
    {
      if j < n {
        NamedAfterMore(runs, j + 1, n);
      } else {
        NothingAfter(runs, n + 1);
      }
    }
  }

  lemma NothingAfter(runs: seq<Run>, n: nat)
    requires n <= |runs|
    ensures NamedAfter(runs, n, n) == 0
  {
  }

  lemma KeptLength(rows: seq<Record>, runs: seq<Run>, n: nat, c: int)
    requires n <= |runs| && Kept(rows, runs, n, c)
    ensures |rows| == n
  {
    hide NamedAfter;
  }

  lemma KeptRow(rows: seq<Record>, runs: seq<Run>, n: nat, c: int, j: nat)
    requires n <= |runs| && Kept(rows, runs, n, c) && j < n
    ensures |rows| == n && (rows[j].Archived() <==> runs[j].Named() && NamedAfter(runs, j + 1, n) < c)
  {
    hide NamedAfter;
  }

  lemma {:induction false} KeptCount(rows: seq<Record>, runs: seq<Run>, n: nat, c: nat, j: nat)
    requires n <= |runs| && Kept(rows, runs, n, c) && j <= n
    ensures ArchivedAfter(rows, j) == Min(NamedAfter(runs, j, n), c)
    decreases n - j
  {
    hide Kept;
    KeptLength(rows, runs, n, c);
    if j < n {
      KeptCount(rows, runs, n, c, j + 1);
      KeptRow(rows, runs, n, c, j);
    }
  }

  lemma {:induction false} NoneBetween(rows: seq<Record>, a: nat, b: nat)
    requires a <= b <= |rows| && forall i :: a <= i < b ==> !rows[i].Archived()
    ensures ArchivedAfter(rows, a) == ArchivedAfter(rows, b)
    decreases b - a
  {
    if a < b {
      NoneBetween(rows, a + 1, b);
    }
  }

  lemma {:induction false} BlankLast(rows: seq<Record>, r: Record, j: nat)
    requires j <= |rows| && !r.Archived()
    ensures ArchivedAfter(rows + [r], j) == ArchivedAfter(rows, j)
    decreases |rows| - j
  {
    if j < |rows| {
      BlankLast(rows, r, j + 1);
    } else {
      assert ArchivedAfter(rows + [r], j + 1) == 0;
    }
  }

  // ----- one sweep -----

  ghost predicate SecondsAscend(rows: seq<Record>) {
    forall i, j :: 0 <= i < j < |rows| ==> WholeSecond(rows[i].startedAt) < WholeSecond(rows[j].startedAt)
  }

  /** In strictly later seconds the listing runs backwards through the table. */
  lemma Backwards(rows: seq<Record>, list: seq<nat>)
    requires IsListing(rows, list) && SecondsAscend(rows)
    ensures forall j, k :: 0 <= j < k < |list| ==> list[k] < list[j]
  {
    hide FormatTime, FourDigitYear, Less, WholeSecond;
    forall j, k | 0 <= j < k < |list|
      ensures list[k] < list[j]
    {
      if list[j] < list[k] {
        SecondsDecide(rows[list[j]].startedAt, rows[list[k]].startedAt);
      }
    }
  }

  /** A row's place in such a listing is the number of archived rows after it. */
  lemma {:induction false} PlaceIsCount(rows: seq<Record>, list: seq<nat>, k: nat)
    requires IsListing(rows, list) && k < |list|
    requires forall i, j :: 0 <= i < j < |list| ==> list[j] < list[i]
    ensures ArchivedAfter(rows, list[k] + 1) == k
  {
    hide KeysDescend, FourDigitYear;
    var from := if k == 0 then |rows| else list[k - 1];
    forall i | list[k] + 1 <= i < from
      ensures !rows[i].Archived()
    {
      if rows[i].Archived() {
        var p :| 0 <= p < |list| && list[p] == i;
      }
    }
    NoneBetween(rows, list[k] + 1, from);
    if k > 0 {
      PlaceIsCount(rows, list, k - 1);
      assert list[k - 1] in list;
    }
  }

  /** keep_last clears every archived row with at least that many archived rows after it, and no other. */
  lemma SweepClears(begun: seq<Record>, mid: seq<Record>, list: seq<nat>, keep: nat, now: int, i: nat)
    requires Swept(begun, mid, list, Policy(Some(keep), None), now, NoFaults) && SecondsAscend(begun) && i < |begun|
    ensures |mid| == |begun|
    ensures mid[i] == if ArchivedAfter(begun, i + 1) < keep then begun[i] else Cleared(begun[i])
  {
    hide FourDigitYear, KeysDescend, SecondsAscend, ArchivedAfter, Settled;
    Backwards(begun, list);
    if i in list {
      var k :| 0 <= k < |list| && list[k] == i;
      PlaceIsCount(begun, list, k);
      ListedSettled(begun, mid, list, keep, now, k);
    } else {
      UnlistedSettled(begun, mid, list, keep, now, i);
    }
  }

  lemma ListedSettled(begun: seq<Record>, mid: seq<Record>, list: seq<nat>, keep: nat, now: int, k: nat)
    requires Swept(begun, mid, list, Policy(Some(keep), None), now, NoFaults) && k < |list|
    ensures |mid| == |begun| && list[k] < |begun|
    ensures mid[list[k]] == if k < keep then begun[list[k]] else Cleared(begun[list[k]])
  {
    hide FourDigitYear, KeysDescend;
  }

  lemma UnlistedSettled(begun: seq<Record>, mid: seq<Record>, list: seq<nat>, keep: nat, now: int, i: nat)
    requires Swept(begun, mid, list, Policy(Some(keep), None), now, NoFaults) && i < |begun| && i !in list
    ensures |mid| == |begun| && mid[i] == begun[i] == Cleared(begun[i])
  {
    hide FourDigitYear, KeysDescend;
    assert list[..|list|] == list;
  }

  lemma SweptKept(begun: seq<Record>, mid: seq<Record>, list: seq<nat>, runs: seq<Run>, n: nat, c: nat, keep: nat,
                  now: int)
    requires n <= |runs| && Kept(begun, runs, n, c) && SecondsAscend(begun)
    requires Swept(begun, mid, list, Policy(Some(keep), None), now, NoFaults)
    ensures Kept(mid, runs, n, Min(c, keep))
  {
    hide Swept, SecondsAscend, ArchivedAfter, NamedAfter;
    SweptLength(begun, mid, list, Policy(Some(keep), None), now, NoFaults);
    forall j | 0 <= j < n
      ensures mid[j] == if NamedAfter(runs, j + 1, n) < Min(c, keep) then runs[j].Row() else Cleared(runs[j].record)
    {
      SweepClears(begun, mid, list, keep, now, j);
      KeptCount(begun, runs, n, c, j + 1);
    }
  }

  // ----- one run -----

  lemma RunKeeps(before: seq<Record>, after: seq<Record>, list: seq<nat>, mid: seq<Record>, runs: seq<Run>, n: nat,
                 c: nat, keep: nat, now: int, removed: set<string>)
    requires n < |runs| && runs[n].Possible() && LaterSeconds(runs) && 1 <= keep && Kept(before, runs, n, c)
    requires RunOver(before, list, mid, after, runs[n], Policy(Some(keep), None), now, NoFaults, removed)
    ensures Kept(after, runs, n + 1,
                 if runs[n].swept && runs[n].first then Min(c + 1, keep)
                 else (if runs[n].swept then Min(c, keep) else c) + (if runs[n].Named() then 1 else 0))
  {
    if !runs[n].swept {
      assert after == before + [runs[n].Row()];
      KeptAppend(before, runs, n, c);
    } else if runs[n].first {
      SeenRunKeeps(before, after, list, mid, runs, n, c, keep, now, removed);
    } else {
      UnseenRunKeeps(before, after, list, mid, runs, n, c, keep, now, removed);
    }
  }

  lemma BegunAscends(before: seq<Record>, runs: seq<Run>, n: nat, c: nat)
    requires n < |runs| && LaterSeconds(runs) && Kept(before, runs, n, c)
    ensures SecondsAscend(before + [runs[n].Begun()])
  {
    hide FourDigitYear, WholeSecond, NamedAfter;
    var begun := before + [runs[n].Begun()];
    assert forall i :: 0 <= i < |begun| ==> begun[i].startedAt == runs[i].record.startedAt;
  }

  /** The write before the sweep worked: the sweep counts the run's own archive. */
  lemma SeenRunKeeps(before: seq<Record>, after: seq<Record>, list: seq<nat>, mid: seq<Record>, runs: seq<Run>, n: nat,
                     c: nat, keep: nat, now: int, removed: set<string>)
    requires n < |runs| && runs[n].Possible() && runs[n].swept && runs[n].first && LaterSeconds(runs) && 1 <= keep
             && Kept(before, runs, n, c)
    requires RunOver(before, list, mid, after, runs[n], Policy(Some(keep), None), now, NoFaults, removed)
    ensures Kept(after, runs, n + 1, Min(c + 1, keep))
  {
    hide Swept, NamedAfter, LaterSeconds, SecondsAscend;
    var begun := before + [runs[n].Begun()];
    assert runs[n].Begun() == runs[n].Row();
    KeptAppend(before, runs, n, c);
    BegunAscends(before, runs, n, c);
    SweptKept(begun, mid, list, runs, n + 1, c + 1, keep, now);
    NothingAfter(runs, n + 1);
    assert mid[n] == runs[n].record;
    assert after == mid;
  }

  /** It failed: the sweep does not see the run's own archive, which the final write then adds. */
  lemma UnseenRunKeeps(before: seq<Record>, after: seq<Record>, list: seq<nat>, mid: seq<Record>, runs: seq<Run>,
                       n: nat, c: nat, keep: nat, now: int, removed: set<string>)
    requires n < |runs| && runs[n].Possible() && runs[n].swept && !runs[n].first && LaterSeconds(runs)
             && Kept(before, runs, n, c)
    requires RunOver(before, list, mid, after, runs[n], Policy(Some(keep), None), now, NoFaults, removed)
    ensures Kept(after, runs, n + 1, Min(c, keep) + (if runs[n].Named() then 1 else 0))
  {
    hide Swept, NamedAfter, LaterSeconds, SecondsAscend, ArchivedAfter;
    var begun := before + [runs[n].Begun()];
    BegunAscends(before, runs, n, c);
    forall j | 0 <= j < n
      ensures mid[j] == if NamedAfter(runs, j + 1, n) < Min(c, keep) then runs[j].Row() else Cleared(runs[j].record)
    {
      SweepClears(begun, mid, list, keep, now, j);
      BlankLast(before, runs[n].Begun(), j + 1);
      KeptCount(before, runs, n, c, j + 1);
    }
    SweepClears(begun, mid, list, keep, now, n);
    assert mid[n] == Cleared(runs[n].record);
    KeptAppend(mid[..n], runs, n, Min(c, keep));
    assert after == mid[..n] + [runs[n].Row()];
  }

  // ----- every history -----

  /** After every prefix of every history, exactly the newest Slots stored names remain. */
  lemma {:induction false} EveryHistory(states: seq<seq<Record>>, runs: seq<Run>, keep: nat, i: nat)
    requires History(states, runs, keep) && LaterSeconds(runs) && 1 <= keep && i <= |runs|
    ensures Kept(states[i], runs, i, Slots(runs, i, keep))
  {
    hide OneRun, LaterSeconds, NamedAfter;
    if i > 0 {
      EveryHistory(states, runs, keep, i - 1);
      assert OneRun(states[i - 1], states[i - 1 + 1], runs[i - 1], keep);
      OneMoreRun(states[i - 1], states[i], runs, i - 1, Slots(runs, i - 1, keep), keep);
    }
  }

  lemma OneMoreRun(before: seq<Record>, after: seq<Record>, runs: seq<Run>, n: nat, c: nat, keep: nat)
    requires n < |runs| && runs[n].Possible() && LaterSeconds(runs) && 1 <= keep && Kept(before, runs, n, c)
    requires OneRun(before, after, runs[n], keep)
    ensures Kept(after, runs, n + 1,
                 if runs[n].swept && runs[n].first then Min(c + 1, keep)
                 else (if runs[n].swept then Min(c, keep) else c) + (if runs[n].Named() then 1 else 0))
  {
    hide RunOver, LaterSeconds, Kept;
    var now, removed :| RunOnce(before, after, runs[n], Policy(Some(keep), None), now, NoFaults, removed);
    var list, mid :| RunOver(before, list, mid, after, runs[n], Policy(Some(keep), None), now, NoFaults, removed);
    RunKeeps(before, after, list, mid, runs, n, c, keep, now, removed);
  }

  /** Slots never fall below what keep_last allows. */
  lemma {:induction false} SlotsEnough(runs: seq<Run>, n: nat, keep: nat)
    requires n <= |runs| && forall i :: 0 <= i < |runs| ==> runs[i].Possible()
    ensures Min(NamedAfter(runs, 0, n), keep) <= Slots(runs, n, keep)
  {
    hide NamedAfter;
    if n > 0 {
      SlotsEnough(runs, n - 1, keep);
      NamedAfterMore(runs, 0, n - 1);
    } else {
      NothingAfter(runs, 0);
    }
  }

  lemma {:induction false} NamedAfterAtMost(runs: seq<Run>, a: nat, j: nat, n: nat)
    requires a <= j <= n <= |runs|
    ensures NamedAfter(runs, j, n) <= NamedAfter(runs, a, n)
    decreases j - a
  {
    if a < j {
      NamedAfterAtMost(runs, a + 1, j, n);
    }
  }

  /** After a run whose sweep saw its own archive, exactly the newest keep_last stored names remain. */
  lemma SweepLeavesNewest(states: seq<seq<Record>>, runs: seq<Run>, keep: nat, i: nat)
    requires History(states, runs, keep) && LaterSeconds(runs) && 1 <= keep && 0 < i <= |runs|
    requires runs[i - 1].swept && runs[i - 1].first
    ensures i < |states| && Kept(states[i], runs, i, keep)
  {
    EveryHistory(states, runs, keep, i);
    SlotsEnough(runs, i, keep);
    hide LaterSeconds;
    forall j | 0 <= j < i
      ensures runs[j].Named() ==>
                (NamedAfter(runs, j + 1, i) < Slots(runs, i, keep) <==> NamedAfter(runs, j + 1, i) < keep)
    {
      NamedAfterAtMost(runs, 0, j, i);
    }
  }

  /** The kept archives are all verified ones if and only if no run among the newest keep_last named ones failed. */
  lemma AllVerifiedIff(states: seq<seq<Record>>, runs: seq<Run>, keep: nat, i: nat)
    requires History(states, runs, keep) && LaterSeconds(runs) && 1 <= keep && 0 < i <= |runs|
    requires runs[i - 1].swept && runs[i - 1].first
    ensures (forall j :: 0 <= j < |states[i]| && states[i][j].Archived() ==> j < i && runs[j].verified) <==>
            (forall j :: 0 <= j < i && runs[j].Named() && NamedAfter(runs, j + 1, i) < keep ==> runs[j].verified)
  {
    SweepLeavesNewest(states, runs, keep, i);
    hide NamedAfter, LaterSeconds, History;
    forall j | 0 <= j < i
      ensures states[i][j].Archived() <==> runs[j].Named() && NamedAfter(runs, j + 1, i) < keep
    {
      KeptRow(states[i], runs, i, keep, j);
    }
  }

  /** A failed run holds a slot: with keep_last 2 the only other verified archive is deleted for it. */
  lemma FailedRunHoldsSlot(states: seq<seq<Record>>, a: Record, b: Record, c: Record)
    requires a.Archived() && b.Archived() && c.Archived()
    requires var good, bad := Run(a, true, true, true, true, true), Run(b, false, false, false, false, true);
             var runs := [good, bad, good.(record := c)];
             History(states, runs, 2) && LaterSeconds(runs)
    ensures states[3] == [Cleared(a), b, c]
  {
    hide LaterSeconds, History;
    var good, bad := Run(a, true, true, true, true, true), Run(b, false, false, false, false, true);
    var runs := [good, bad, good.(record := c)];
    SweepLeavesNewest(states, runs, 2, 3);
    ThreeNamed(runs);
    hide NamedAfter;
    assert states[3][0] == Cleared(a) && states[3][1] == b && states[3][2] == c;
  }

  lemma ThreeNamed(runs: seq<Run>)
    requires |runs| == 3 && runs[1].Named() && runs[2].Named()
    ensures NamedAfter(runs, 3, 3) == 0 && NamedAfter(runs, 2, 3) == 1 && NamedAfter(runs, 1, 3) == 2
  {
    assert NamedAfter(runs, 2, 3) == NamedAfter(runs, 3, 3) + 1;
  }

  // ----- histories of verified runs -----

  ghost predicate AllSwept(runs: seq<Run>) {
    forall i :: 0 <= i < |runs| ==> runs[i].swept && runs[i].Named()
  }

  /**
   * keep_last N leaves min(i, N) after the i-th run, and one more exactly when its early write failed
   * with N or more before it.
   */
  ghost function SteadyTotal(runs: seq<Run>, i: nat, keep: nat): int
    requires i <= |runs|
  {
    if i > 0 && !runs[i - 1].first then Min(i - 1, keep) + 1 else Min(i, keep)
  }

  lemma {:induction false} SteadySlots(runs: seq<Run>, i: nat, keep: nat)
    requires AllSwept(runs) && i <= |runs| && 1 <= keep
    ensures Slots(runs, i, keep) == SteadyTotal(runs, i, keep)
  {
    if i > 0 {
      SteadySlots(runs, i - 1, keep);
    }
  }

  lemma {:induction false} AllNamed(runs: seq<Run>, j: nat, n: nat)
    requires AllSwept(runs) && j <= n <= |runs|
    ensures NamedAfter(runs, j, n) == n - j
    decreases n - j
  {
    if j < n {
      AllNamed(runs, j + 1, n);
    }
  }

  /** Over any sequence of swept runs in later seconds, which archives remain after the i-th and how many. */
  lemma SteadyState(states: seq<seq<Record>>, runs: seq<Run>, keep: nat, i: nat)
    requires History(states, runs, keep) && LaterSeconds(runs) && AllSwept(runs) && 1 <= keep && i <= |runs|
    ensures |states[i]| == i && ArchivedAfter(states[i], 0) == SteadyTotal(runs, i, keep)
    ensures forall j :: 0 <= j < i ==>
              states[i][j] == if j >= i - SteadyTotal(runs, i, keep) then runs[j].record else Cleared(runs[j].record)
  {
    EveryHistory(states, runs, keep, i);
    SteadySlots(runs, i, keep);
    KeptCount(states[i], runs, i, Slots(runs, i, keep), 0);
    hide LaterSeconds, History, ArchivedAfter, NamedAfter, Slots;
    forall j | 0 <= j <= i
      ensures NamedAfter(runs, j, i) == i - j
    {
      AllNamed(runs, j, i);
    }
  }

  /** One archive too many remains if and only if the run's early write failed and keep_last runs came before it. */
  lemma OneTooManyIff(states: seq<seq<Record>>, runs: seq<Run>, keep: nat, i: nat)
    requires History(states, runs, keep) && LaterSeconds(runs) && AllSwept(runs) && 1 <= keep && 0 < i <= |runs|
    ensures ArchivedAfter(states[i], 0) == keep + 1 <==> !runs[i - 1].first && keep < i
    ensures ArchivedAfter(states[i], 0) <= keep <==> runs[i - 1].first || i <= keep
  {
    SteadyState(states, runs, keep, i);
  }
}
