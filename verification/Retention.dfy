/** Local retention: which archive records a policy keeps, sweep by sweep and over whole histories. */
module Retention {
  import opened Domain
  import opened Timestamps

  const DAY := 86_400 * SECOND

  /** A missing limit is not applied. */
  datatype Policy = Policy(keepLast: Option<int>, maxAgeDays: Option<int>) {
    predicate HasLimit() {
      keepLast.Some? || maxAgeDays.Some?
    }
  }

  /** A run row of one job, as far as retention reads it; an empty name means no local archive. */
  datatype Record = Record(startedAt: int, archiveName: string) {
    predicate Archived() {
      archiveName != ""
    }

    predicate Before(cutoff: int) {
      startedAt < cutoff
    }
  }

  /** Which file removals and which row updates fail, by row. */
  datatype Faults = Faults(removeFails: nat -> bool, updateFails: nat -> bool) {
    predicate Hits(row: nat) {
      removeFails(row) || updateFails(row)
    }
  }

  const NoFaults := Faults(_ => false, _ => false)

  /** AddDate by whole days, in a zone with a fixed offset. */
  function Cutoff(policy: Policy, now: int): int {
    if policy.maxAgeDays.Some? then now - policy.maxAgeDays.value * DAY else now
  }

  predicate ShouldDelete(policy: Policy, index: nat, startedAt: int, cutoff: int) {
    var withinKeepLast := policy.keepLast.Some? && index < policy.keepLast.value;
    var withinMaxAge := policy.maxAgeDays.Some? && !(startedAt < cutoff);
    if policy.keepLast.Some? && policy.maxAgeDays.Some? then !withinKeepLast && !withinMaxAge
    else if policy.keepLast.Some? then !withinKeepLast
    else if policy.maxAgeDays.Some? then !withinMaxAge
    else false
  }

  // ----- the listing -----

  ghost predicate Sortable(rows: seq<Record>) {
    forall i :: 0 <= i < |rows| ==> FourDigitYear(rows[i].startedAt)
  }

  function Key(r: Record): string
    requires FourDigitYear(r.startedAt)
  {
    FormatTime(r.startedAt)
  }

  /** Row numbers in range, each at most once. */
  ghost predicate Places(list: seq<nat>, n: nat) {
    && (forall k :: 0 <= k < |list| ==> list[k] < n)
    && (forall j, k :: 0 <= j < k < |list| ==> list[j] != list[k])
  }

  /** Stored timestamps, greatest first. */
  ghost predicate KeysDescend(rows: seq<Record>, list: seq<nat>)
    requires Sortable(rows) && Places(list, |rows|)
  {
    forall j, k :: 0 <= j < k < |list| ==> !Less(Key(rows[list[j]]), Key(rows[list[k]]))
  }

  /** What ListArchived may return: the archived rows, each once, by stored timestamp descending. */
  ghost predicate IsListing(rows: seq<Record>, list: seq<nat>) {
    && Sortable(rows)
    && Places(list, |rows|)
    && (forall i :: 0 <= i < |rows| ==> (i in list <==> rows[i].Archived()))
    && KeysDescend(rows, list)
  }

  /** Newest first in time. */
  ghost predicate Descending(rows: seq<Record>, list: seq<nat>)
    requires Places(list, |rows|)
  {
    forall j, k :: 0 <= j < k < |list| ==> rows[list[k]].startedAt <= rows[list[j]].startedAt
  }

  // ----- what one sweep does -----

  ghost predicate SelectedAt(rows: seq<Record>, list: seq<nat>, policy: Policy, cutoff: int, k: nat)
    requires Places(list, |rows|) && k < |list|
  {
    ShouldDelete(policy, k, rows[list[k]].startedAt, cutoff)
  }

  /** How many of the first n listed records the policy selects for deletion. */
  ghost function Selected(rows: seq<Record>, list: seq<nat>, policy: Policy, cutoff: int, n: nat): nat
    requires Places(list, |rows|) && n <= |list|
  {
    if n == 0 then 0
    else Selected(rows, list, policy, cutoff, n - 1) + (if SelectedAt(rows, list, policy, cutoff, n - 1) then 1 else 0)
  }

  /** The first n listed records are settled: the selected ones lost their name unless a fault hit them. */
  ghost predicate Settled(before: seq<Record>, after: seq<Record>, list: seq<nat>, policy: Policy, cutoff: int,
                          faults: Faults, n: nat)
    requires Places(list, |before|) && n <= |list|
  {
    && |after| == |before|
    && (forall k :: 0 <= k < n ==>
          after[list[k]] == if SelectedAt(before, list, policy, cutoff, k) && !faults.Hits(list[k])
                            then before[list[k]].(archiveName := "") else before[list[k]])
    && (forall i :: 0 <= i < |before| && i !in list[..n] ==> after[i] == before[i])
  }

  ghost predicate Swept(before: seq<Record>, after: seq<Record>, list: seq<nat>, policy: Policy, now: int,
                        faults: Faults)
  {
    IsListing(before, list) && Settled(before, after, list, policy, Cutoff(policy, now), faults, |list|)
  }

  /** The tally of a sweep: every selected record is either counted as deleted or warned about. */
  ghost predicate Accounted(rows: seq<Record>, list: seq<nat>, policy: Policy, now: int, faults: Faults, deleted: nat,
                            warnings: seq<nat>)
  {
    && IsListing(rows, list)
    && deleted + |warnings| == Selected(rows, list, policy, Cutoff(policy, now), |list|)
    && WarnedRows(rows, list, policy, Cutoff(policy, now), faults, warnings, |list|)
  }

  /** The warnings name exactly the selected rows that a fault hit. */
  ghost predicate WarnedRows(rows: seq<Record>, list: seq<nat>, policy: Policy, cutoff: int, faults: Faults,
                             warnings: seq<nat>, n: nat)
    requires Places(list, |rows|) && n <= |list|
  {
    forall r :: r in warnings <==>
      exists k :: 0 <= k < n && list[k] == r && SelectedAt(rows, list, policy, cutoff, k) && faults.Hits(r)
  }

  /** The files that the first n turns of a sweep removed, or found gone. */
  ghost function Removed(rows: seq<Record>, list: seq<nat>, policy: Policy, cutoff: int, faults: Faults, n: nat)
    : set<string>
    requires Places(list, |rows|) && n <= |list|
  {
    set k | 0 <= k < n && SelectedAt(rows, list, policy, cutoff, k) && !faults.removeFails(list[k])
      :: rows[list[k]].archiveName
  }

  /** A sweep over a listing that holds this row exactly when seen, and the files it removed. */
  ghost predicate SweptSeeing(before: seq<Record>, after: seq<Record>, policy: Policy, now: int, faults: Faults,
                              row: nat, seen: bool, removed: set<string>, warned: bool)
  {
    exists list ::
      && Swept(before, after, list, policy, now, faults)
      && (row in list <==> seen)
      && removed == Removed(before, list, policy, Cutoff(policy, now), faults, |list|)
      && (warned <==> SomeHit(before, list, policy, Cutoff(policy, now), faults))
  }

  /** A fault hit some record that the policy selected. */
  ghost predicate SomeHit(rows: seq<Record>, list: seq<nat>, policy: Policy, cutoff: int, faults: Faults)
    requires Places(list, |rows|)
  {
    exists k :: 0 <= k < |list| && SelectedAt(rows, list, policy, cutoff, k) && faults.Hits(list[k])
  }

  lemma WarnedIffHit(rows: seq<Record>, list: seq<nat>, policy: Policy, cutoff: int, faults: Faults, warnings: seq<nat>)
    requires Places(list, |rows|) && WarnedRows(rows, list, policy, cutoff, faults, warnings, |list|)
    ensures warnings != [] <==> SomeHit(rows, list, policy, cutoff, faults)
  {
    hide SelectedAt;
    if warnings != [] {
      assert warnings[0] in warnings;
    }
    if SomeHit(rows, list, policy, cutoff, faults) {
      var k :| 0 <= k < |list| && SelectedAt(rows, list, policy, cutoff, k) && faults.Hits(list[k]);
      assert list[k] in warnings;
    }
  }

  /**
   * The retention stage of a run: its own row is written first, and a failed write is passed over. A
   * sweep then sees the run's own archive if and only if that write succeeded.
   */
  ghost predicate StageOver(before: seq<Record>, after: seq<Record>, run: nat, name: string, first: bool, swept: bool,
                            policy: Policy, now: int, faults: Faults, removed: set<string>, warned: bool)
    requires run < |before|
  {
    var begun := if first then Named(before, run, name) else before;
    if swept then SweptSeeing(begun, after, policy, now, faults, run, first, removed, warned)
    else after == begun && removed == {} && !warned
  }

  lemma NoStage(rows: seq<Record>, run: nat, name: string, policy: Policy, now: int, faults: Faults)
    requires run < |rows|
    ensures StageOver(rows, rows, run, name, false, false, policy, now, faults, {}, false)
  {
  }

  function Named(rows: seq<Record>, run: nat, name: string): seq<Record>
    requires run < |rows|
  {
    rows[run := rows[run].(archiveName := name)]
  }

  class History {
    var rows: seq<Record>

    constructor ()
      ensures rows == []
    {
      rows := [];
    }

    /** The archived rows in the store's order, built by insertion. */
    method ListArchived() returns (list: seq<nat>)
      requires Sortable(rows)
      ensures IsListing(rows, list)
    {
      list := [];
      for i := 0 to |rows|
        invariant Places(list, |rows|) && KeysDescend(rows, list)
        invariant forall r :: r in list <==> 0 <= r < i && rows[r].Archived()
      {
        if rows[i].archiveName != "" {
          list := Insert(list, i);
        }
      }
    }

    method Insert(list: seq<nat>, row: nat) returns (longer: seq<nat>)
      requires Sortable(rows) && Places(list, |rows|) && KeysDescend(rows, list)
      requires row < |rows| && row !in list
      ensures Places(longer, |rows|) && KeysDescend(rows, longer)
      ensures forall r :: r in longer <==> r == row || r in list
    {
      hide FormatTime, Less, FourDigitYear;
      var p := |list|;
      while p > 0 && Less(Key(rows[list[p - 1]]), Key(rows[row]))
        invariant 0 <= p <= |list|
        invariant forall k :: p <= k < |list| ==> Less(Key(rows[list[k]]), Key(rows[row]))
      {
        p := p - 1;
      }
      longer := list[..p] + [row] + list[p..];
      InsertedPlaces(list, row, p, |rows|);
      InsertedDescends(rows, list, row, p);
    }

    /** Update of a run's row, as far as its archive name goes. */
    method SaveName(run: nat, name: string)
      requires run < |rows|
      modifies this
      ensures rows == Named(old(rows), run, name)
    {
      rows := rows[run := rows[run].(archiveName := name)];
    }

    /** Deletes what the policy no longer requires; err is true when the listing failed. */
    method Apply(policy: Policy, now: int, listOk: bool, faults: Faults)
      returns (deleted: nat, warnings: seq<nat>, removed: set<string>, err: bool)
      requires Sortable(rows)
      modifies this
      ensures Sortable(rows)
      ensures err <==> (policy.keepLast.Some? || policy.maxAgeDays.Some?) && !listOk
      ensures err || !policy.HasLimit() ==> deleted == 0 && warnings == [] && removed == {} && rows == old(rows)
      ensures policy.HasLimit() && !err ==>
                exists list ::
                  && Swept(old(rows), rows, list, policy, now, faults)
                  && Accounted(old(rows), list, policy, now, faults, deleted, warnings)
                  && (warnings != [] <==> SomeHit(old(rows), list, policy, Cutoff(policy, now), faults))
                  && removed == Removed(old(rows), list, policy, Cutoff(policy, now), faults, |list|)
    {
      if !policy.HasLimit() {
        return 0, [], {}, false;
      }
      if !listOk {
        return 0, [], {}, true;
      }
      var list := ListArchived();
      deleted, warnings, removed := Sweep(list, policy, Cutoff(policy, now), faults);
      err := false;
      SweptKeepsYears(old(rows), rows, list, policy, now, faults);
      WarnedIffHit(old(rows), list, policy, Cutoff(policy, now), faults, warnings);
      assert Swept(old(rows), rows, list, policy, now, faults);
    }

    method Sweep(list: seq<nat>, policy: Policy, cutoff: int, faults: Faults)
      returns (deleted: nat, warnings: seq<nat>, removed: set<string>)
      requires Places(list, |rows|)
      modifies this
      ensures Settled(old(rows), rows, list, policy, cutoff, faults, |list|)
      ensures deleted + |warnings| == Selected(old(rows), list, policy, cutoff, |list|)
      ensures WarnedRows(old(rows), list, policy, cutoff, faults, warnings, |list|)
      ensures removed == Removed(old(rows), list, policy, cutoff, faults, |list|)
    {
      hide Removed;
      deleted, warnings, removed := 0, [], {};
      RemovedMore(rows, list, policy, cutoff, faults, 0);
      for k := 0 to |list|
        invariant Settled(old(rows), rows, list, policy, cutoff, faults, k)
        invariant deleted + |warnings| == Selected(old(rows), list, policy, cutoff, k)
        invariant WarnedRows(old(rows), list, policy, cutoff, faults, warnings, k)
        invariant removed == Removed(old(rows), list, policy, cutoff, faults, k)
      {
        var row := list[k];
        NotListedBefore(list, k, |rows|);
        ghost var before := rows;
        WarnedMore(old(rows), list, policy, cutoff, faults, warnings, k);
        RemovedMore(old(rows), list, policy, cutoff, faults, k);
        if ShouldDelete(policy, k, rows[row].startedAt, cutoff) {
          if faults.removeFails(row) {
            warnings := warnings + [row];
          } else {
            removed := removed + {rows[row].archiveName};
            if faults.updateFails(row) {
              warnings := warnings + [row];
            } else {
              rows := rows[row := rows[row].(archiveName := "")];
              deleted := deleted + 1;
            }
          }
        }
        SettledMore(old(rows), before, rows, list, policy, cutoff, faults, k);
      }
    }
  }

  // ----- runs over a history -----

  /**
   * What a run's history shows of it: its record (with no name if the archive stage never began),
   * whether the archive was verified, whether the retention stage was reached and swept the history,
   * and whether the write before the sweep and the final write succeeded.
   */
  datatype Run = Run(record: Record, verified: bool, stage: bool, swept: bool, first: bool, last: bool) {
    /** The retention stage follows verification, which follows the archive stage. */
    predicate Possible() {
      (swept ==> stage) && (first ==> stage) && (stage ==> verified) && (verified ==> record.Archived())
    }

    /** Some write stored the archive name. */
    predicate Named() {
      record.Archived() && (first || last)
    }

    /** The row as the sweep finds it. */
    function Begun(): Record {
      if first then record else record.(archiveName := "")
    }

    /** The row at the end, unless a sweep clears it. */
    function Row(): Record {
      if Named() then record else record.(archiveName := "")
    }
  }

  /** One run over its job's history: the begun row, the sweep if there is one, the final write. */
  ghost predicate RunOver(before: seq<Record>, list: seq<nat>, mid: seq<Record>, after: seq<Record>,
                          run: Run, policy: Policy, now: int, faults: Faults, removed: set<string>)
  {
    var begun := before + [run.Begun()];
    && (if run.swept
        then && Swept(begun, mid, list, policy, now, faults)
             && removed == Removed(begun, list, policy, Cutoff(policy, now), faults, |list|)
        else mid == begun && removed == {})
    && |mid| == |begun|
    && after == if run.last then Named(mid, |before|, run.record.archiveName) else mid
  }

  ghost predicate RunOnce(before: seq<Record>, after: seq<Record>, run: Run, policy: Policy, now: int, faults: Faults,
                          removed: set<string>)
  {
    exists list, mid :: RunOver(before, list, mid, after, run, policy, now, faults, removed)
  }

  /** A retention stage over a history that ends with the run's blank row, and the final write, are one run over it. */
  lemma StageIsRun(begun: seq<Record>, mid: seq<Record>, after: seq<Record>, name: string, run: Run, policy: Policy,
                   now: int, faults: Faults, removed: set<string>, warned: bool)
    requires begun != [] && begun[|begun| - 1] == run.record.(archiveName := "") && |mid| == |begun|
    requires StageOver(begun, mid, |begun| - 1, name, run.first, run.swept, policy, now, faults, removed, warned)
    requires run.first ==> name == run.record.archiveName
    requires after == if run.last then Named(mid, |begun| - 1, run.record.archiveName) else mid
    ensures RunOnce(begun[..|begun| - 1], after, run, policy, now, faults, removed)
  {
    hide Settled, KeysDescend, FourDigitYear, Removed;
    var n := |begun| - 1;
    var before := begun[..n];
    var named := if run.first then Named(begun, n, run.record.archiveName) else begun;
    assert named == before + [run.Begun()];
    if run.swept {
      var list :| Swept(named, mid, list, policy, now, faults)
                  && removed == Removed(named, list, policy, Cutoff(policy, now), faults, |list|);
      assert RunOver(before, list, mid, after, run, policy, now, faults, removed);
    } else {
      assert RunOver(before, [], mid, after, run, policy, now, faults, removed);
    }
  }

  // ----- a run's own archive -----

  /** No other row carries this archive name. */
  ghost predicate UniqueName(before: seq<Record>, name: string) {
    forall i :: 0 <= i < |before| ==> before[i].archiveName != name
  }

  /** The sweep selected the row at this place of the listing for deletion. */
  ghost predicate SelectedRow(rows: seq<Record>, list: seq<nat>, policy: Policy, cutoff: int, row: nat)
    requires Places(list, |rows|)
  {
    exists k :: 0 <= k < |list| && list[k] == row && SelectedAt(rows, list, policy, cutoff, k)
  }

  /**
   * A run's own archive is removed from disk by the end of the run if and only if its sweep saw its row,
   * selected it, and the removal worked.
   */
  lemma OwnArchiveRemovedIff(before: seq<Record>, list: seq<nat>, mid: seq<Record>, after: seq<Record>,
                             run: Run, policy: Policy, now: int, faults: Faults, removed: set<string>)
    requires RunOver(before, list, mid, after, run, policy, now, faults, removed)
    requires run.record.Archived() && UniqueName(before, run.record.archiveName)
    ensures run.record.archiveName in removed <==>
            && run.swept && run.first && !faults.removeFails(|before|)
            && SelectedRow(before + [run.Begun()], list, policy, Cutoff(policy, now), |before|)
  {
    hide FourDigitYear, KeysDescend, SelectedAt, Settled;
    var name, n := run.record.archiveName, |before|;
    var begun := before + [run.Begun()];
    if run.swept {
      var cutoff := Cutoff(policy, now);
      assert forall k :: 0 <= k < |list| && begun[list[k]].archiveName == name ==> list[k] == n;
      if name in removed {
        var k :| 0 <= k < |list| && SelectedAt(begun, list, policy, cutoff, k) && !faults.removeFails(list[k])
                 && begun[list[k]].archiveName == name;
      }
    }
  }

  /** The run's own sweep saw its row, selected it and removed the file. */
  ghost predicate LostToSweep(before: seq<Record>, after: seq<Record>, run: Run, policy: Policy, now: int,
                              faults: Faults, removed: set<string>)
  {
    run.swept && run.first && !faults.removeFails(|before|)
    && exists list, mid ::
         && RunOver(before, list, mid, after, run, policy, now, faults, removed)
         && SelectedRow(before + [run.Begun()], list, policy, Cutoff(policy, now), |before|)
  }

  lemma LostIffRemoved(before: seq<Record>, after: seq<Record>, run: Run, policy: Policy, now: int, faults: Faults,
                       removed: set<string>)
    requires RunOnce(before, after, run, policy, now, faults, removed)
    requires run.record.Archived() && UniqueName(before, run.record.archiveName)
    ensures run.record.archiveName in removed <==> LostToSweep(before, after, run, policy, now, faults, removed)
  {
    forall list, mid | RunOver(before, list, mid, after, run, policy, now, faults, removed)
      ensures run.record.archiveName in removed <==>
              && run.swept && run.first && !faults.removeFails(|before|)
              && SelectedRow(before + [run.Begun()], list, policy, Cutoff(policy, now), |before|)
    {
      OwnArchiveRemovedIff(before, list, mid, after, run, policy, now, faults, removed);
    }
  }

  /** The row then names a missing file exactly when the final write, or a failed update in the sweep, left the name. */
  lemma RowNamesMissingFileIff(before: seq<Record>, list: seq<nat>, mid: seq<Record>, after: seq<Record>,
                               run: Run, policy: Policy, now: int, faults: Faults, removed: set<string>)
    requires RunOver(before, list, mid, after, run, policy, now, faults, removed)
    requires run.record.Archived() && UniqueName(before, run.record.archiveName) && run.record.archiveName in removed
    ensures after[|before|].archiveName == run.record.archiveName <==> run.last || faults.updateFails(|before|)
  {
    OwnArchiveRemovedIff(before, list, mid, after, run, policy, now, faults, removed);
    hide FourDigitYear, KeysDescend, SelectedAt;
    var begun := before + [run.Begun()];
    var k :| 0 <= k < |list| && list[k] == |before| && SelectedAt(begun, list, policy, Cutoff(policy, now), k);
  }

  /** A run longer than its age limit deletes its own archive, and the final write names it again. */
  lemma LongRunLosesItsArchive(r: Record, now: int)
    requires r.Archived() && FourDigitYear(r.startedAt) && r.startedAt < now - DAY
    ensures var run, policy := Run(r, true, true, true, true, true), Policy(None, Some(1));
            RunOver([], [0], [r.(archiveName := "")], [r], run, policy, now, NoFaults, {r.archiveName})
  {
    hide FormatTime, FourDigitYear, Less;
    var policy, list: seq<nat> := Policy(None, Some(1)), [0];
    assert [] + [r] == [r];
    assert SelectedAt([r], list, policy, Cutoff(policy, now), 0);
    assert list[..1] == list;
    var gone := Removed([r], list, policy, Cutoff(policy, now), NoFaults, 1);
    assert r.archiveName in gone && forall n :: n in gone ==> n == r.archiveName;
    assert gone == {r.archiveName};
  }

  lemma InsertedPlaces(list: seq<nat>, row: nat, p: nat, n: nat)
    requires Places(list, n) && row < n && row !in list && p <= |list|
    ensures Places(list[..p] + [row] + list[p..], n)
    ensures forall r :: r in list[..p] + [row] + list[p..] <==> r == row || r in list
  {
    assert list == list[..p] + list[p..];
  }

  lemma InsertedDescends(rows: seq<Record>, list: seq<nat>, row: nat, p: nat)
    requires Sortable(rows) && Places(list, |rows|) && KeysDescend(rows, list) && row < |rows| && p <= |list|
    requires Places(list[..p] + [row] + list[p..], |rows|)
    requires forall k :: p <= k < |list| ==> Less(Key(rows[list[k]]), Key(rows[row]))
    requires p > 0 ==> !Less(Key(rows[list[p - 1]]), Key(rows[row]))
    ensures KeysDescend(rows, list[..p] + [row] + list[p..])
  {
    hide FormatTime, Less, FourDigitYear;
    var longer := list[..p] + [row] + list[p..];
    forall j, k | 0 <= j < k < |longer|
      ensures !Less(Key(rows[longer[j]]), Key(rows[longer[k]]))
    {
      if j == p {
        LessAsymmetric(Key(rows[longer[k]]), Key(rows[row]));
      } else if k == p && j < p - 1 {
        if Less(Key(rows[list[j]]), Key(rows[row])) {
          AboveEqual(Key(rows[list[j]]), Key(rows[list[p - 1]]), Key(rows[row]));
        }
      }
    }
  }

  lemma NotListedBefore(list: seq<nat>, k: nat, n: nat)
    requires Places(list, n) && k < |list|
    ensures list[k] !in list[..k]
    ensures forall r :: r in list[..k + 1] <==> r == list[k] || r in list[..k]
  {
    assert list[..k + 1] == list[..k] + [list[k]];
  }

  lemma SettledMore(start: seq<Record>, before: seq<Record>, after: seq<Record>, list: seq<nat>, policy: Policy,
                    cutoff: int, faults: Faults, k: nat)
    requires Places(list, |start|) && k < |list| && Settled(start, before, list, policy, cutoff, faults, k)
    requires after == if SelectedAt(start, list, policy, cutoff, k) && !faults.Hits(list[k])
                      then before[list[k] := before[list[k]].(archiveName := "")] else before
    ensures Settled(start, after, list, policy, cutoff, faults, k + 1)
  {
    hide SelectedAt;
    NotListedBefore(list, k, |start|);
    assert before[list[k]] == start[list[k]];
  }

  lemma WarnedMore(rows: seq<Record>, list: seq<nat>, policy: Policy, cutoff: int, faults: Faults, warnings: seq<nat>,
                   k: nat)
    requires Places(list, |rows|) && k < |list| && WarnedRows(rows, list, policy, cutoff, faults, warnings, k)
    ensures SelectedAt(rows, list, policy, cutoff, k) && faults.Hits(list[k]) ==>
              WarnedRows(rows, list, policy, cutoff, faults, warnings + [list[k]], k + 1)
    ensures !(SelectedAt(rows, list, policy, cutoff, k) && faults.Hits(list[k])) ==>
              WarnedRows(rows, list, policy, cutoff, faults, warnings, k + 1)
  {
    hide SelectedAt;
  }

  lemma RemovedMore(rows: seq<Record>, list: seq<nat>, policy: Policy, cutoff: int, faults: Faults, k: nat)
    requires Places(list, |rows|) && k <= |list|
    ensures Removed(rows, list, policy, cutoff, faults, 0) == {}
    ensures k < |list| ==>
              Removed(rows, list, policy, cutoff, faults, k + 1) ==
              Removed(rows, list, policy, cutoff, faults, k)
              + (if SelectedAt(rows, list, policy, cutoff, k) && !faults.removeFails(list[k])
                 then {rows[list[k]].archiveName} else {})
  {
    hide SelectedAt;
  }

  lemma SweptLength(before: seq<Record>, after: seq<Record>, list: seq<nat>, policy: Policy, now: int, faults: Faults)
    requires Swept(before, after, list, policy, now, faults)
    ensures |after| == |before|
    ensures forall i :: 0 <= i < |before| ==> after[i].startedAt == before[i].startedAt
  {
    hide FourDigitYear, SelectedAt;
    assert list[..|list|] == list;
    forall i | 0 <= i < |before|
      ensures after[i].startedAt == before[i].startedAt
    {
      if i in list {
        var k :| 0 <= k < |list| && list[k] == i;
      }
    }
  }

  lemma SweptKeepsYears(before: seq<Record>, after: seq<Record>, list: seq<nat>, policy: Policy, now: int,
                        faults: Faults)
    requires Swept(before, after, list, policy, now, faults)
    ensures Sortable(after)
  {
    hide FourDigitYear, Settled;
    SweptLength(before, after, list, policy, now, faults);
  }

  // ----- survivors of one sweep -----

  /** F: how many of the first n listed records are not before the cutoff. */
  ghost function Fresh(rows: seq<Record>, list: seq<nat>, cutoff: int, n: nat): (f: nat)
    requires Places(list, |rows|) && n <= |list|
    ensures f <= n
  {
    if n == 0 then 0
    else Fresh(rows, list, cutoff, n - 1) + (if rows[list[n - 1]].Before(cutoff) then 0 else 1)
  }

  lemma {:induction false} FreshIsPrefix(rows: seq<Record>, list: seq<nat>, cutoff: int, n: nat)
    requires Places(list, |rows|) && n <= |list| && Descending(rows, list)
    ensures forall k :: 0 <= k < n ==> (!rows[list[k]].Before(cutoff) <==> k < Fresh(rows, list, cutoff, n))
  {
    if n > 0 {
      FreshIsPrefix(rows, list, cutoff, n - 1);
      assert forall k :: 0 <= k < n ==> rows[list[n - 1]].startedAt <= rows[list[k]].startedAt;
    }
  }

  /** K, F or the larger of the two, depending on the limits that are set. */
  ghost function Prefix(rows: seq<Record>, list: seq<nat>, policy: Policy, cutoff: int): int
    requires Places(list, |rows|)
  {
    var f := Fresh(rows, list, cutoff, |list|);
    match (policy.keepLast, policy.maxAgeDays)
    case (Some(k), Some(_)) => if k < f then f else k
    case (Some(k), None) => k
    case (None, Some(_)) => f
    case (None, None) => |list|
  }

  /** In a history listed newest first, the records kept are exactly a prefix of that length. */
  lemma SurvivorsArePrefix(rows: seq<Record>, list: seq<nat>, policy: Policy, cutoff: int)
    requires Places(list, |rows|) && Descending(rows, list)
    ensures forall k :: 0 <= k < |list| ==>
              (!SelectedAt(rows, list, policy, cutoff, k) <==> k < Prefix(rows, list, policy, cutoff))
  {
    FreshIsPrefix(rows, list, cutoff, |list|);
  }

  /** The number selected is what lies beyond the prefix. */
  lemma {:induction false} SelectedBeyondPrefix(rows: seq<Record>, list: seq<nat>, policy: Policy, cutoff: int, n: nat)
    requires Places(list, |rows|) && Descending(rows, list) && n <= |list|
    ensures var p := Prefix(rows, list, policy, cutoff);
            Selected(rows, list, policy, cutoff, n) == if n <= p then 0 else if p < 0 then n else n - p
  {
    SurvivorsArePrefix(rows, list, policy, cutoff);
    hide Prefix, SelectedAt;
    if n > 0 {
      SelectedBeyondPrefix(rows, list, policy, cutoff, n - 1);
    }
  }

  /** max_age_days d alone selects exactly the records that started more than d days of 86400 seconds before now. */
  lemma SelectedByAge(rows: seq<Record>, list: seq<nat>, d: int, now: int, k: nat)
    requires Places(list, |rows|) && k < |list|
    ensures SelectedAt(rows, list, Policy(None, Some(d)), Cutoff(Policy(None, Some(d)), now), k) <==>
            rows[list[k]].startedAt < now - d * 86_400_000_000_000
  {
  }

  /** keep_last n alone selects exactly the places from n on, and both limits together only what both select. */
  lemma SelectedByBoth(rows: seq<Record>, list: seq<nat>, n: int, d: int, now: int, k: nat)
    requires Places(list, |rows|) && k < |list|
    ensures SelectedAt(rows, list, Policy(Some(n), None), Cutoff(Policy(Some(n), None), now), k) <==> n <= k
    ensures SelectedAt(rows, list, Policy(Some(n), Some(d)), Cutoff(Policy(Some(n), Some(d)), now), k) <==>
            n <= k && rows[list[k]].startedAt < now - d * 86_400_000_000_000
    ensures !SelectedAt(rows, list, Policy(None, None), Cutoff(Policy(None, None), now), k)
  {
  }

  /** The cutoff is the same time of day, d calendar days earlier. */
  lemma CutoffIsDaysEarlier(policy: Policy, now: int)
    requires policy.maxAgeDays.Some?
    ensures var day := 86_400_000_000_000;
            && Cutoff(policy, now) % day == now % day
            && Cutoff(policy, now) / day == now / day - policy.maxAgeDays.value
  {
    var d := policy.maxAgeDays.value;
    assert now - d * DAY == (now / DAY - d) * DAY + now % DAY;
  }

  /** Being listed newest first is exactly what makes every age limit keep a prefix. */
  lemma PrefixIffDescending(rows: seq<Record>, list: seq<nat>, days: int)
    requires Places(list, |rows|)
    ensures Descending(rows, list) <==>
            forall cutoff :: KeepsPrefix(rows, list, Policy(None, Some(days)), cutoff)
  {
    var policy := Policy(None, Some(days));
    if Descending(rows, list) {
      forall cutoff
        ensures KeepsPrefix(rows, list, policy, cutoff)
      {
        SurvivorsArePrefix(rows, list, policy, cutoff);
      }
    } else {
      var j, k :| 0 <= j < k < |list| && rows[list[j]].startedAt < rows[list[k]].startedAt;
      var cutoff := rows[list[k]].startedAt;
      assert SelectedAt(rows, list, policy, cutoff, j) && !SelectedAt(rows, list, policy, cutoff, k);
      assert !KeepsPrefix(rows, list, policy, cutoff);
    }
  }

  ghost predicate KeepsPrefix(rows: seq<Record>, list: seq<nat>, policy: Policy, cutoff: int)
    requires Places(list, |rows|)
  {
    forall j, k :: 0 <= j < k < |list| && SelectedAt(rows, list, policy, cutoff, j) ==>
                     SelectedAt(rows, list, policy, cutoff, k)
  }

  /** No two archived rows whose stored timestamps sort backwards. */
  ghost predicate NoneBackwards(rows: seq<Record>) {
    forall i, j :: 0 <= i < |rows| && 0 <= j < |rows| && rows[i].Archived() && rows[j].Archived() ==>
      !SortsBackwards(rows[i].startedAt, rows[j].startedAt)
  }

  /** The store's listing is newest first if and only if no two archived rows sort backwards. */
  lemma ListingDescendsIff(rows: seq<Record>, list: seq<nat>)
    requires IsListing(rows, list)
    ensures Descending(rows, list) <==> NoneBackwards(rows)
  {
    hide FormatTime, FourDigitYear, Less, SortsBackwards;
    forall j, k | 0 <= j < k < |list|
      ensures rows[list[j]].startedAt < rows[list[k]].startedAt ==>
              SortsBackwards(rows[list[j]].startedAt, rows[list[k]].startedAt)
    {
      PairListed(rows, list, j, k);
    }
    forall i, j | 0 <= i < |rows| && 0 <= j < |rows| && rows[i].Archived() && rows[j].Archived()
                  && SortsBackwards(rows[i].startedAt, rows[j].startedAt)
      ensures !Descending(rows, list)
    {
      var p, q := BackwardPairListed(rows, list, i, j);
    }
  }

  /** A later run listed after an earlier one sorts backwards against it. */
  lemma PairListed(rows: seq<Record>, list: seq<nat>, j: nat, k: nat)
    requires IsListing(rows, list) && j < k < |list|
    ensures rows[list[j]].startedAt < rows[list[k]].startedAt ==>
            SortsBackwards(rows[list[j]].startedAt, rows[list[k]].startedAt)
  {
    hide FormatTime, FourDigitYear, Less, SortsBackwards;
    var a, b := rows[list[j]].startedAt, rows[list[k]].startedAt;
    if a < b {
      BackwardsIff(a, b);
    }
  }

  /** Of a backward pair the earlier run is listed first. */
  lemma BackwardPairListed(rows: seq<Record>, list: seq<nat>, i: nat, j: nat) returns (p: nat, q: nat)
    requires IsListing(rows, list) && i < |rows| && j < |rows| && rows[i].Archived() && rows[j].Archived()
    requires SortsBackwards(rows[i].startedAt, rows[j].startedAt)
    ensures p < q < |list| && list[p] == i && list[q] == j && rows[i].startedAt < rows[j].startedAt
  {
    hide FormatTime, FourDigitYear, Less, Fraction;
    BackwardsIff(rows[i].startedAt, rows[j].startedAt);
    assert i in list && j in list;
    p :| 0 <= p < |list| && list[p] == i;
    q :| 0 <= q < |list| && list[q] == j;
  }

  /** t is the latest start among the archived rows. */
  ghost predicate LatestStart(rows: seq<Record>, t: int) {
    && (exists i :: 0 <= i < |rows| && rows[i].Archived() && rows[i].startedAt == t)
    && (forall i :: 0 <= i < |rows| && rows[i].Archived() ==> rows[i].startedAt <= t)
  }

  /** The archived rows that sort ahead of an instant although they are earlier. */
  ghost function Ahead(rows: seq<Record>, t: int): set<nat> {
    set i: nat | i < |rows| && rows[i].Archived() && SortsBackwards(rows[i].startedAt, t)
  }

  /** An archive that starts at t is kept by the policy. */
  ghost predicate KeepsStart(rows: seq<Record>, list: seq<nat>, policy: Policy, cutoff: int, t: int)
    requires Places(list, |rows|)
  {
    exists k :: 0 <= k < |list| && rows[list[k]].startedAt == t && !SelectedAt(rows, list, policy, cutoff, k)
  }

  /**
   * keep_last keeps the newest archive if and only if fewer than keep_last archived rows sort ahead
   * of it (with keep_last 1: if and only if none does), or an age limit keeps it.
   */
  lemma KeepsNewestIff(rows: seq<Record>, list: seq<nat>, policy: Policy, cutoff: int, t: int)
    requires IsListing(rows, list) && LatestStart(rows, t) && policy.keepLast.Some?
    ensures KeepsStart(rows, list, policy, cutoff, t) <==>
            |Ahead(rows, t)| < policy.keepLast.value || (policy.maxAgeDays.Some? && !(t < cutoff))
  {
    var p := NewestPlace(rows, list, t);
    hide IsListing, Ahead, LatestStart;
    assert SelectedAt(rows, list, policy, cutoff, p) <==> ShouldDelete(policy, p, t, cutoff);
  }

  /** The newest archive is first listed after exactly the rows that sort ahead of it. */
  lemma NewestPlace(rows: seq<Record>, list: seq<nat>, t: int) returns (p: nat)
    requires IsListing(rows, list) && LatestStart(rows, t)
    ensures p < |list| && rows[list[p]].startedAt == t && p == |Ahead(rows, t)|
    ensures forall k :: 0 <= k < |list| && rows[list[k]].startedAt == t ==> p <= k
  {
    hide FormatTime, FourDigitYear, Less, SortsBackwards;
    var i :| 0 <= i < |rows| && rows[i].Archived() && rows[i].startedAt == t;
    assert i in list;
    var q :| 0 <= q < |list| && list[q] == i;
    p := LeastPlace(rows, list, t, q);
    forall k | 0 <= k < p
      ensures list[k] in Ahead(rows, t)
    {
      assert list[k] in list;
      PairListed(rows, list, k, p);
    }
    forall j | j in Ahead(rows, t)
      ensures j in Firsts(list, p)
    {
      var x, y := BackwardPairListed(rows, list, j, list[p]);
      SamePlace(list, |rows|, y, p);
    }
    DistinctCount(list[..p], Ahead(rows, t));
    SubsetSize(Ahead(rows, t), Firsts(list, p));
  }

  lemma SamePlace(list: seq<nat>, n: nat, j: nat, k: nat)
    requires Places(list, n) && j < |list| && k < |list| && list[j] == list[k]
    ensures j == k
  {
  }

  lemma {:induction false} LeastPlace(rows: seq<Record>, list: seq<nat>, t: int, q: nat) returns (p: nat)
    requires Places(list, |rows|) && q < |list| && rows[list[q]].startedAt == t
    ensures p <= q && rows[list[p]].startedAt == t
    ensures forall k :: 0 <= k < |list| && rows[list[k]].startedAt == t ==> p <= k
  {
    if k :| 0 <= k < q && rows[list[k]].startedAt == t {
      p := LeastPlace(rows, list, t, k);
    } else {
      p := q;
    }
  }

  lemma {:induction false} SubsetSize(a: set<nat>, b: set<nat>)
    requires a <= b
    ensures |a| <= |b|
  {
    if a != {} {
      var x :| x in a;
      SubsetSize(a - {x}, b - {x});
    }
  }

  /**
   * Two runs in one second listed oldest first. An age limit between them deletes the first listed
   * and keeps the second; keep_last 1 keeps the older archive and deletes the newer.
   */
  lemma SameSecondListedBackwards(t: int, name: string)
    requires FourDigitYear(t) && Nanos(t) == 0 && name != ""
    ensures var rows := [Record(t, name), Record(t + 500_000_000, name)];
            && IsListing(rows, [0, 1]) && !Descending(rows, [0, 1])
            && !KeepsPrefix(rows, [0, 1], Policy(None, Some(1)), t + 1)
            && !SelectedAt(rows, [0, 1], Policy(Some(1), None), t, 0)
            && SelectedAt(rows, [0, 1], Policy(Some(1), None), t, 1)
  {
    hide FormatTime, FourDigitYear, Less;
    HalfSecondSortsFirst(t);
    LessAsymmetric(FormatTime(t + 500_000_000), FormatTime(t));
    var rows, list: seq<nat> := [Record(t, name), Record(t + 500_000_000, name)], [0, 1];
    TwoListed(rows, list);
    hide IsListing;
    var policy := Policy(None, Some(1));
    assert SelectedAt(rows, list, policy, t + 1, 0) && !SelectedAt(rows, list, policy, t + 1, 1);
  }

  lemma TwoListed(rows: seq<Record>, list: seq<nat>)
    requires list == [0, 1] && |rows| == 2 && Sortable(rows) && rows[0].Archived() && rows[1].Archived()
    requires !Less(Key(rows[0]), Key(rows[1]))
    ensures IsListing(rows, list)
  {
    hide FormatTime, FourDigitYear, Less;
    assert list[0] == 0 && list[1] == 1;
  }

  /** The first listed record survives whenever a validated keep_last is set. */
  lemma FirstListedSurvives(before: seq<Record>, after: seq<Record>, list: seq<nat>, policy: Policy, now: int,
                            faults: Faults)
    requires Swept(before, after, list, policy, now, faults) && list != []
    requires policy.keepLast.Some? && 1 <= policy.keepLast.value
    ensures after[list[0]] == before[list[0]]
  {
  }

  // ----- a second sweep -----

  lemma {:induction false} DistinctCount(list: seq<nat>, s: set<nat>)
    requires forall j, k :: 0 <= j < k < |list| ==> list[j] != list[k]
    requires forall k :: 0 <= k < |list| ==> list[k] in s
    ensures |list| <= |s|
  {
    if list != [] {
      var n := |list| - 1;
      DistinctCount(list[..n], s - {list[n]});
    }
  }

  ghost function Firsts(list: seq<nat>, n: nat): (s: set<nat>)
    requires n <= |list|
    ensures |s| <= n
    ensures forall k :: 0 <= k < n ==> list[k] in s
  {
    if n == 0 then {} else Firsts(list, n - 1) + {list[n - 1]}
  }

  /** A record that survived a clean sweep: still archived, and its place in the first listing was not selected. */
  lemma SurvivorPlace(before: seq<Record>, after: seq<Record>, list: seq<nat>, policy: Policy, now: int, row: nat)
    returns (p: nat)
    requires Swept(before, after, list, policy, now, NoFaults)
    requires row < |after| && after[row].Archived()
    ensures p < |list| && list[p] == row && after[row] == before[row]
    ensures !SelectedAt(before, list, policy, Cutoff(policy, now), p)
  {
    hide FourDigitYear, KeysDescend, SelectedAt;
    assert list[..|list|] == list;
    assert row in list;
    p :| 0 <= p < |list| && list[p] == row;
  }

  /** A stale survivor is preceded in any later listing only by records from the first keep_last places. */
  lemma StaleSurvivorRanks(before: seq<Record>, after: seq<Record>, list: seq<nat>, list2: seq<nat>, policy: Policy,
                           now: int, k: nat)
    requires Swept(before, after, list, policy, now, NoFaults) && IsListing(after, list2) && k < |list2|
    requires policy.keepLast.Some? && list2[k] < |after|
    requires policy.maxAgeDays.Some? ==> after[list2[k]].Before(Cutoff(policy, now))
    ensures k < policy.keepLast.value
  {
    hide Swept, IsListing, Cutoff;
    var limit := policy.keepLast.value;
    ListedSizes(before, after, list, list2, policy, now);
    var top := if limit < |list| then limit else |list|;
    forall j | 0 <= j <= k
      ensures 0 <= top && list2[j] in Firsts(list, top)
    {
      var e := SurvivorAtTop(before, after, list, list2, policy, now, j, k);
    }
    DistinctCount(list2[..k + 1], Firsts(list, top));
  }

  lemma ListedSizes(before: seq<Record>, after: seq<Record>, list: seq<nat>, list2: seq<nat>, policy: Policy, now: int)
    requires Swept(before, after, list, policy, now, NoFaults) && IsListing(after, list2)
    ensures |after| == |before| && Places(list, |before|) && Places(list2, |after|)
  {
  }

  /** Whatever is listed no later than a stale survivor held one of the first keep_last places. */
  lemma SurvivorAtTop(before: seq<Record>, after: seq<Record>, list: seq<nat>, list2: seq<nat>, policy: Policy,
                      now: int, j: nat, k: nat)
    returns (e: nat)
    requires Swept(before, after, list, policy, now, NoFaults) && IsListing(after, list2) && j <= k < |list2|
    requires policy.keepLast.Some? && list2[k] < |after|
    requires policy.maxAgeDays.Some? ==> after[list2[k]].Before(Cutoff(policy, now))
    ensures e < |list| && e < policy.keepLast.value && list[e] == list2[j]
  {
    var y := SurvivorPlace(before, after, list, policy, now, list2[k]);
    e := SurvivorPlace(before, after, list, policy, now, list2[j]);
    RankedAbove(before, list, list2[j], e, list2[k], y, after, list2, j, k);
  }

  /** Listed before y later, e was listed before y earlier or starts at the same instant. */
  lemma RankedAbove(before: seq<Record>, list: seq<nat>, re: nat, e: nat, ry: nat, y: nat, after: seq<Record>,
                    list2: seq<nat>, j: nat, k: nat)
    requires IsListing(before, list) && IsListing(after, list2)
    requires e < |list| && y < |list| && list[e] == re && list[y] == ry
    requires j <= k < |list2| && list2[j] == re && list2[k] == ry
    requires after[re] == before[re] && after[ry] == before[ry]
    ensures e <= y || before[re].startedAt == before[ry].startedAt
  {
    hide FormatTime, FourDigitYear, Less;
    if y < e {
      assert j < k;
      var a, b := before[re].startedAt, before[ry].startedAt;
      assert !Less(FormatTime(a), FormatTime(b)) && !Less(FormatTime(b), FormatTime(a));
      if a < b {
        KeyOrder(a, b);
      } else if b < a {
        KeyOrder(b, a);
      }
    }
  }

  /** After a sweep without faults, a second one at the same time selects nothing, whatever order ties are listed in. */
  lemma SecondSweepSelectsNothing(before: seq<Record>, after: seq<Record>, list: seq<nat>, list2: seq<nat>,
                                  policy: Policy, now: int)
    requires Swept(before, after, list, policy, now, NoFaults) && IsListing(after, list2)
    ensures forall k :: 0 <= k < |list2| ==> !SelectedAt(after, list2, policy, Cutoff(policy, now), k)
    ensures Selected(after, list2, policy, Cutoff(policy, now), |list2|) == 0
  {
    var cutoff := Cutoff(policy, now);
    forall k | 0 <= k < |list2|
      ensures !SelectedAt(after, list2, policy, cutoff, k)
    {
      if policy.keepLast.Some? && (policy.maxAgeDays.Some? ==> after[list2[k]].Before(cutoff)) {
        StaleSurvivorRanks(before, after, list, list2, policy, now, k);
      } else {
        var p := SurvivorPlace(before, after, list, policy, now, list2[k]);
      }
    }
    NoneSelected(after, list2, policy, cutoff, |list2|);
  }

  lemma {:induction false} NoneSelected(rows: seq<Record>, list: seq<nat>, policy: Policy, cutoff: int, n: nat)
    requires Places(list, |rows|) && n <= |list|
    requires forall k :: 0 <= k < n ==> !SelectedAt(rows, list, policy, cutoff, k)
    ensures Selected(rows, list, policy, cutoff, n) == 0
  {
    if n > 0 {
      NoneSelected(rows, list, policy, cutoff, n - 1);
    }
  }
}
