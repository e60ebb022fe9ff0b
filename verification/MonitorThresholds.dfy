/** Which threshold a checker goes by, and what becomes of the status while thresholds change, told from the
    list of events alone. */
module MonitorThresholds {
  import opened MonitorStatus

  datatype Option<T> = None | Some(value: T)

  // ------------------------------------------------------------------ the row a checker runs

  /** The threshold configured last. */
  function Configured(first: nat, es: seq<Event>): nat {
    if es == [] then first
    else if es[|es| - 1].Configure? then es[|es| - 1].threshold
    else Configured(first, es[..|es| - 1])
  }

  /** How many events had happened when the row waiting in the slot was read. */
  function ReadAt(es: seq<Event>, slot: nat): (at: Option<nat>)
    ensures at.Some? ==> at.value < |es|
  {
    if es == [] then None
    else
      var init, e := es[..|es| - 1], es[|es| - 1];
      if e == Fetch(slot) then Some(|init|) else if e == Spawn(slot) then None else ReadAt(init, slot)
  }

  /** ... and when the running checker's row was. */
  function CheckerReadAt(es: seq<Event>): (at: nat)
    ensures at <= |es|
  {
    if es == [] then 0
    else
      var init, e := es[..|es| - 1], es[|es| - 1];
      if e.Spawn? && ReadAt(init, e.slot).Some? then ReadAt(init, e.slot).value else CheckerReadAt(init)
  }

  /** The row as it is after these events. */
  ghost function RowAfter(first: nat, es: seq<Event>): Copy {
    var m := Run(Fresh(first), es);
    Copy(m.stored, Configured(first, es), |m.notices|, |m.checks|)
  }

  lemma {:induction false} ColumnIsConfigured(first: nat, es: seq<Event>)
    ensures Run(Fresh(first), es).threshold == Configured(first, es)
  {
    if es != [] { ColumnIsConfigured(first, es[..|es| - 1]); }
  }

  lemma {:induction false} WaitingRows(first: nat, es: seq<Event>, slot: nat)
    ensures var m, at := Run(Fresh(first), es), ReadAt(es, slot);
            && (slot in m.copies <==> at.Some?)
            && (at.Some? ==> m.copies[slot] == RowAfter(first, es[..at.value]))
  {
    if es != [] {
      var init := es[..|es| - 1];
      WaitingRows(first, init, slot);
      ColumnIsConfigured(first, init);
      var at := ReadAt(init, slot);
      if at.Some? { assert es[..at.value] == init[..at.value]; }
    }
  }

  /** Over every history: the running checker goes by the row as it was when it was read, so by the
      threshold configured last before the reading, however long ago that was. */
  lemma {:induction false} CheckerRunsRowRead(first: nat, es: seq<Event>)
    ensures var m, before := Run(Fresh(first), es), es[..CheckerReadAt(es)];
            && m.origin == RowAfter(first, before) && m.origin.threshold == Configured(first, before)
  {
    if es != [] {
      var init, e := es[..|es| - 1], es[|es| - 1];
      CheckerRunsRowRead(first, init);
      assert es[..CheckerReadAt(init)] == init[..CheckerReadAt(init)];
      if e.Spawn? {
        WaitingRows(first, init, e.slot);
        var at := ReadAt(init, e.slot);
        if at.Some? { assert es[..at.value] == init[..at.value]; }
      }
    }
  }

  /** The threshold in force for the next check. */
  function InForce(first: nat, es: seq<Event>): nat { Configured(first, es[..CheckerReadAt(es)]) }

  // ------------------------------------------------------------------ status while thresholds change

  predicate NoCheckSince(es: seq<Event>, at: nat) {
    forall k :: at <= k < |es| ==> !es[k].Ping?
  }

  /** No call of the check fails, and no check falls between the reading of a row and its spawning. */
  predicate Undisturbed(before: seq<Event>, e: Event) {
    match e
    case Ping(_, _, _, _) => Works(e)
    case Spawn(slot) => ReadAt(before, slot).Some? ==> NoCheckSince(before, ReadAt(before, slot).value)
    case _ => true
  }

  /** An error-free history: thresholds change at will, checkers are replaced at will. */
  predicate ErrorFree(es: seq<Event>) {
    forall k :: 0 <= k < |es| ==> Undisturbed(es[..k], es[k])
  }

  /** The check at `k` failed, nothing has succeeded since, and it completed the threshold of its checker. */
  predicate TripsAt(first: nat, es: seq<Event>, k: nat)
    requires k < |es|
  {
    && es[k].Ping? && !es[k].isUp && (forall j :: k < j < |es| && es[j].Ping? ==> !es[j].isUp)
    && Failures(Results(es[..k + 1])) >= InForce(first, es[..k])
  }

  predicate Tripped(first: nat, es: seq<Event>) { exists k :: 0 <= k < |es| && TripsAt(first, es, k) }

  /** One event more. */
  lemma TrippedSnoc(first: nat, es: seq<Event>, e: Event)
    ensures Tripped(first, es + [e]) <==>
            if e.Ping? then !e.isUp && (Tripped(first, es) || Failures(Results(es + [e])) >= InForce(first, es))
            else Tripped(first, es)
  {
    var all := es + [e];
    assert all[..|es|] == es && all[..|es| + 1] == all;
    forall k | 0 <= k < |es|
      ensures TripsAt(first, all, k) <==> TripsAt(first, es, k) && (e.Ping? ==> !e.isUp)
    {
      assert all[..k] == es[..k] && all[..k + 1] == es[..k + 1];
      assert all[|es|] == e;
      assert forall j :: 0 <= j < |es| ==> all[j] == es[j];
    }
    assert TripsAt(first, all, |es|) <==> e.Ping? && !e.isUp && Failures(Results(all)) >= InForce(first, es);
  }

  lemma {:induction false} NoCheckSameResults(es: seq<Event>, at: nat)
    requires at <= |es| && NoCheckSince(es, at)
    ensures Results(es) == Results(es[..at])
  {
    if at < |es| {
      NoCheckSameResults(es[..|es| - 1], at);
      assert es[..|es| - 1][..at] == es[..at];
    } else {
      assert es[..at] == es;
    }
  }

  /** The running checker, the column and the closed form agree, and a failure run has had its notice
      exactly when the threshold has been completed in it. */
  ghost predicate Agrees(first: nat, es: seq<Event>) {
    var m := Run(Fresh(first), es);
    && m.checks == Results(es) && m.status == m.stored == StatusOf(first, es)
    && DeafOk(m) && (InAnnouncedRun(m) <==> Tripped(first, es))
  }

  /** The status, told from the events. */
  function StatusOf(first: nat, es: seq<Event>): Status {
    if Tripped(first, es) then Down else if true in Results(es) then Up else Unknown
  }

  lemma CheckAgrees(first: nat, es: seq<Event>, e: Event)
    requires Agrees(first, es) && Works(e)
    ensures Agrees(first, es + [e])
  {
    var m := Run(Fresh(first), es);
    assert (es + [e])[..|es|] == es;
    TrippedSnoc(first, es, e);
    CheckerRunsRowRead(first, es);
    StepKeepsDeafOk(m, e);
    FailuresSnoc(m.checks, e.isUp);
    assert true in Results(es) + [e.isUp] <==> e.isUp || true in Results(es);
  }

  lemma OtherAgrees(first: nat, es: seq<Event>, e: Event)
    requires Agrees(first, es) && !e.Ping?
    requires e.Spawn? && ReadAt(es, e.slot).Some? ==>
               Run(Fresh(first), es[..ReadAt(es, e.slot).value]).stored == StatusOf(first, es)
    ensures Agrees(first, es + [e])
  {
    var m := Run(Fresh(first), es);
    assert (es + [e])[..|es|] == es;
    TrippedSnoc(first, es, e);
    StepKeepsDeafOk(m, e);
    if e.Spawn? { WaitingRows(first, es, e.slot); }
    assert Results(es) + [] == Results(es);
  }

  /** Between two checks nothing changes the status. */
  lemma {:induction false} QuietStatus(first: nat, es: seq<Event>, at: nat)
    requires at <= |es| && NoCheckSince(es, at)
    ensures StatusOf(first, es) == StatusOf(first, es[..at])
  {
    if at < |es| {
      var init, e := es[..|es| - 1], es[|es| - 1];
      QuietStatus(first, init, at);
      assert init[..at] == es[..at] && es == init + [e];
      TrippedSnoc(first, init, e);
      NoCheckSameResults(es, |init|);
    } else {
      assert es[..at] == es;
    }
  }

  lemma ErrorFreePrefix(es: seq<Event>, n: nat)
    requires ErrorFree(es) && n <= |es|
    ensures ErrorFree(es[..n])
  {
    forall k | 0 <= k < n ensures Undisturbed(es[..n][..k], es[..n][k]) {
      assert es[..n][..k] == es[..k];
      assert Undisturbed(es[..k], es[k]);
    }
  }

  lemma LastUndisturbed(es: seq<Event>)
    requires ErrorFree(es) && es != []
    ensures ErrorFree(es[..|es| - 1]) && Undisturbed(es[..|es| - 1], es[|es| - 1])
    ensures es == es[..|es| - 1] + [es[|es| - 1]]
  {
    ErrorFreePrefix(es, |es| - 1);
  }

  /** A row read and not yet spawned still says what the status is. */
  lemma RowStillRight(first: nat, es: seq<Event>, at: nat)
    requires at <= |es| && NoCheckSince(es, at) && Agrees(first, es[..at])
    ensures Run(Fresh(first), es[..at]).stored == StatusOf(first, es)
  {
    QuietStatus(first, es, at);
  }

  lemma {:induction false} AlwaysAgrees(first: nat, es: seq<Event>)
    requires ErrorFree(es)
    ensures Agrees(first, es)
    decreases |es|
  {
    if es == [] {
      assert !Tripped(first, es);
    } else {
      var init, e := es[..|es| - 1], es[|es| - 1];
      LastUndisturbed(es);
      AlwaysAgrees(first, init);
      if e.Ping? {
        CheckAgrees(first, init, e);
      } else {
        if e.Spawn? && ReadAt(init, e.slot).Some? {
          var at := ReadAt(init, e.slot).value;
          ErrorFreePrefix(init, at);
          AlwaysAgrees(first, init[..at]);
          RowStillRight(first, init, at);
        }
        OtherAgrees(first, init, e);
      }
    }
  }

  /** Over every error-free history, whatever is configured when: the status is down if and only if some
      check of the failure run the monitor is in completed the threshold its checker went by, else up if any
      check ever succeeded, else unknown; and the run has had its notice exactly when the status is down. */
  lemma StatusWhileThresholdsChange(first: nat, es: seq<Event>)
    requires ErrorFree(es)
    ensures var m := Run(Fresh(first), es);
            && m.checks == Results(es) && m.status == m.stored
            && m.status == (if Tripped(first, es) then Down else if true in Results(es) then Up else Unknown)
            && (RunAnnounced(m) <==> Tripped(first, es))
  {
    AlwaysAgrees(first, es);
    RunAnnouncedIsInAnnouncedRun(Run(Fresh(first), es));
  }
}
