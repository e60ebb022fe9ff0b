/** The code of `IngestConsumer` (internal/worker/ingest_consumer.go) and of
    `GroupIssueUsecase.Execute` it calls. Each method follows the source's control flow and is
    shown to take only steps of the protocol, with everything else in the system free to move
    between any two of its calls; so what is proved of all runs holds of this code. */
module IngestConsumer {
  import opened IngestProtocol
  import opened IngestSafety

  datatype Loop = RunLoop | ReclaimLoop

  function Mine(s: State, me: Loop): Proc { if me.RunLoop? then s.run else s.reclaim }

  /** Steps of the producer, the clock and the other loop. */
  predicate Foreign(me: Loop, a: Action) {
    match a
    case Push(_) => true
    case Tick(_) => true
    case Crash => false
    case Read(_) => me.ReclaimLoop?
    case RunNext => me.ReclaimLoop?
    case RunStep(_) => me.ReclaimLoop?
    case Scan(_) => me.RunLoop?
    case Claim(_) => me.RunLoop?
    case ReclaimStep(_) => me.RunLoop?
  }

  function Call(me: Loop, r: Reply): Action { if me.RunLoop? then RunStep(r) else ReclaimStep(r) }

  /** While a loop is inside `processMessage`, its list of further messages stays as it is and
      the stream and tables only grow. */
  ghost predicate Progress(me: Loop, s: State, s': State) {
    && Grows(s.w, s'.w)
    && (me.RunLoop? ==> s'.batch == s.batch)
    && (me.ReclaimLoop? ==> s'.scan == s.scan)
  }

  lemma ProgressTransitive(me: Loop, a: State, b: State, c: State)
    requires Progress(me, a, b) && Progress(me, b, c)
    ensures Progress(me, a, c)
  {}

  lemma ForeignStepsDoNotDisturb(cfg: Config, me: Loop, s: State, a: Action)
    requires NothingLost(s) && Enabled(s, a) && Foreign(me, a)
    ensures Progress(me, s, Apply(cfg, s, a)) && Mine(Apply(cfg, s, a), me) == Mine(s, me)
  {
    StepKeepsNothingLost(cfg, s, a);
  }

  lemma CallMakesProgress(cfg: Config, me: Loop, s: State, r: Reply)
    requires NothingLost(s) && !Mine(s, me).Idle?
    ensures Enabled(s, Call(me, r))
    ensures var s' := Apply(cfg, s, Call(me, r));
            NothingLost(s') && Progress(me, s, s') && (s'.w, Mine(s', me)) == ProcStep(s.w, Mine(s, me), r)
  {
    StepKeepsNothingLost(cfg, s, Call(me, r));
  }

  /** What the calls made for one entry reply, those that are made. */
  datatype Replies = Replies(append: Reply, upsert: Reply, insert: Reply, publish: Reply, evaluate: Reply, ack: Reply)

  lemma AppendDeadLetters(w: World, id: EntryId, reason: Reason, r: Reply)
    requires Runnable(w, DlqAppend(id, reason))
    ensures r.Applied() ==> DeadLettered(ProcStep(w, DlqAppend(id, reason), r).0, id)
  {
    if r.Applied() { assert AppendDeadLetter(w, id, reason, r).dlq[|w.dlq|].originalId == id; }
  }

  class IngestConsumer {
    const cfg: Config
    var s: State
    ghost var history: seq<State>

    /** The state is the last one of a run of the protocol. */
    ghost predicate Valid()
      reads this
    {
      Behaviour(cfg, history) && history[|history| - 1] == s
    }

    constructor (maxDeliveryCount: int, reclaimMinIdle: nat)
      ensures Valid() && s == INIT && cfg == Config(maxDeliveryCount, reclaimMinIdle)
    {
      cfg := Config(maxDeliveryCount, reclaimMinIdle);
      s := INIT;
      history := [INIT];
    }

    lemma Holds()
      requires Valid()
      ensures Invariant(cfg, s)
    {
      BehaviourKeepsInvariant(cfg, history, |history| - 1);
    }

    method Take(a: Action)
      requires Valid() && Enabled(s, a) && !a.Crash?
      modifies this
      ensures Valid() && s == Apply(cfg, old(s), a) && history == old(history) + [s]
    {
      BehaviourExtends(cfg, history, a);
      s := Apply(cfg, s, a);
      history := history + [s];
    }

    /** From index `from` of the run on, this loop has stood at `p`. */
    ghost predicate Stood(me: Loop, from: int, p: Proc)
      reads this
    {
      forall k :: 0 <= k && from <= k < |history| ==> Mine(history[k], me) == p
    }

    /** From index `from` of the run on, this loop has not come to an ack. */
    ghost predicate NoAck(me: Loop, from: int)
      reads this
    {
      forall k :: 0 <= k && from <= k < |history| ==> !Mine(history[k], me).Ack? && !Mine(history[k], me).DlqAck?
    }

    /** The step number `k` of the run was `a`. */
    ghost predicate Took(k: nat, a: Action)
      reads this
    {
      k + 1 < |history| && Enabled(history[k], a) && history[k + 1] == Apply(cfg, history[k], a)
    }

    /** Any number of steps of the rest of the system. */
    method Interfere(me: Loop)
      requires Valid()
      modifies this
      ensures Valid() && Progress(me, old(s), s) && Mine(s, me) == old(Mine(s, me))
      ensures old(history) <= history && Stood(me, |old(history)| - 1, Mine(s, me))
    {
      var n: nat := *;
      while n > 0
        invariant Valid() && Progress(me, old(s), s) && Mine(s, me) == old(Mine(s, me))
        invariant old(history) <= history && Stood(me, |old(history)| - 1, Mine(s, me))
      {
        var a: Action := *;
        if Enabled(s, a) && Foreign(me, a) {
          Holds();
          ForeignStepsDoNotDisturb(cfg, me, s, a);
          ProgressTransitive(me, old(s), s, Apply(cfg, s, a));
          Take(a);
        }
        n := n - 1;
      }
    }

    /** One call to Redis or Postgres from inside `processMessage`, made in the state `before`. */
    method Remote(me: Loop, r: Reply) returns (ghost before: State)
      requires Valid() && !Mine(s, me).Idle?
      modifies this
      ensures Valid() && NothingLost(before) && NothingLost(s)
      ensures Mine(before, me) == old(Mine(s, me))
      ensures (s.w, Mine(s, me)) == ProcStep(before.w, Mine(before, me), r)
      ensures Progress(me, old(s), s) && Progress(me, before, s) && old(history) < history
      ensures forall k :: |old(history)| - 1 <= k < |history| - 1 ==> Mine(history[k], me) == old(Mine(s, me))
      ensures before == history[|history| - 2] && Took(|history| - 2, Call(me, r))
    {
      Interfere(me);
      Holds();
      before := s;
      CallMakesProgress(cfg, me, s, r);
      ProgressTransitive(me, old(s), s, Apply(cfg, s, Call(me, r)));
      Take(Call(me, r));
    }

    /** Append to the DLQ, then ack: both best effort. */
    method MoveToDLQ(me: Loop, id: EntryId, reason: Reason, io: Replies)
      requires Valid() && Mine(s, me) == DlqAppend(id, reason)
      modifies this
      ensures Valid() && Mine(s, me).Idle? && Settled(s.w, id)
      ensures Progress(me, old(s), s) && old(history) <= history
      ensures io.append.Applied() ==> DeadLettered(s.w, id)
      ensures io.ack.Applied() ==> id !in s.w.pel
    {
      ghost var s1 := Remote(me, io.append);
      AppendDeadLetters(s1.w, id, reason, io.append);
      ghost var mid := s;
      ghost var s2 := Remote(me, io.ack);
      SettledStays(s2.w, s.w, id);
      ProgressTransitive(me, old(s), mid, s);
    }

    method TakeUpsert(me: Loop, r: Reply)
      requires Valid() && Mine(s, me).Upsert?
      modifies this
      ensures Valid() && Progress(me, old(s), s) && old(history) <= history && NoAck(me, |old(history)| - 1)
      ensures if r.Failed? then Mine(s, me).Idle? else Mine(s, me).Insert? && Mine(s, me).id == old(Mine(s, me)).id
    {
      ghost var before := Remote(me, r);
    }

    method TakeInsert(me: Loop, r: Reply)
      requires Valid() && Mine(s, me).Insert?
      modifies this
      ensures Valid() && Progress(me, old(s), s) && old(history) <= history && NoAck(me, |old(history)| - 1)
      ensures if r.Failed? then Mine(s, me).Idle?
              else Mine(s, me) == Publish(old(Mine(s, me)).id, old(Mine(s, me)).key, old(Mine(s, me)).created)
    {
      ghost var before := Remote(me, r);
    }

    /** `GroupIssueUsecase.Execute`: upsert the issue, then insert the event; no transaction. */
    method Execute(me: Loop, id: EntryId, io: Replies) returns (created: bool, err: bool)
      requires Valid() && Mine(s, me) == Upsert(id)
      modifies this
      ensures Valid() && Progress(me, old(s), s) && old(history) <= history && NoAck(me, |old(history)| - 1)
      ensures err <==> io.upsert.Failed? || io.insert.Failed?
      ensures err ==> Mine(s, me).Idle?
      ensures !err ==> Mine(s, me).Publish? && Mine(s, me).id == id && Mine(s, me).created == created
    {
      TakeUpsert(me, io.upsert);
      if io.upsert.Failed? { return false, true; }
      created := Mine(s, me).created;
      ghost var mid := s;
      TakeInsert(me, io.insert);
      ProgressTransitive(me, old(s), mid, s);
      if io.insert.Failed? { return false, true; }
      err := false;
    }

    /** Broadcast, then evaluate the new-issue rules if this attempt created the issue: the one call, or
        the two in this order, and no others of this loop. */
    method Announce(me: Loop, id: EntryId, created: bool, io: Replies) returns (ghost at: nat, ghost next: nat)
      requires Valid() && Mine(s, me).Publish? && Mine(s, me).id == id && Mine(s, me).created == created
      modifies this
      ensures Valid() && Mine(s, me) == Ack(id)
      ensures Progress(me, old(s), s) && old(history) <= history
      ensures |old(history)| - 1 <= at && Took(at, Call(me, io.publish)) && Mine(history[at], me) == old(Mine(s, me))
      ensures if created then
                at < next && Took(next, Call(me, io.evaluate)) && Mine(history[next], me) == Alert(id, old(Mine(s, me)).key)
              else Mine(history[at + 1], me) == Ack(id)
    {
      at := TakePublish(me, io.publish);
      next := at;
      if created {
        ghost var mid := s;
        next := TakeAlert(me, io.evaluate);
        ProgressTransitive(me, old(s), mid, s);
      }
    }

    method TakePublish(me: Loop, r: Reply) returns (ghost at: nat)
      requires Valid() && Mine(s, me).Publish?
      modifies this
      ensures Valid() && Progress(me, old(s), s) && old(history) <= history
      ensures |old(history)| - 1 <= at == |history| - 2 && Took(at, Call(me, r)) && Mine(history[at], me) == old(Mine(s, me))
      ensures var p := old(Mine(s, me));
              Mine(s, me) == if p.created then Alert(p.id, p.key) else Ack(p.id)
    {
      ghost var before := Remote(me, r);
      at := |history| - 2;
    }

    method TakeAlert(me: Loop, r: Reply) returns (ghost at: nat)
      requires Valid() && Mine(s, me).Alert?
      modifies this
      ensures Valid() && Progress(me, old(s), s) && old(history) <= history && Mine(s, me) == Ack(old(Mine(s, me)).id)
      ensures |old(history)| - 1 <= at == |history| - 2 && Took(at, Call(me, r)) && Mine(history[at], me) == old(Mine(s, me))
    {
      ghost var before := Remote(me, r);
      at := |history| - 2;
    }

    /** The ack at the end of a successful `processMessage`; its failure is only logged. */
    method AckStored(me: Loop, id: EntryId, io: Replies)
      requires Valid() && Mine(s, me) == Ack(id)
      modifies this
      ensures Valid() && Mine(s, me).Idle? && Stored(s.w, id)
      ensures Progress(me, old(s), s) && old(history) <= history
      ensures io.ack.Applied() ==> id !in s.w.pel
    {
      ghost var s1 := Remote(me, io.ack);
      SettledStays(s1.w, s.w, id);
    }

    /** `processMessage`. A structurally bad entry is settled at once, a grouped one is stored before
        it is acked, and after a grouping error this loop has not acked the entry: it is still pending
        or was settled elsewhere. */
    method ProcessMessage(me: Loop, id: EntryId, io: Replies) returns (ghost failed: bool)
      requires Valid() && id < s.w.delivered && id < |s.w.stream| && Mine(s, me) == Begin(s.w, id)
      modifies this
      ensures Valid() && Mine(s, me).Idle?
      ensures Progress(me, old(s), s) && old(history) <= history
      ensures !old(s.w.stream)[id].Json? ==> !failed && Settled(s.w, id)
      ensures old(s.w.stream)[id].Json? && !failed ==> Stored(s.w, id)
      ensures id in s.w.pel || Settled(s.w, id)
      ensures failed <==> old(s.w.stream)[id].Json? && (io.upsert.Failed? || io.insert.Failed?)
      ensures failed ==> NoAck(me, |old(history)| - 1)
      ensures !failed && io.ack.Applied() ==> id !in s.w.pel
    {
      failed := false;
      match s.w.stream[id] {
        case MissingData => MoveToDLQ(me, id, DataFieldMissing, io);
        case InvalidJson => MoveToDLQ(me, id, UnmarshalError, io);
        case Json(_) =>
          var created, err := Execute(me, id, io);
          if err {
            failed := true;
          } else {
            ghost var mid := s;
            ghost var at, next := Announce(me, id, created, io);
            ProgressTransitive(me, old(s), mid, s);
            mid := s;
            AckStored(me, id, io);
            ProgressTransitive(me, old(s), mid, s);
          }
      }
      Holds();
    }

    /** One turn of the loop in `Run`: nothing to read, or a read whose whole batch is processed. */
    method RunOnce(read: Reply, io: EntryId -> Replies) returns (ghost at: nat)
      requires Valid() && s.run.Idle? && s.batch == []
      modifies this
      ensures Valid() && s.run.Idle? && s.batch == [] && old(history) <= history
      ensures |old(history)| - 1 <= at < |history|
      ensures history[at].w.delivered < |history[at].w.stream| ==> Took(at, Read(read))
    {
      Interfere(RunLoop);
      at := |history| - 1;
      Holds();
      if s.w.delivered == |s.w.stream| { return; }
      Take(Read(read));
      ghost var prefix := history;
      while s.batch != []
        invariant Valid() && s.run.Idle? && prefix <= history
        decreases |s.batch|
      {
        ProcessNext(io);
      }
    }

    method ProcessNext(io: EntryId -> Replies)
      requires Valid() && s.run.Idle? && s.batch != []
      modifies this
      ensures Valid() && s.run.Idle? && s.batch == old(s.batch)[1..] && old(history) <= history
    {
      Interfere(RunLoop);
      Holds();
      var id := s.batch[0];
      assert id in s.batch;
      Take(RunNext);
      var failed := ProcessMessage(RunLoop, id, io(id));
    }

    /** `reclaimOnce`: scan the pending list, then claim and retry or dead-letter every entry of it. */
    method ReclaimOnce(read: Reply, claims: EntryId -> Reply, io: EntryId -> Replies) returns (ghost at: nat)
      requires Valid() && s.reclaim.Idle? && s.scan == []
      modifies this
      ensures Valid() && s.reclaim.Idle? && s.scan == [] && old(history) <= history
      ensures |old(history)| - 1 <= at && Took(at, Scan(read))
    {
      Interfere(ReclaimLoop);
      at := |history| - 1;
      Take(Scan(read));
      if read.Failed? { return; }
      ghost var prefix := history;
      while s.scan != []
        invariant Valid() && s.reclaim.Idle? && prefix <= history
        decreases |s.scan|
      {
        ghost var k := ReclaimNext(claims(s.scan[0].id), io(s.scan[0].id));
      }
    }

    /** The body of the loop in `reclaimOnce`: an entry that could be claimed is dead-lettered or
        retried, by its count before the claim. */
    method ReclaimNext(claim: Reply, io: Replies) returns (ghost at: nat)
      requires Valid() && s.reclaim.Idle? && s.scan != []
      modifies this
      ensures Valid() && s.reclaim.Idle? && s.scan == old(s.scan)[1..] && old(history) <= history
      ensures |old(history)| - 1 <= at && Took(at, Claim(claim)) && history[at].scan == old(s.scan)
      ensures !(claim.Ok? && Claimable(cfg, history[at].w, old(s.scan)[0].id)) ==> |history| == at + 2
      ensures claim.Ok? && Claimable(cfg, history[at].w, old(s.scan)[0].id) ==>
                Claimed(history[at + 1], old(s.scan)[0])
    {
      Interfere(ReclaimLoop);
      Holds();
      at := |history| - 1;
      var p := s.scan[0];
      assert p in s.scan;
      var claimed := claim.Ok? && Claimable(cfg, s.w, p.id);
      Take(Claim(claim));
      if !claimed { return; }
      Handle(p, io);
    }

    /** What follows a successful claim of `p`, judged by the state right after it. */
    ghost predicate Claimed(after: State, p: Scanned)
      requires p.id < |after.w.stream|
      reads this
    {
      if p.retryCount > cfg.maxDeliveryCount
      then after.reclaim == DlqAppend(p.id, RetriesExceeded) && Settled(s.w, p.id)
      else after.reclaim == Begin(after.w, p.id) && (p.id in s.w.pel || Settled(s.w, p.id))
    }

    method Handle(p: Scanned, io: Replies)
      requires Valid() && p.id < s.w.delivered && p.id < |s.w.stream|
      requires s.reclaim == if p.retryCount > cfg.maxDeliveryCount then DlqAppend(p.id, RetriesExceeded)
                            else Begin(s.w, p.id)
      modifies this
      ensures Valid() && s.reclaim.Idle? && s.scan == old(s.scan) && old(history) <= history
      ensures if p.retryCount > cfg.maxDeliveryCount then Settled(s.w, p.id)
              else p.id in s.w.pel || Settled(s.w, p.id)
    {
      if p.retryCount > cfg.maxDeliveryCount {
        MoveToDLQ(ReclaimLoop, p.id, RetriesExceeded, io);
        return;
      }
      var failed := ProcessMessage(ReclaimLoop, p.id, io);
    }
  }
}
