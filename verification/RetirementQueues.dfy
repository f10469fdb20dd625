/** The queue object, shared by every group; each locked step of it is one action of a run. */
module RetirementQueues {
  import opened Alerts
  import opened StateStore
  import opened Retirements
  import opened RetirementRuns

  class Queue {
    const store: Store?
    var pending: seq<Retirement>
    /** What has been written since the queue was made, and the locked steps that led here. */
    ghost var written: seq<Retirement>
    ghost var actions: seq<Action>

    ghost predicate Valid()
      reads this
    {
      && (forall p :: p in pending ==> p.WellFormed())
      && QueueState(pending, written) == Run(actions)
    }

    constructor (store: Store?)
      ensures Valid() && this.store == store && pending == [] && written == [] && actions == []
    {
      this.store, pending, written, actions := store, [], [], [];
    }

    /** Whatever steps have interleaved, everything submitted is queued or written, once, in order. */
    lemma Conserved()
      requires Valid()
      ensures Accounted(Tickets(actions), Submitted(actions), QueueState(pending, written))
      ensures RowCount(pending) == RowCount(Submitted(actions)) - RowCount(written)
    {
      Conservation(actions);
      PendingCountsUnwritten(actions);
    }

    /** The locked part of Resolve: queues one write for the firing instances, if there are any. */
    method Append(at: Time, instances: seq<Instance>) returns (queued: bool)
      requires Valid()
      modifies this`pending, this`actions
      ensures Valid()
      ensures queued ==> store != null && FiringOnly(instances) != []
                         && actions == old(actions) + [Submit(Submission(at, instances)[0])]
      ensures !queued ==> actions == old(actions)
      ensures pending == old(pending) + if store == null then [] else Submission(at, instances)
      ensures queued ==>
                |pending| == |old(pending)| + 1 && StampedAt(pending[|old(pending)|], at)
      ensures queued <==> pending != old(pending)
    {
      var rows, firing := [], [];
      var i := 0;
      while i < |instances|
        invariant 0 <= i <= |instances|
        invariant firing == FiringOnly(instances[..i])
        invariant rows == ResolvedAll(firing, at)
      {
        var inst := instances[i];
        assert instances[..i + 1][..i] == instances[..i];
        i := i + 1;
        if inst.state != Firing {
          continue;
        }
        firing := firing + [inst];
        inst := inst.(state := Inactive, resolvedAt := at);
        rows := rows + [inst];
      }
      assert instances[..i] == instances;
      if store == null || |rows| == 0 {
        return false;
      }
      var p := Retirement(at, rows, firing);
      RunSubmits(actions, p);
      OwnRowsStamped(p);
      pending, actions := pending + [p], actions + [Submit(p)];
      return true;
    }

    /** Resolves the firing instances of a list, now or by a later flush. */
    method Resolve(at: Time, instances: seq<Instance>) returns (ghost ok: seq<bool>, ghost saved: seq<bool>)
      requires Valid()
      modifies this, store
      ensures Valid()
      ensures store == null || FiringOnly(instances) == [] ==>
                pending == old(pending) && (store != null ==> unchanged(store))
      ensures store != null && FiringOnly(instances) != [] ==>
                var queued := old(pending) + Submission(at, instances);
                && |ok| == |saved| == |queued|
                && pending == Kept(queued, ok)
                && store.log == FlushedLog(old(store.log), queued, ok)
                && store.table == FlushedTable(old(store.table), queued, ok, saved)
    {
      ok, saved := [], [];
      var queued := Append(at, instances);
      if queued {
        ok, saved := Flush();
      }
    }

    /** Tries each pending write once, oldest first; those that fail stay queued. */
    method Flush() returns (ghost ok: seq<bool>, ghost saved: seq<bool>)
      requires Valid()
      modifies this, store
      ensures Valid()
      ensures store == null ==> pending == old(pending)
      ensures store != null ==>
                && |ok| == |saved| == |old(pending)|
                && pending == Kept(old(pending), ok)
                && written == old(written) + Landed(old(pending), ok)
                && store.log == FlushedLog(old(store.log), old(pending), ok)
                && store.table == FlushedTable(old(store.table), old(pending), ok, saved)
    {
      ok, saved := [], [];
      if store == null {
        return;
      }
      var kept := [];
      var i := 0;
      while i < |pending|
        invariant 0 <= i <= |pending|
        invariant Flushing(pending[..i], kept, ok, saved, old(store.log), old(store.table))
        modifies store
      {
        assert pending[..i + 1] == pending[..i] + [pending[i]];
        kept, ok, saved := FlushNext(pending[..i], pending[i], kept, ok, saved, old(store.log), old(store.table));
        i := i + 1;
      }
      assert pending[..i] == pending;
      KeptAreMembers(pending, ok);
      RunFlushes(actions, ok);
      written, actions := written + Landed(pending, ok), actions + [RetirementRuns.Flush(ok)];
      pending := kept;
    }

    /** The writes of `tried` made, with these fates, on tables that held `log` and `table`. */
    ghost predicate Flushing(tried: seq<Retirement>, kept: seq<Retirement>, ok: seq<bool>, saved: seq<bool>,
                             log: Log, table: Table)
      reads this, store
    {
      && store != null
      && |ok| == |saved| == |tried|
      && kept == Kept(tried, ok)
      && store.log == FlushedLog(log, tried, ok)
      && store.table == FlushedTable(table, tried, ok, saved)
    }

    method FlushNext(ghost tried: seq<Retirement>, p: Retirement, kept: seq<Retirement>,
                     ghost ok: seq<bool>, ghost saved: seq<bool>, ghost log: Log, ghost table: Table)
      returns (kept': seq<Retirement>, ghost ok': seq<bool>, ghost saved': seq<bool>)
      requires Flushing(tried, kept, ok, saved, log, table)
      modifies store
      ensures Flushing(tried + [p], kept', ok', saved', log, table)
    {
      var landed, stored := FlushOne(p);
      FlushOneMore(log, table, tried, p, ok, saved, landed, stored);
      kept' := kept;
      if !landed {
        kept' := kept + [p];
      }
      ok', saved' := ok + [landed], saved + [stored];
    }

    /** One write: the resolved rows, and once they land the instances' inactive state. */
    method FlushOne(p: Retirement) returns (landed: bool, ghost stored: bool)
      requires store != null
      modifies store
      ensures store.log == if landed then old(store.log) + HistoryRows(p.rows, p.at) else old(store.log)
      ensures store.table == if landed && stored then SaveAll(old(store.table), p.rows) else old(store.table)
    {
      landed := store.RecordHistory(p.at, p.rows);
      stored := false;
      if landed {
        var s := store.Save(p.rows);
        stored := s;
      }
    }

    /** What the pending writes would resolve, still in the state they fired in. */
    method Unwritten() returns (out: seq<Instance>)
      ensures out == FiringOf(pending)
    {
      out := [];
      var i := 0;
      while i < |pending|
        invariant 0 <= i <= |pending|
        invariant out == FiringOf(pending[..i])
      {
        assert pending[..i + 1][..i] == pending[..i];
        out := out + pending[i].firing;
        i := i + 1;
      }
      assert pending[..i] == pending;
    }

    /** How many resolved rows are unwritten: those submitted less those written. */
    method Pending() returns (n: nat)
      requires Valid()
      ensures n == RowCount(pending) == RowCount(Submitted(actions)) - RowCount(written)
    {
      n := 0;
      var i := 0;
      while i < |pending|
        invariant 0 <= i <= |pending|
        invariant n == RowCount(pending[..i])
      {
        assert pending[..i + 1][..i] == pending[..i];
        n := n + |pending[i].rows|;
        i := i + 1;
      }
      assert pending[..i] == pending;
      Conserved();
    }
  }
}
