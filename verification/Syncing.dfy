/** A pass over any deployment: internal/indexing/syncer.go. */
module Syncing {
  import opened Options
  import opened Protocol
  import opened Safety
  import opened Guarantees
  import opened Settling
  import opened Cursors
  import opened Checkpoints
  import opened Indexes
  import opened Paging
  import opened Passes
  import opened Sources
  import opened Deployments

  class Syncer {
    const deployment: Deployment
    const pid: Pid
    const pageSize: nat

    constructor (deployment: Deployment, pid: Pid, pageSize: nat)
      requires pageSize > 0
      ensures this.deployment == deployment && this.pid == pid && this.pageSize == pageSize
    {
      this.deployment, this.pid, this.pageSize := deployment, pid, pageSize;
    }

    method Write(live: Option<Gen>, changes: Changes<Entry>) returns (ok: bool)
      requires deployment.Valid()
      requires var pc := PcOf(deployment.machine, pid);
               pc.SyncPaged? && pc.live == live && Delivers(changes, pc.page)
      modifies deployment, deployment.index, deployment.checkpoint
      ensures deployment.Kept() && deployment.Answered(ok)
      ensures var pc := old(PcOf(deployment.machine, pid));
              PcOf(deployment.machine, pid) == if ok then SyncBulked(pc.live, pc.cur, pc.page) else Releasing
      ensures var s, page := old(deployment.machine), old(PcOf(deployment.machine, pid)).page;
              && (old(deployment.script) == [] ==> (ok <==> page.upserted == map[] || (live.Some? && live.value in s.gens)))
              && deployment.Leaves(Filled(s.gens, live, page.upserted), s.alias, s.saved, s.holder)
    {
      if |changes.upserted| > 0 {
        ok := deployment.Bulk(pid, live, changes.upserted);
      } else {
        NothingFilledOrEmptied(deployment.machine.gens, live);
        deployment.Skip(pid);
        ok := true;
      }
    }

    method Delete(live: Option<Gen>, changes: Changes<Entry>) returns (ok: bool)
      requires deployment.Valid()
      requires var pc := PcOf(deployment.machine, pid);
               pc.SyncBulked? && pc.live == live && Delivers(changes, pc.page)
      modifies deployment, deployment.index, deployment.checkpoint
      ensures deployment.Kept() && deployment.Answered(ok)
      ensures var pc := old(PcOf(deployment.machine, pid));
              PcOf(deployment.machine, pid) == if ok then SyncRemoved(pc.live, pc.cur, pc.page) else Releasing
      ensures old(deployment.script) == [] ==> ok
      ensures var s, page := old(deployment.machine), old(PcOf(deployment.machine, pid)).page;
              deployment.Leaves(Emptied(s.gens, live, page.removed), s.alias, s.saved, s.holder)
    {
      if |changes.removed| > 0 {
        assert changes.removed[0] in Ids(changes.removed);
        ok := deployment.Remove(pid, live, changes.removed);
      } else {
        NothingFilledOrEmptied(deployment.machine.gens, live);
        deployment.Skip(pid);
        ok := true;
      }
    }

    /** One turn of the loop: a page asked for, written, and only then stored as the cursor. */
    method Turn(live: Option<Gen>, cur: Cursor) returns (ok: bool, changes: Changes<Entry>)
      requires deployment.Valid() && PcOf(deployment.machine, pid) == SyncReady(live, Place(cur)) && pageSize > 0
      modifies deployment, deployment.index, deployment.checkpoint
      ensures deployment.Locked() && deployment.Answered(ok)
      ensures PcOf(deployment.machine, pid) ==
              if ok && changes.more then SyncReady(live, Place(changes.next)) else Releasing
      ensures ok ==> deployment.Watermark() >= Micros(changes.next.through)
      ensures changes.next.through == Next(old(deployment.script)).through
      ensures old(deployment.script) != [] ==> |deployment.script| < |old(deployment.script)|
      ensures var s := old(deployment.machine);
              var page := PageOf(s.source, Place(cur), Reached(s.source, Place(cur), pageSize));
              old(deployment.script) == [] ==>
                && Place(changes.next) == page.next && changes.more == page.more
                && (page.more ==> |Paging.Rows(s.source, page.next)| < |Paging.Rows(s.source, Place(cur))|)
                && (ok <==> Storable(page.next) && (page.upserted == map[] || (live.Some? && live.value in s.gens)))
                && (ok ==> deployment.Leaves(Emptied(Filled(s.gens, live, page.upserted), live, page.removed),
                                             s.alias, page.next, s.holder))
    {
      var answered;
      answered, changes := deployment.ChangedSince(pid, cur, pageSize);
      if !answered {
        return false, changes;
      }
      var wrote := Write(live, changes);
      if !wrote {
        return false, changes;
      }
      var deleted := Delete(live, changes);
      if !deleted {
        return false, changes;
      }
      ok := deployment.Save(pid, changes.next);
    }

    /** The loop of Once: it stops at the first failure or at the first page with nothing after it. */
    method Pass(live: Option<Gen>, start: Cursor) returns (ok: bool)
      requires deployment.Valid() && PcOf(deployment.machine, pid) == SyncReady(live, Place(start)) && pageSize > 0
      modifies deployment, deployment.index, deployment.checkpoint
      ensures deployment.Locked() && deployment.Answered(ok) && PcOf(deployment.machine, pid).Releasing?
      ensures var s := old(deployment.machine);
              old(deployment.script) == [] && Standing(s, live, Place(start)) ==>
                && (ok <==> Indexable(s.source, s.saved, s.alias))
                && (ok ==> deployment.machine.alias == s.alias
                           && (LiveContent(deployment.machine), deployment.machine.saved)
                              == OnceFrom(s.source, s.saved, pageSize, LiveContent(s)))
    {
      ghost var s := deployment.machine;
      ghost var quiet := deployment.script == [] && Standing(s, live, Place(start));
      var cur := start;
      while true
        invariant deployment.failed == old(deployment.failed)
        invariant deployment.Locked() && PcOf(deployment.machine, pid) == SyncReady(live, Place(cur))
        invariant quiet ==> Standing(deployment.machine, live, Place(cur))
        invariant quiet ==> SamePass(s.source, Place(start), LiveContent(s), deployment.machine, Place(cur), pageSize)
        decreases |deployment.script|, |Paging.Rows(deployment.source, Place(cur))|
      {
        ghost var before := deployment.machine;
        var changes;
        ok, changes := Turn(live, cur);
        if !ok {
          if quiet {
            ATurnThatFails(s.source, Place(start), LiveContent(s), before, Place(cur), pageSize);
          }
          return;
        }
        if quiet {
          ATurnOfThePass(s.source, Place(start), LiveContent(s), before, deployment.machine, Place(cur), pageSize);
        }
        cur := changes.next;
        if !changes.more {
          return;
        }
      }
    }

    /** What a pass does between taking the lock and letting it go. */
    method Advance() returns (ok: bool)
      requires deployment.Valid() && PcOf(deployment.machine, pid).SyncHeld? && pageSize > 0
      modifies deployment, deployment.index, deployment.checkpoint
      ensures deployment.Locked() && deployment.Answered(ok) && PcOf(deployment.machine, pid).Releasing?
      ensures var s := old(deployment.machine);
              old(deployment.script) == [] && Standing(s, s.alias, s.saved) ==>
                && (ok <==> Indexable(s.source, s.saved, s.alias))
                && (ok ==> deployment.machine.alias == s.alias
                           && (LiveContent(deployment.machine), deployment.machine.saved)
                              == OnceFrom(s.source, s.saved, pageSize, LiveContent(s)))
    {
      var cur;
      ok, cur := deployment.Load(pid);
      if ok {
        var live;
        ok, live := deployment.Live(pid);
        if ok {
          ok := Pass(live, cur);
        }
      }
    }

    /**
     A whole pass. It succeeds exactly when the lock was granted and none of its calls answered an error. Every lock it
     took it let go, whichever exit it took, and without the lock it did nothing. Alone with a source that keeps
     still it succeeds exactly when the rows can be indexed, and then settles them all.
     */
    method Once() returns (ok: bool)
      requires deployment.Valid() && PcOf(deployment.machine, pid).Idle? && pageSize > 0
      modifies deployment, deployment.index, deployment.checkpoint
      ensures deployment.Ran() && PcOf(deployment.machine, pid).Idle?
      ensures deployment.Answered(ok)
      ensures ok <==> deployment.held == old(deployment.held) + 1 && deployment.failed == old(deployment.failed)
      ensures deployment.held == old(deployment.held)
              + (if Waited(old(deployment.machine), pid, old(deployment.script)).0 then 1 else 0)
      ensures deployment.held - old(deployment.held) == deployment.released - old(deployment.released)
      ensures deployment.held == old(deployment.held) ==> !ok && deployment.steps == old(deployment.steps)
      ensures forall id :: Missing(deployment.machine, id) ==>
                InGap(deployment.machine.gap, Key(deployment.machine.source, id))
      ensures var s := old(deployment.machine);
              old(deployment.script) == [] && s.holder.None? ==>
                && (ok <==> Indexable(s.source, s.saved, s.alias))
                && (ok ==> deployment.machine.alias == s.alias
                           && LiveContent(deployment.machine) == Settled(s.source, LiveContent(s), s.saved)
                           && IsEnd(s.source, s.saved, deployment.machine.saved))
    {
      hide Step, Played, Waited;
      ghost var s := deployment.machine;
      deployment.Stands();
      ok := deployment.Hold(pid);
      if ok {
        ok := Advance();
        deployment.Release(pid);
      }
      deployment.Agrees();
      EveryPageSizeSettles(s.source, s.saved, pageSize, LiveContent(s));
    }
  }
}
