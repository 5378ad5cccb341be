/** A rebuild over any deployment: internal/indexing/reindexer.go. */
module Reindexing {
  import opened Options
  import opened Positions
  import opened Protocol
  import opened Safety
  import opened Guarantees
  import opened Settling
  import opened Cursors
  import opened Checkpoints
  import opened Indexes
  import opened Paging
  import opened Sources
  import opened Deployments
  import Gate

  const FIRST := Cursor(0, "", ZERO_TIME)

  /** Only the generation being built differs. */
  predicate Beside(s0: State, s: State, gen: Gen) {
    && gen in s.gens && s.gens == s0.gens[gen := s.gens[gen]]
    && s.alias == s0.alias && s.saved == s0.saved && s.holder == s0.holder && s.source == s0.source
  }

  lemma StillBeside(s0: State, s: State, s': State, gen: Gen, docs: Content)
    requires Beside(s0, s, gen)
    requires s'.gens == Filled(s.gens, Some(gen), docs) && s'.alias == s.alias && s'.saved == s.saved
    requires s'.holder == s.holder && s'.source == s.source
    ensures Beside(s0, s', gen) && s'.gens[gen] == s.gens[gen] + docs
  {
  }

  lemma FilledAtLast(s0: State, made: State, s: State, gen: Gen)
    requires made.gens == s0.gens[gen := map[]] && Beside(made, s, gen)
    ensures s.gens == s0.gens[gen := s.gens[gen]]
  {
  }

  lemma OnePageOfTheWalk(t: Table, cur: Position, limit: nat, content: Content, tally: Tally)
    requires limit > 0
    ensures var page := PageOf(t, cur, Reached(t, cur, limit));
            RunFrom(t, cur, limit, content, tally) ==
            if page.more then RunFrom(t, page.next, limit, content + page.upserted, Counted(tally, page))
            else (content + page.upserted, page.next, Counted(tally, page))
  {
  }

  /** Half way through a walk nobody disturbs: only the new generation differs, and the rest of the walk makes it `run`. */
  ghost predicate HalfBuilt(
      s0: State, s: State, gen: Gen, cur: Position, tally: Tally, limit: nat, run: (Content, Position, Tally))
    requires limit > 0
  {
    Beside(s0, s, gen) && RunFrom(s0.source, cur, limit, s.gens[gen], tally) == run
  }

  lemma ATurnOfTheWalk(
      s0: State, s: State, s': State, gen: Gen, cur: Position, tally: Tally, limit: nat, run: (Content, Position, Tally))
    requires limit > 0 && HalfBuilt(s0, s, gen, cur, tally, limit, run)
    requires var page := PageOf(s0.source, cur, Reached(s0.source, cur, limit));
             && s'.gens == Filled(s.gens, Some(gen), page.upserted) && s'.alias == s.alias && s'.saved == s.saved
             && s'.holder == s.holder && s'.source == s.source
    ensures var page := PageOf(s0.source, cur, Reached(s0.source, cur, limit));
            && Beside(s0, s', gen)
            && (page.more ==> HalfBuilt(s0, s', gen, page.next, Counted(tally, page), limit, run))
            && (!page.more ==> (s'.gens[gen], page.next, Counted(tally, page)) == run)
  {
    var page := PageOf(s0.source, cur, Reached(s0.source, cur, limit));
    StillBeside(s0, s, s', gen, page.upserted);
    OnePageOfTheWalk(s0.source, cur, limit, s.gens[gen], tally);
  }

  predicate Onwards(pc: Pc, gen: Gen, cur: Cursor, more: bool, tally: Tally) {
    (if more then pc.Walking? else pc.Walked?) && pc.gen == gen && pc.cur == Place(cur) && pc.tally == tally
  }

  class Reindexer {
    const deployment: Deployment
    const pid: Pid
    const pageSize: nat

    constructor (deployment: Deployment, pid: Pid, pageSize: nat)
      requires pageSize > 0
      ensures this.deployment == deployment && this.pid == pid && this.pageSize == pageSize
    {
      this.deployment, this.pid, this.pageSize := deployment, pid, pageSize;
    }

    method Write(gen: Gen, changes: Changes<Entry>) returns (ok: bool)
      requires deployment.Valid()
      requires var pc := PcOf(deployment.machine, pid);
               pc.Paged? && pc.gen == gen && Delivers(changes, pc.page)
      modifies deployment, deployment.index, deployment.checkpoint
      ensures deployment.Kept() && deployment.Answered(ok)
      ensures !ok ==> PcOf(deployment.machine, pid).Idle?
      ensures ok ==> var pc := old(PcOf(deployment.machine, pid));
                     PcOf(deployment.machine, pid) == Onward(gen, pc.page, pc.tally, pc.walk)
      ensures old(deployment.script) == [] ==> ok
      ensures var s, page := old(deployment.machine), old(PcOf(deployment.machine, pid)).page;
              deployment.Leaves(Filled(s.gens, Some(gen), page.upserted), s.alias, s.saved, s.holder)
    {
      if |changes.upserted| > 0 {
        ok := deployment.BulkInto(pid, gen, changes.upserted);
      } else {
        NothingFilledOrEmptied(deployment.machine.gens, Some(gen));
        deployment.Skip(pid);
        ok := true;
      }
    }

    /** One turn of the walk: what was removed is not looked at. */
    method Turn(gen: Gen, cur: Cursor, sent: nat, refused: nat, ghost total: nat)
      returns (ok: bool, changes: Changes<Entry>, sent': nat, refused': nat)
      requires deployment.Valid() && pageSize > 0
      requires Onwards(PcOf(deployment.machine, pid), gen, cur, true, Tally(sent, refused, total))
      modifies deployment, deployment.index, deployment.checkpoint
      ensures deployment.Kept() && deployment.Answered(ok)
      ensures old(deployment.script) != [] ==> |deployment.script| < |old(deployment.script)|
      ensures !ok ==> PcOf(deployment.machine, pid).Idle?
      ensures ok ==> Onwards(PcOf(deployment.machine, pid), gen, changes.next, changes.more, Tally(sent', refused', total))
      ensures var s := old(deployment.machine);
              var page := PageOf(s.source, Place(cur), Reached(s.source, Place(cur), pageSize));
              old(deployment.script) == [] ==>
                && ok && Place(changes.next) == page.next && changes.more == page.more
                && Tally(sent', refused', total) == Counted(Tally(sent, refused, total), page)
                && (page.more ==> |Paging.Rows(s.source, page.next)| < |Paging.Rows(s.source, Place(cur))|)
                && deployment.Leaves(Filled(s.gens, Some(gen), page.upserted), s.alias, s.saved, s.holder)
    {
      hide Played, Step, Reached, Filled, PageOf, Paging.Rows, Extended;
      ok, changes := deployment.ChangedSince(pid, cur, pageSize);
      sent', refused' := sent, refused;
      if ok {
        refused' := refused + |changes.refused|;
        ok := Write(gen, changes);
        sent' := sent + |changes.upserted|;
      }
    }

    /** The loop of Run: every page into the new generation, counting what was sent and what was refused. */
    method Build(gen: Gen, ghost total: nat) returns (ok: bool, cur: Cursor, sent: nat, refused: nat)
      requires deployment.Valid() && pageSize > 0
      requires Onwards(PcOf(deployment.machine, pid), gen, FIRST, true, Tally(0, 0, total))
      modifies deployment, deployment.index, deployment.checkpoint
      ensures deployment.Kept() && deployment.Answered(ok)
      ensures !ok ==> PcOf(deployment.machine, pid).Idle?
      ensures ok ==> Onwards(PcOf(deployment.machine, pid), gen, cur, false, Tally(sent, refused, total))
      ensures var s := old(deployment.machine);
              old(deployment.script) == [] && gen in s.gens && s.gens[gen] == map[] ==>
                && ok && Beside(s, deployment.machine, gen)
                && (deployment.machine.gens[gen], Place(cur), Tally(sent, refused, total))
                   == RunFrom(s.source, START, pageSize, map[], Tally(0, 0, total))
    {
      ghost var s := deployment.machine;
      ghost var quiet := deployment.script == [] && gen in s.gens && s.gens[gen] == map[];
      ghost var run := RunFrom(s.source, START, pageSize, map[], Tally(0, 0, total));
      cur, sent, refused := FIRST, 0, 0;
      while true
        invariant deployment.Kept() && deployment.failed == old(deployment.failed)
        invariant Onwards(PcOf(deployment.machine, pid), gen, cur, true, Tally(sent, refused, total))
        invariant quiet ==> HalfBuilt(s, deployment.machine, gen, Place(cur), Tally(sent, refused, total), pageSize, run)
        decreases |deployment.script|, |Paging.Rows(deployment.source, Place(cur))|
      {
        ghost var before := deployment.machine;
        var changes;
        ghost var tally := Tally(sent, refused, total);
        ok, changes, sent, refused := Turn(gen, cur, sent, refused, total);
        if !ok {
          return;
        }
        if quiet {
          ATurnOfTheWalk(s, before, deployment.machine, gen, Place(cur), tally, pageSize, run);
        }
        cur := changes.next;
        if !changes.more {
          return;
        }
      }
    }

    /** The two calls under the lock: the alias first, the cursor after it. */
    method Finish(gen: Gen, cur: Cursor) returns (ok: bool)
      requires deployment.Valid()
      requires var pc := PcOf(deployment.machine, pid); pc.Gated? && pc.gen == gen && pc.cur == Place(cur)
      modifies deployment, deployment.index, deployment.checkpoint
      ensures deployment.Ran() && PcOf(deployment.machine, pid).Idle?
      ensures deployment.Answered(ok)
      ensures ok ==> deployment.held == old(deployment.held) + 1 && deployment.moves == old(deployment.moves) + 2
      ensures ok ==> deployment.Watermark() >= Micros(cur.through)
      ensures old(deployment.held) <= deployment.held <= old(deployment.held) + 1
      ensures deployment.held - old(deployment.held) == deployment.released - old(deployment.released)
      ensures deployment.held == old(deployment.held) ==> !ok && deployment.moves == old(deployment.moves)
      ensures var s := old(deployment.machine);
              old(deployment.script) == [] && s.holder.None? ==>
                && (ok <==> Storable(Place(cur)))
                && deployment.Leaves(s.gens, Some(gen), if ok then Place(cur) else s.saved, None)
    {
      ok := deployment.HoldToPromote(pid);
      if ok {
        ok := deployment.Promote(pid, gen);
        if ok {
          ok := deployment.SaveWalked(pid, cur);
        }
        deployment.Release(pid);
      }
    }

    /** A new generation, and the source's own count if it keeps one. */
    method Open(gen: Gen) returns (ok: bool, total: nat)
      requires deployment.Valid() && PcOf(deployment.machine, pid).Idle?
      modifies deployment, deployment.index, deployment.checkpoint
      ensures deployment.Kept() && deployment.Answered(ok)
      ensures if ok then Onwards(PcOf(deployment.machine, pid), gen, FIRST, true, Tally(0, 0, total))
              else PcOf(deployment.machine, pid).Idle?
      ensures var s := old(deployment.machine);
              old(deployment.script) == [] ==>
                && (ok <==> gen !in s.gens)
                && (ok ==> total == if deployment.countable then |Alive(s.source)| else 0)
                && deployment.Leaves(if ok then s.gens[gen := map[]] else s.gens, s.alias, s.saved, s.holder)
    {
      total := 0;
      ok := deployment.CreateGeneration(pid, gen);
      if ok {
        if deployment.countable {
          ok, total := deployment.Count(pid);
        } else {
          deployment.Skip(pid);
        }
      }
    }

    /** The gate: the generation holds at least as many documents as the source, or failing that the walk, counted. */
    method Check(gen: Gen, cur: Cursor, sent: nat, refused: nat, total: nat) returns (ok: bool)
      requires deployment.Valid()
      requires Onwards(PcOf(deployment.machine, pid), gen, cur, false, Tally(sent, refused, total))
      modifies deployment, deployment.index, deployment.checkpoint
      ensures deployment.Kept() && deployment.LeavesAll()
      ensures deployment.failed == old(deployment.failed) || (!ok && deployment.failed == old(deployment.failed) + 1)
      ensures deployment.failed == old(deployment.failed) ==>
                && gen in deployment.machine.gens
                && (ok <==> Gate.GetsThrough(
                      deployment.machine.gens[gen], deployment.countable, Tally(sent, refused, total)))
      ensures if ok then var pc := PcOf(deployment.machine, pid); pc.Gated? && pc.gen == gen && pc.cur == Place(cur)
              else PcOf(deployment.machine, pid).Idle?
      ensures var s := old(deployment.machine);
              old(deployment.script) == [] && gen in s.gens ==>
                (ok <==> Gate.GetsThrough(s.gens[gen], deployment.countable, Tally(sent, refused, total)))
    {
      var expected: int := if deployment.countable then total - refused else sent;
      var indexed;
      ok, indexed := deployment.CountIn(pid, gen);
      ok := ok && indexed >= expected;
    }

    /** From a generation to the gate: built in full, counted, and held to what was expected of it. */
    method Rebuild(gen: Gen) returns (ok: bool, cur: Cursor)
      requires deployment.Valid() && PcOf(deployment.machine, pid).Idle? && pageSize > 0
      modifies deployment, deployment.index, deployment.checkpoint
      ensures deployment.Kept()
      ensures deployment.failed == old(deployment.failed) || (!ok && deployment.failed == old(deployment.failed) + 1)
      ensures if ok then var pc := PcOf(deployment.machine, pid); pc.Gated? && pc.gen == gen && pc.cur == Place(cur)
              else PcOf(deployment.machine, pid).Idle?
      ensures var s := old(deployment.machine);
              old(deployment.script) == [] && gen in s.gens ==> !ok && deployment.LeavesAll()
      ensures var s := old(deployment.machine);
              old(deployment.script) == [] && gen !in s.gens ==>
                && (ok <==> (deployment.countable ==> Gate.StartsBelow(s.source)))
                && (ok ==> IsEnd(s.source, START, Place(cur)))
                && deployment.Leaves(s.gens[gen := Listing(s.source)], s.alias, s.saved, s.holder)
    {
      cur := FIRST;
      ghost var s := deployment.machine;
      ghost var quiet := deployment.script == [] && gen !in s.gens;
      Gate.AnHonestWalk(s.source, pageSize, deployment.countable);
      var total;
      ok, total := Open(gen);
      if !ok {
        return;
      }
      ghost var made := deployment.machine;
      var sent, refused;
      ok, cur, sent, refused := Build(gen, total);
      if !ok {
        return;
      }
      if quiet {
        FilledAtLast(s, made, deployment.machine, gen);
      }
      ok := Check(gen, cur, sent, refused, total);
    }

    /**
     A whole rebuild. It succeeds exactly when it came to promote and to save and none of its calls answered an error; it
     fails without one only at the gate. Without the lock it neither promotes nor saves. Alone with a source
     that keeps still it fills the new generation with exactly the listing, points the alias at it, and fails only where
     the cursor cannot be stored.
     */
    method Run(gen: Gen) returns (ok: bool)
      requires deployment.Valid() && PcOf(deployment.machine, pid).Idle? && pageSize > 0
      modifies deployment, deployment.index, deployment.checkpoint
      ensures deployment.Ran() && PcOf(deployment.machine, pid).Idle?
      ensures ok <==> deployment.failed == old(deployment.failed) && deployment.moves == old(deployment.moves) + 2
      ensures !ok && deployment.failed == old(deployment.failed) ==> deployment.moves == old(deployment.moves)
      ensures ok ==> deployment.held == old(deployment.held) + 1
      ensures old(deployment.held) <= deployment.held <= old(deployment.held) + 1
      ensures deployment.held - old(deployment.held) == deployment.released - old(deployment.released)
      ensures deployment.held == old(deployment.held) ==> !ok && deployment.moves == old(deployment.moves)
      ensures forall id :: Missing(deployment.machine, id) ==>
                InGap(deployment.machine.gap, Key(deployment.machine.source, id))
      ensures var s := old(deployment.machine);
              old(deployment.script) == [] && gen in s.gens ==> !ok && deployment.LeavesAll()
      ensures var s, s' := old(deployment.machine), deployment.machine;
              old(deployment.script) == [] && gen !in s.gens && s.holder.None? ==>
                && s'.gens == s.gens[gen := Listing(s.source)]
                && (ok ==> IsEnd(s.source, START, s'.saved)) && (!ok ==> s'.saved == s.saved)
                && if deployment.countable && !Gate.StartsBelow(s.source) then !ok && s'.alias == s.alias
                   else s'.alias == Some(gen) && (ok <==> Gate.FitsTheCheckpoint(s.source))
    {
      ghost var s := deployment.machine;
      var cur;
      ok, cur := Rebuild(gen);
      if ok {
        if IsEnd(s.source, START, Place(cur)) {
          Gate.TheEndFits(s.source, Place(cur));
        }
        ok := Finish(gen, cur);
      }
      deployment.Agrees();
    }
  }
}
