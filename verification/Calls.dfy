/** What each call changes of what the systems hold, one program counter at a time. */
module Calls {
  import opened Positions
  import opened Options
  import opened Protocol
  import opened Indexes

  lemma CreationStep(s: State, p: Pid, gen: Gen, fate: Fate)
    requires PcOf(s, p).Idle?
    ensures var s' := Step(s, StartReindex(p, gen, fate));
            && s'.countable == s.countable && s'.source == s.source && s'.holder == s.holder
            && s'.alias == s.alias && s'.saved == s.saved
            && s'.gens == (if gen !in s.gens && (fate.Done? || fate.applied) then s.gens[gen := map[]] else s.gens)
            && PcOf(s', p) == if gen !in s.gens && fate.Done? then Created(gen) else Idle
  {
  }

  lemma CreatedStep(s: State, p: Pid, fate: Fate)
    requires PcOf(s, p).Created? && s.countable
    ensures var s', pc := Step(s, Call(p, fate, START)), PcOf(s, p);
            && s'.countable == s.countable && s'.source == s.source && s'.holder == s.holder
            && s'.gens == s.gens && s'.alias == s.alias && s'.saved == s.saved
            && PcOf(s', p) == if fate.Done? then Walking(pc.gen, START, Tally(0, 0, |Alive(s.source)|), Begun(Alive(s.source)))
                              else Idle
  {
  }

  lemma PromotedStep(s: State, p: Pid, fate: Fate, next: Position)
    requires PcOf(s, p).Promoted?
    ensures var s' := Step(s, Call(p, fate, next));
            && s'.countable == s.countable && s'.source == s.source && s'.holder == s.holder
            && s'.gens == s.gens && s'.alias == s.alias && PcOf(s', p).Releasing?
            && s'.saved == if (fate.Done? || fate.applied) && Storable(PcOf(s, p).cur) then PcOf(s, p).cur else s.saved
  {
  }

  lemma PagedStep(s: State, p: Pid, landed: Content, fate: Fate)
    requires PcOf(s, p).Paged? && PcOf(s, p).gen in s.gens
    requires PcOf(s, p).page.upserted != map[]
    requires landed == if fate.Done? then PcOf(s, p).page.upserted else Part(PcOf(s, p).page.upserted, fate.landed)
    ensures var s', pc := Step(s, Call(p, fate, START)), PcOf(s, p);
            && s'.countable == s.countable && s'.source == s.source && s'.holder == s.holder
            && s'.alias == s.alias && s'.saved == s.saved
            && s'.gens == Filled(s.gens, Some(pc.gen), landed)
            && PcOf(s', p) == if fate.Done? then Onward(pc.gen, pc.page, pc.tally, pc.walk) else Idle
  {
  }

  lemma SyncPagedStep(s: State, p: Pid, landed: Content, fate: Fate)
    requires PcOf(s, p).SyncPaged? && PcOf(s, p).page.upserted != map[]
    requires landed == if fate.Done? then PcOf(s, p).page.upserted else Part(PcOf(s, p).page.upserted, fate.landed)
    ensures var s', pc := Step(s, Call(p, fate, START)), PcOf(s, p);
            var there := pc.live.Some? && pc.live.value in s.gens;
            && s'.countable == s.countable && s'.source == s.source && s'.holder == s.holder
            && s'.alias == s.alias && s'.saved == s.saved
            && s'.gens == Filled(s.gens, pc.live, landed)
            && PcOf(s', p) == if there && fate.Done? then SyncBulked(pc.live, pc.cur, pc.page) else Releasing
  {
  }

  lemma GatedStep(s: State, p: Pid, fate: Fate)
    requires PcOf(s, p).Gated? && (s.holder.None? || fate.Lost?)
    ensures var s', pc := Step(s, Call(p, fate, START)), PcOf(s, p);
            && s'.countable == s.countable && s'.source == s.source && s'.gens == s.gens
            && s'.alias == s.alias && s'.saved == s.saved
            && s'.holder == (if fate.Done? then Some(p) else s.holder)
            && PcOf(s', p) == if fate.Done? then ReindexHeld(pc.gen, pc.cur, pc.walk) else Idle
  {
  }

  lemma SyncBulkedStep(s: State, p: Pid, gone: set<Id>, fate: Fate)
    requires PcOf(s, p).SyncBulked? && PcOf(s, p).page.removed != {}
    requires gone == if fate.Done? then PcOf(s, p).page.removed else PcOf(s, p).page.removed * fate.landed
    ensures var s', pc := Step(s, Call(p, fate, START)), PcOf(s, p);
            && s'.countable == s.countable && s'.source == s.source && s'.holder == s.holder
            && s'.alias == s.alias && s'.saved == s.saved
            && s'.gens == Emptied(s.gens, pc.live, gone)
            && PcOf(s', p) == if fate.Done? then SyncRemoved(pc.live, pc.cur, pc.page) else Releasing
  {
  }

  lemma SyncRemovedStep(s: State, p: Pid, fate: Fate)
    requires PcOf(s, p).SyncRemoved?
    ensures var s', pc := Step(s, Call(p, fate, START)), PcOf(s, p);
            && s'.countable == s.countable && s'.source == s.source && s'.holder == s.holder
            && s'.gens == s.gens && s'.alias == s.alias
            && s'.saved == (if (fate.Done? || fate.applied) && Storable(pc.page.next) then pc.page.next else s.saved)
            && PcOf(s', p) == if fate.Done? && Storable(pc.page.next) && pc.page.more
                              then SyncReady(pc.live, pc.page.next) else Releasing
  {
  }

  lemma WalkedStep(s: State, p: Pid, fate: Fate)
    requires PcOf(s, p).Walked? && PcOf(s, p).gen in s.gens
    ensures var s', pc := Step(s, Call(p, fate, START)), PcOf(s, p);
            && s'.countable == s.countable && s'.source == s.source && s'.holder == s.holder
            && s'.gens == s.gens && s'.alias == s.alias && s'.saved == s.saved
            && PcOf(s', p) == if fate.Done? && |s.gens[pc.gen]| >= Expected(s.countable, pc.tally)
                              then Gated(pc.gen, pc.cur, pc.walk) else Idle
  {
  }

  lemma ReindexHeldStep(s: State, p: Pid, fate: Fate)
    requires PcOf(s, p).ReindexHeld?
    ensures var s', pc := Step(s, Call(p, fate, START)), PcOf(s, p);
            && s'.countable == s.countable && s'.source == s.source && s'.holder == s.holder
            && s'.gens == s.gens && s'.saved == s.saved
            && s'.alias == (if fate.Done? || fate.applied then Some(pc.gen) else s.alias)
            && PcOf(s', p) == if fate.Done? then Promoted(pc.gen, pc.cur) else Releasing
  {
  }

  lemma ReleasingStep(s: State, p: Pid)
    requires PcOf(s, p).Releasing?
    ensures var s' := Step(s, Call(p, Done, START));
            && s'.countable == s.countable && s'.source == s.source
            && s'.gens == s.gens && s'.alias == s.alias && s'.saved == s.saved
            && s'.holder == (if s.holder == Some(p) then None else s.holder) && PcOf(s', p).Idle?
  {
  }

  lemma ServedStep(s: State, p: Pid, fate: Fate, next: Position)
    requires PcOf(s, p).SyncReady? || PcOf(s, p).Walking?
    requires Serves(s.source, PcOf(s, p).cur, next)
    ensures var s', pc := Step(s, Call(p, fate, next)), PcOf(s, p);
            var page := PageOf(s.source, pc.cur, next);
            && s'.countable == s.countable && s'.source == s.source && s'.holder == s.holder
            && s'.gens == s.gens && s'.alias == s.alias && s'.saved == s.saved
            && (pc.SyncReady? ==>
                  PcOf(s', p) == if fate.Done? then SyncPaged(pc.live, pc.cur, page) else Releasing)
            && (pc.Walking? ==>
                  PcOf(s', p) == if fate.Done? then Paged(pc.gen, pc.cur, page, pc.tally, pc.walk) else Idle)
  {
  }
}
