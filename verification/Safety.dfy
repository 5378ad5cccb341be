/** The invariant of the protocol: every action keeps it, so it holds in every state of every interleaving. */
module Safety {
  import opened Positions
  import opened Options
  import opened Protocol

  // ---- what is being kept ----

  /** Every wanted record at or before `to` is in the content, in its current version. */
  ghost predicate Covers(t: Table, content: Content, to: Position) {
    forall id | id in t && Wanted(t, id) && AtMost(Key(t, id), to) :: id in content && content[id] == t[id].doc
  }

  ghost predicate InGap(gap: Gap, k: Position) {
    gap.Open? && Below(gap.low, k) && AtMost(k, gap.high)
  }

  ghost predicate CoversOutside(t: Table, content: Content, to: Position, gap: Gap) {
    forall id | id in t && Wanted(t, id) && AtMost(Key(t, id), to) && !InGap(gap, Key(t, id)) ::
      id in content && content[id] == t[id].doc
  }

  predicate Untouched(before: Content, content: Content, id: Id) {
    (id in before <==> id in content) && (id in before ==> before[id] == content[id])
  }

  /** How far the live generation is still exactly what the promoted walk built. */
  function Frontier(gap: Gap, walkEnd: Position): Position {
    if gap.Open? then gap.high else walkEnd
  }

  /** Up to there, whatever the walk built stays as it built it, and what it did not build stays away. */
  ghost predicate AsBuilt(t: Table, content: Content, built: Content, to: Position) {
    forall id | id in t && AtMost(Key(t, id), to) :: Untouched(built, content, id)
  }

  /** Beyond it a tombstone the cursor has passed is gone. */
  ghost predicate GoneBeyond(t: Table, content: Content, from: Position, to: Position) {
    forall id | id in t && !t[id].alive && Below(from, Key(t, id)) && AtMost(Key(t, id), to) :: id !in content
  }

  /** The tombstones of what the walk built that lie at or before its end were handed to it. */
  ghost predicate Skips(t: Table, walk: Walk, walkEnd: Position) {
    forall id | id in t && !t[id].alive && AtMost(Key(t, id), walkEnd) && id in walk.built :: id in walk.skipped
  }

  /** A page in flight: since it was served, records only moved beyond its end. */
  ghost predicate PageHolds(t: Table, cur: Position, page: Page) {
    && Carries(t, cur, page)
    && (forall id | id in page.upserted :: id in t && Below(cur, Key(t, id))
          && (AtMost(Key(t, id), page.next) ==> Wanted(t, id) && t[id].doc == page.upserted[id]))
    && (forall id | id in page.removed :: id in t && Below(cur, Key(t, id))
          && (AtMost(Key(t, id), page.next) ==> !t[id].alive))
    && AtMost(cur, page.next)
    && page.upserted.Keys !! page.removed
  }

  ghost predicate Carries(t: Table, cur: Position, page: Page) {
    forall id | id in t && Within(t, id, cur, page.next) ::
      (Wanted(t, id) ==> id in page.upserted) && (!t[id].alive ==> id in page.removed)
  }

  ghost predicate Landed(content: Content, docs: Content) {
    forall id | id in docs :: id in content && content[id] == docs[id]
  }

  predicate Holding(pc: Pc) {
    pc.SyncHeld? || pc.SyncLoaded? || pc.SyncReady? || pc.SyncPaged? || pc.SyncBulked? || pc.SyncRemoved?
    || pc.ReindexHeld? || pc.Promoted? || pc.Releasing?
  }

  /** The generation a reindex is building and has not promoted. */
  function Building(pc: Pc): Option<Gen> {
    match pc
    case Created(gen) => Some(gen)
    case Walking(gen, _, _, _) => Some(gen)
    case Paged(gen, _, _, _, _) => Some(gen)
    case Walked(gen, _, _, _) => Some(gen)
    case Gated(gen, _, _) => Some(gen)
    case ReindexHeld(gen, _, _) => Some(gen)
    case _ => None
  }

  ghost predicate WalkHolds(t: Table, content: Content, cur: Position, walk: Walk) {
    Covers(t, content, cur) && content == walk.built && content.Keys <= t.Keys && Skips(t, walk, cur)
  }

  /** What was sent is what was built, unless something was sent again. */
  ghost predicate TallyHolds(tally: Tally, walk: Walk) {
    && tally.total == |walk.counted|
    && tally.sent >= |walk.built| + |walk.again|
    && (walk.again == {} ==> tally.sent == |walk.built|)
  }

  ghost predicate SyncHolds(s: State, live: Option<Gen>, cur: Position) {
    live == s.alias && cur == s.saved
  }

  ghost predicate PcHolds(s: State, pc: Pc) {
    match pc
    case SyncLoaded(cur) => cur == s.saved
    case SyncReady(live, cur) => SyncHolds(s, live, cur)
    case SyncPaged(live, cur, page) =>
      SyncHolds(s, live, cur) && PageHolds(s.source, cur, page) && AtMost(page.next, s.served)
    case SyncBulked(live, cur, page) =>
      SyncHolds(s, live, cur) && PageHolds(s.source, cur, page) && AtMost(page.next, s.served)
      && Landed(LiveContent(s), page.upserted)
    case SyncRemoved(live, cur, page) =>
      SyncHolds(s, live, cur) && PageHolds(s.source, cur, page) && AtMost(page.next, s.served)
      && Landed(LiveContent(s), page.upserted) && LiveContent(s).Keys !! page.removed
    case Created(gen) => gen in s.gens && s.gens[gen] == map[]
    case Walking(gen, cur, tally, walk) =>
      gen in s.gens && WalkHolds(s.source, s.gens[gen], cur, walk) && AtMost(cur, s.served) && TallyHolds(tally, walk)
    case Paged(gen, cur, page, tally, walk) =>
      TallyHolds(tally, walk) && gen in s.gens && WalkHolds(s.source, s.gens[gen], cur, walk) && AtMost(cur, s.served)
      && PageHolds(s.source, cur, page) && AtMost(page.next, s.served)
    case Walked(gen, cur, tally, walk) =>
      gen in s.gens && WalkHolds(s.source, s.gens[gen], cur, walk) && AtMost(cur, s.served) && TallyHolds(tally, walk)
    case Gated(gen, cur, walk) =>
      gen in s.gens && WalkHolds(s.source, s.gens[gen], cur, walk) && AtMost(cur, s.served)
    case ReindexHeld(gen, cur, walk) =>
      gen in s.gens && WalkHolds(s.source, s.gens[gen], cur, walk) && AtMost(cur, s.served)
    case Promoted(gen, cur) =>
      s.alias == Some(gen) && gen in s.gens && s.walkEnd == cur && s.gap.Open?
      && WalkHolds(s.source, s.gens[gen], cur, s.walk)
    case _ => true
  }

  ghost predicate Exclusive(s: State) {
    forall p: Pid :: Holding(PcOf(s, p)) <==> s.holder == Some(p)
  }

  ghost predicate Separate(s: State) {
    && s.promoted <= s.gens.Keys
    && (s.alias.Some? ==> s.alias.value in s.promoted)
    && (forall p: Pid :: Building(PcOf(s, p)).Some? ==>
                      Building(PcOf(s, p)).value in s.gens && Building(PcOf(s, p)).value !in s.promoted)
    && (forall p: Pid, q: Pid :: p != q && Building(PcOf(s, p)).Some? ==> Building(PcOf(s, p)) != Building(PcOf(s, q)))
  }

  ghost predicate Bounded(s: State) {
    && AtMost(s.saved, s.served)
    && AtMost(s.walkEnd, s.served)
    && (s.gap.Open? ==> AtMost(s.gap.high, s.served) && s.gap.low == s.walkEnd && AtMost(s.gap.high, s.saved))
    && (s.gap.Closed? ==> AtMost(s.walkEnd, s.saved))
  }

  ghost predicate LiveHolds(s: State) {
    && CoversOutside(s.source, LiveContent(s), s.saved, s.gap)
    && LiveContent(s).Keys <= s.source.Keys
    && AsBuilt(s.source, LiveContent(s), s.walk.built, Frontier(s.gap, s.walkEnd))
    && GoneBeyond(s.source, LiveContent(s), Frontier(s.gap, s.walkEnd), s.saved)
    && Skips(s.source, s.walk, s.walkEnd)
  }

  ghost predicate Inv(s: State) {
    && Exclusive(s)
    && Separate(s)
    && Bounded(s)
    && LiveHolds(s)
    && (forall p: Pid :: PcHolds(s, PcOf(s, p)))
  }

  // ---- frames: what a step leaves alone ----

  /** A step by `p` that keeps every other process's generation keeps what every other process relies on. */
  lemma OthersKeep(s: State, s': State, p: Pid)
    requires Inv(s)
    requires s'.source == s.source && AtMost(s.served, s'.served)
    requires forall q: Pid :: q != p ==> PcOf(s', q) == PcOf(s, q)
    requires forall q: Pid :: q != p && Building(PcOf(s, q)).Some? ==>
               var g := Building(PcOf(s, q)).value; g in s'.gens && s'.gens[g] == s.gens[g]
    requires s.holder == Some(p)
             || (s'.alias == s.alias && s'.saved == s.saved && LiveContent(s') == LiveContent(s) && s'.gap == s.gap
                 && s'.walk == s.walk && s'.walkEnd == s.walkEnd && s.gens.Keys <= s'.gens.Keys
                 && (s.alias.Some? && s.alias.value in s.gens ==> s'.gens[s.alias.value] == s.gens[s.alias.value]))
    ensures forall q: Pid :: q != p ==> PcHolds(s', PcOf(s', q))
  {
    hide Covers, Skips, PageHolds, CoversOutside, AsBuilt, GoneBeyond, TallyHolds;
    PositionsAreLinear();
    forall q: Pid | q != p ensures PcHolds(s', PcOf(s', q)) {
      assert PcHolds(s, PcOf(s, q));
      assert Holding(PcOf(s, q)) <==> s.holder == Some(q);
    }
  }

  lemma ChangeKeepsPage(t: Table, cur: Position, page: Page, served: Position, id: Id, record: Record)
    requires PageHolds(t, cur, page) && AtMost(page.next, served) && Below(served, Position(record.txn, id))
    ensures PageHolds(t[id := record], cur, page)
  {
    PositionsAreLinear();
    assert Key(t[id := record], id) == Position(record.txn, id);
    assert forall i | i in t && i != id :: Key(t[id := record], i) == Key(t, i);
  }

  lemma ChangeKeepsWalk(t: Table, content: Content, cur: Position, walk: Walk, served: Position, id: Id, record: Record)
    requires WalkHolds(t, content, cur, walk) && AtMost(cur, served) && Below(served, Position(record.txn, id))
    ensures WalkHolds(t[id := record], content, cur, walk)
  {
    PositionsAreLinear();
    assert Key(t[id := record], id) == Position(record.txn, id);
    assert forall i | i in t && i != id :: Key(t[id := record], i) == Key(t, i);
  }

  lemma ChangeKeepsLive(s: State, id: Id, record: Record)
    requires Inv(s) && Below(s.served, Position(record.txn, id))
    ensures LiveHolds(s.(source := s.source[id := record]))
  {
    PositionsAreLinear();
    var t := s.source[id := record];
    assert Key(t, id) == Position(record.txn, id);
    assert forall i | i in s.source && i != id :: Key(t, i) == Key(s.source, i);
  }

  lemma ChangeKeeps(s: State, id: Id, record: Record)
    requires Inv(s)
    ensures Inv(Step(s, Change(id, record)))
  {
    if Below(s.served, Position(record.txn, id)) {
      var s' := s.(source := s.source[id := record]);
      ChangeKeepsLive(s, id, record);
      forall p: Pid ensures PcOf(s', p) == PcOf(s, p) && PcHolds(s', PcOf(s', p)) {
        var pc := PcOf(s, p);
        assert PcHolds(s, pc);
        assert LiveContent(s') == LiveContent(s);
        match pc
        case SyncPaged(_, cur, page) => ChangeKeepsPage(s.source, cur, page, s.served, id, record);
        case SyncBulked(_, cur, page) => ChangeKeepsPage(s.source, cur, page, s.served, id, record);
        case SyncRemoved(_, cur, page) => ChangeKeepsPage(s.source, cur, page, s.served, id, record);
        case Walking(gen, cur, _, walk) => ChangeKeepsWalk(s.source, s.gens[gen], cur, walk, s.served, id, record);
        case Paged(gen, cur, page, _, walk) =>
          ChangeKeepsWalk(s.source, s.gens[gen], cur, walk, s.served, id, record);
          ChangeKeepsPage(s.source, cur, page, s.served, id, record);
        case Walked(gen, cur, _, walk) => ChangeKeepsWalk(s.source, s.gens[gen], cur, walk, s.served, id, record);
        case Gated(gen, cur, walk) => ChangeKeepsWalk(s.source, s.gens[gen], cur, walk, s.served, id, record);
        case ReindexHeld(gen, cur, walk) => ChangeKeepsWalk(s.source, s.gens[gen], cur, walk, s.served, id, record);
        case Promoted(gen, cur) => ChangeKeepsWalk(s.source, s.gens[gen], cur, s.walk, s.served, id, record);
        case _ =>
      }
    }
  }

  /** What the live generation promises depends on nothing a process does in its own generation. */
  lemma LiveStaysTrue(s: State, s': State)
    requires LiveHolds(s) && LiveContent(s') == LiveContent(s)
    requires s'.source == s.source && s'.saved == s.saved && s'.gap == s.gap
    requires s'.walk == s.walk && s'.walkEnd == s.walkEnd
    ensures LiveHolds(s')
  {
    hide CoversOutside, AsBuilt, GoneBeyond, Skips, LiveContent;
  }

  /** Moving only `p`'s counter, between counters that agree about the lock and keep or drop a generation. */
  lemma MoveKeeps(s: State, p: Pid, pc: Pc)
    requires Inv(s)
    requires Holding(pc) == Holding(PcOf(s, p))
    requires Building(pc) == Building(PcOf(s, p)) || Building(pc).None?
    requires PcHolds(s, pc)
    ensures Inv(At(s, p, pc))
  {
    hide LiveHolds;
    var s' := At(s, p, pc);
    OthersKeep(s, s', p);
    LiveStaysTrue(s, s');
    assert PcHolds(s', pc);
  }

  lemma FreedKeeps(s: State, p: Pid)
    requires Inv(s)
    ensures Inv(At(Freed(s, p), p, Idle))
  {
    hide LiveHolds, PageHolds, WalkHolds, TallyHolds;
    var s' := At(Freed(s, p), p, Idle);
    assert Holding(PcOf(s, p)) <==> s.holder == Some(p);
    OthersKeep(s, s', p);
    LiveStaysTrue(s, s');
  }

  lemma TakeKeeps(s: State, p: Pid, pc: Pc)
    requires Inv(s) && s.holder.None?
    requires Holding(pc) && !Holding(PcOf(s, p))
    requires Building(pc) == Building(PcOf(s, p))
    requires PcHolds(s, pc)
    ensures Inv(At(s.(holder := Some(p)), p, pc))
  {
    hide LiveHolds;
    var s' := At(s.(holder := Some(p)), p, pc);
    OthersKeep(s, s', p);
    LiveStaysTrue(s, s');
    assert PcHolds(s', pc);
  }

  /** A fresh generation belongs to nobody else. */
  lemma CreationKeeps(s: State, p: Pid, gen: Gen)
    requires Inv(s) && gen !in s.gens && PcOf(s, p).Idle?
    ensures Inv(At(s.(gens := s.gens[gen := map[]]), p, Created(gen)))
  {
    hide LiveHolds, PageHolds, WalkHolds, TallyHolds;
    var s' := At(s.(gens := s.gens[gen := map[]]), p, Created(gen));
    assert LiveContent(s') == LiveContent(s);
    OthersKeep(s, s', p);
    LiveStaysTrue(s, s');
    assert PcHolds(s', Created(gen));
  }

  lemma OrphanKeeps(s: State, p: Pid, gen: Gen)
    requires Inv(s) && gen !in s.gens && PcOf(s, p).Idle?
    ensures Inv(s.(gens := s.gens[gen := map[]]))
  {
    hide LiveHolds, PageHolds, WalkHolds, TallyHolds;
    var s' := s.(gens := s.gens[gen := map[]]);
    assert LiveContent(s') == LiveContent(s);
    OthersKeep(s, s', p);
    LiveStaysTrue(s, s');
    assert PcHolds(s', Idle);
  }

  lemma StartReindexKeeps(s: State, p: Pid, gen: Gen, fate: Fate)
    requires Inv(s)
    ensures Inv(Step(s, StartReindex(p, gen, fate)))
  {
    hide Inv;
    if PcOf(s, p).Idle? && gen !in s.gens {
      OrphanKeeps(s, p, gen);
      CreationKeeps(s, p, gen);
    }
  }

  // ---- the source answers ----

  lemma FreshPageHolds(t: Table, cur: Position, next: Position)
    requires Serves(t, cur, next)
    ensures PageHolds(t, cur, PageOf(t, cur, next))
  {
    PositionsAreLinear();
  }

  lemma ServeKeeps(s: State, p: Pid, next: Position, pc: Pc)
    requires Inv(s)
    requires Holding(pc) == Holding(PcOf(s, p)) && Building(pc) == Building(PcOf(s, p))
    requires PcHolds(Serve(s, next), pc)
    ensures Inv(At(Serve(s, next), p, pc))
  {
    hide LiveHolds, PageHolds, WalkHolds, TallyHolds;
    PositionsAreLinear();
    var s' := At(Serve(s, next), p, pc);
    OthersKeep(s, s', p);
    LiveStaysTrue(s, s');
  }

  // ---- sync writes, holding the collection ----

  /** Writing ids a page moved beyond the cursor keeps everything promised at or before the cursor. */
  lemma WritesBeyondKeepLive(s: State, s': State, cur: Position, page: Page)
    requires Inv(s) && s.saved == cur && PageHolds(s.source, cur, page)
    requires s'.source == s.source && s'.saved == s.saved && s'.gap == s.gap
    requires s'.walk == s.walk && s'.walkEnd == s.walkEnd
    requires forall id | id !in page.upserted && id !in page.removed ::
               (id in LiveContent(s') <==> id in LiveContent(s))
               && (id in LiveContent(s) ==> LiveContent(s')[id] == LiveContent(s)[id])
    ensures LiveHolds(s')
  {
    PositionsAreLinear();
  }

  lemma SyncPutKeeps(s: State, p: Pid, docs: Content, pc: Pc)
    requires Inv(s) && PcOf(s, p).SyncPaged?
    requires s.alias.Some? && s.alias.value in s.gens
    requires forall id | id in docs :: id in PcOf(s, p).page.upserted
    requires pc.Releasing? || (docs == PcOf(s, p).page.upserted && pc == SyncBulked(s.alias, s.saved, PcOf(s, p).page))
    ensures Inv(At(Put(s, s.alias.value, docs), p, pc))
  {
    var page := PcOf(s, p).page;
    assert PcHolds(s, PcOf(s, p));
    var s' := At(Put(s, s.alias.value, docs), p, pc);
    assert LiveContent(s') == LiveContent(s) + docs;
    WritesBeyondKeepLive(s, s', s.saved, page);
    OthersKeep(s, s', p);
    assert PcHolds(s', pc);
  }

  lemma CutKeeps(s: State, s': State, p: Pid, gone: set<Id>, pc: Pc)
    requires Inv(s) && PcOf(s, p).SyncBulked? && gone <= PcOf(s, p).page.removed
    requires pc.Releasing? || (gone == PcOf(s, p).page.removed && pc == SyncRemoved(s.alias, s.saved, PcOf(s, p).page))
    requires s.alias.Some? && s' == At(Cut(s, s.alias.value, gone), p, pc)
    ensures Inv(s')
  {
    var page := PcOf(s, p).page;
    assert PcHolds(s, PcOf(s, p));
    assert LiveContent(s') == LiveContent(s) - gone;
    WritesBeyondKeepLive(s, s', s.saved, page);
    OthersKeep(s, s', p);
    assert PcHolds(s', pc);
  }

  lemma NothingCutKeeps(s: State, p: Pid, pc: Pc)
    requires Inv(s) && PcOf(s, p).SyncBulked? && s.alias.None?
    requires pc.Releasing? || pc == SyncRemoved(s.alias, s.saved, PcOf(s, p).page)
    ensures Inv(At(s, p, pc))
  {
    var s' := At(s, p, pc);
    assert PcHolds(s, PcOf(s, p));
    assert LiveContent(s') == LiveContent(s) == map[];
    OthersKeep(s, s', p);
    assert PcHolds(s', pc);
  }

  lemma SyncCutKeeps(s: State, p: Pid, gone: set<Id>, pc: Pc)
    requires Inv(s) && PcOf(s, p).SyncBulked?
    requires gone <= PcOf(s, p).page.removed
    requires pc.Releasing? || (gone == PcOf(s, p).page.removed && pc == SyncRemoved(s.alias, s.saved, PcOf(s, p).page))
    ensures Inv(At(if s.alias.Some? then Cut(s, s.alias.value, gone) else s, p, pc))
  {
    if s.alias.Some? {
      CutKeeps(s, At(Cut(s, s.alias.value, gone), p, pc), p, gone, pc);
    } else {
      NothingCutKeeps(s, p, pc);
    }
  }

  /** The cursor moves only after the whole page landed, so the promise extends to the page's end. */
  lemma SavedPageExtendsLive(s: State, cur: Position, page: Page)
    requires Inv(s) && s.saved == cur && PageHolds(s.source, cur, page)
    requires Landed(LiveContent(s), page.upserted) && LiveContent(s).Keys !! page.removed
    ensures LiveHolds(s.(saved := page.next))
  {
    PositionsAreLinear();
    assert forall id | id in s.source && AtMost(Key(s.source, id), page.next) ::
        AtMost(Key(s.source, id), cur) || Within(s.source, id, cur, page.next);
  }

  lemma SyncStoreKeeps(s: State, p: Pid, pc: Pc)
    requires Inv(s) && PcOf(s, p).SyncRemoved?
    requires pc.Releasing? || pc == SyncReady(s.alias, PcOf(s, p).page.next)
    requires pc.SyncReady? ==> Storable(PcOf(s, p).page.next)
    ensures Inv(At(Store(s, PcOf(s, p).page.next), p, pc))
  {
    PositionsAreLinear();
    var page := PcOf(s, p).page;
    assert PcHolds(s, PcOf(s, p));
    var s' := At(Store(s, page.next), p, pc);
    SavedPageExtendsLive(s, s.saved, page);
    assert LiveContent(s') == LiveContent(s);
    OthersKeep(s, s', p);
    assert PcHolds(s', pc);
  }

  lemma SyncReadKeeps(s: State, p: Pid, fate: Fate, next: Position)
    requires Inv(s)
    requires var pc := PcOf(s, p); pc.SyncHeld? || pc.SyncLoaded? || pc.SyncReady?
    ensures Inv(SyncCall(s, p, fate, next))
  {
    hide LiveHolds, Separate, Exclusive;
    assert PcHolds(s, PcOf(s, p));
    match PcOf(s, p)
    case SyncHeld => MoveKeeps(s, p, if fate.Done? then SyncLoaded(s.saved) else Releasing);
    case SyncLoaded(cur) => MoveKeeps(s, p, if fate.Done? then SyncReady(s.alias, cur) else Releasing);
    case SyncReady(live, cur) =>
      if fate.Lost? {
        MoveKeeps(s, p, Releasing);
      } else if Serves(s.source, cur, next) {
        PositionsAreLinear();
        FreshPageHolds(s.source, cur, next);
        ServeKeeps(s, p, next, SyncPaged(live, cur, PageOf(s.source, cur, next)));
      }
  }

  lemma SyncWriteKeeps(s: State, p: Pid, fate: Fate, next: Position)
    requires Inv(s)
    requires var pc := PcOf(s, p); pc.SyncPaged? || pc.SyncBulked? || pc.SyncRemoved?
    ensures Inv(SyncCall(s, p, fate, next))
  {
    hide LiveHolds, Separate, Exclusive;
    assert PcHolds(s, PcOf(s, p));
    match PcOf(s, p)
    case SyncPaged(live, cur, page) =>
      if page.upserted == map[] {
        MoveKeeps(s, p, SyncBulked(live, cur, page));
      } else if live.None? || live.value !in s.gens {
        MoveKeeps(s, p, Releasing);
      } else if fate.Done? {
        SyncPutKeeps(s, p, page.upserted, SyncBulked(live, cur, page));
      } else {
        SyncPutKeeps(s, p, Part(page.upserted, fate.landed), Releasing);
      }
    case SyncBulked(live, cur, page) =>
      if page.removed == {} {
        MoveKeeps(s, p, SyncRemoved(live, cur, page));
      } else if fate.Done? {
        SyncCutKeeps(s, p, page.removed, SyncRemoved(live, cur, page));
      } else {
        SyncCutKeeps(s, p, page.removed * fate.landed, Releasing);
      }
    case SyncRemoved(live, cur, page) =>
      if fate.Done? && Storable(page.next) {
        SyncStoreKeeps(s, p, if page.more then SyncReady(live, page.next) else Releasing);
      } else if fate.Lost? && fate.applied {
        SyncStoreKeeps(s, p, Releasing);
      } else {
        MoveKeeps(s, p, Releasing);
      }
  }

  lemma SyncCallKeeps(s: State, p: Pid, fate: Fate, next: Position)
    requires Inv(s)
    requires var pc := PcOf(s, p);
             pc.SyncHeld? || pc.SyncLoaded? || pc.SyncReady? || pc.SyncPaged? || pc.SyncBulked? || pc.SyncRemoved?
    ensures Inv(SyncCall(s, p, fate, next))
  {
    hide SyncCall, Inv;
    if PcOf(s, p).SyncPaged? || PcOf(s, p).SyncBulked? || PcOf(s, p).SyncRemoved? {
      SyncWriteKeeps(s, p, fate, next);
    } else {
      SyncReadKeeps(s, p, fate, next);
    }
  }

  // ---- the reindex walk, beside the live generation ----

  lemma WalkExtends(t: Table, content: Content, cur: Position, walk: Walk, page: Page)
    requires WalkHolds(t, content, cur, walk) && PageHolds(t, cur, page)
    ensures WalkHolds(t, content + page.upserted, page.next, Extended(walk, page))
  {
    PositionsAreLinear();
    assert forall id | id in t && AtMost(Key(t, id), page.next) ::
        AtMost(Key(t, id), cur) || Within(t, id, cur, page.next);
  }

  lemma TallyExtends(tally: Tally, walk: Walk, page: Page)
    requires TallyHolds(tally, walk)
    ensures TallyHolds(Counted(tally, page), Extended(walk, page))
  {
    var built, sent := walk.built.Keys, page.upserted.Keys;
    var walk' := Extended(walk, page);
    assert walk'.built.Keys == built + sent;
    assert |walk'.built.Keys| == |built| + |sent| - |built * sent|;
    assert |walk'.again| <= |walk.again| + |built * sent|;
  }

  lemma BuildPutKeeps(s: State, p: Pid, docs: Content, pc: Pc)
    requires Inv(s) && PcOf(s, p).Paged?
    requires !Holding(pc)
    requires Building(pc) == Building(PcOf(s, p)) || Building(pc).None?
    requires PcHolds(Put(s, PcOf(s, p).gen, docs), pc)
    ensures Inv(At(Put(s, PcOf(s, p).gen, docs), p, pc))
  {
    hide LiveHolds, Covers, Skips, PageHolds, TallyHolds;
    var s' := At(Put(s, PcOf(s, p).gen, docs), p, pc);
    assert LiveContent(s') == LiveContent(s);
    OthersKeep(s, s', p);
    LiveStaysTrue(s, s');
    assert PcHolds(s', pc);
  }

  // ---- promotion, holding the collection ----

  lemma SwitchKeeps(s: State, p: Pid, pc: Pc)
    requires Inv(s) && PcOf(s, p).ReindexHeld?
    requires pc.Releasing? || pc == Promoted(PcOf(s, p).gen, PcOf(s, p).cur)
    ensures Inv(At(Switch(s, PcOf(s, p).gen, PcOf(s, p).cur, PcOf(s, p).walk), p, pc))
  {
    PositionsAreLinear();
    var gen, cur, walk := PcOf(s, p).gen, PcOf(s, p).cur, PcOf(s, p).walk;
    assert PcHolds(s, PcOf(s, p));
    var s' := At(Switch(s, gen, cur, walk), p, pc);
    assert LiveContent(s') == s.gens[gen];
    OthersKeep(s, s', p);
    assert PcHolds(s', pc);
  }

  lemma CloseKeeps(s: State, p: Pid)
    requires Inv(s) && PcOf(s, p).Promoted? && Storable(PcOf(s, p).cur)
    ensures Inv(At(Store(s, PcOf(s, p).cur).(gap := Closed), p, Releasing))
  {
    PositionsAreLinear();
    assert PcHolds(s, PcOf(s, p));
    var s' := At(Store(s, PcOf(s, p).cur).(gap := Closed), p, Releasing);
    assert LiveContent(s') == LiveContent(s);
    OthersKeep(s, s', p);
  }

  lemma WalkingKeeps(s: State, p: Pid, fate: Fate, next: Position)
    requires Inv(s) && PcOf(s, p).Walking?
    ensures Inv(ReindexCall(s, p, fate, next))
  {
    var Walking(gen, cur, tally, walk) := PcOf(s, p);
    assert PcHolds(s, PcOf(s, p));
    if fate.Lost? {
      MoveKeeps(s, p, Idle);
    } else if Serves(s.source, cur, next) {
      PositionsAreLinear();
      FreshPageHolds(s.source, cur, next);
      ServeKeeps(s, p, next, Paged(gen, cur, PageOf(s.source, cur, next), tally, walk));
    }
  }

  lemma PagedLands(s: State, p: Pid)
    requires Inv(s) && PcOf(s, p).Paged?
    ensures var Paged(gen, cur, page, tally, walk) := PcOf(s, p);
            Inv(At(Put(s, gen, page.upserted), p, Onward(gen, page, tally, walk)))
  {
    hide Covers, Skips, PageHolds, TallyHolds, LiveHolds, Separate, Exclusive;
    var Paged(gen, cur, page, tally, walk) := PcOf(s, p);
    assert PcHolds(s, PcOf(s, p));
    WalkExtends(s.source, s.gens[gen], cur, walk, page);
    TallyExtends(tally, walk, page);
    assert Put(s, gen, page.upserted).gens[gen] == s.gens[gen] + page.upserted;
    BuildPutKeeps(s, p, page.upserted, Onward(gen, page, tally, walk));
  }

  lemma PagedKeeps(s: State, p: Pid, fate: Fate, next: Position)
    requires Inv(s) && PcOf(s, p).Paged?
    ensures Inv(ReindexCall(s, p, fate, next))
  {
    var Paged(gen, cur, page, tally, walk) := PcOf(s, p);
    if page.upserted != map[] && fate.Lost? {
      var docs := Part(page.upserted, fate.landed);
      assert ReindexCall(s, p, fate, next) == At(Put(s, gen, docs), p, Idle);
      assert PcHolds(Put(s, gen, docs), Idle);
      BuildPutKeeps(s, p, docs, Idle);
    } else {
      assert ReindexCall(s, p, fate, next) == At(Put(s, gen, page.upserted), p, Onward(gen, page, tally, walk));
      PagedLands(s, p);
    }
  }

  lemma CreatedKeeps(s: State, p: Pid, fate: Fate, next: Position)
    requires Inv(s) && PcOf(s, p).Created?
    ensures Inv(ReindexCall(s, p, fate, next))
  {
    PositionsAreLinear();
    assert PcHolds(s, PcOf(s, p));
    var counted := if s.countable then Alive(s.source) else {};
    MoveKeeps(s, p,
              if s.countable && fate.Lost? then Idle
              else Walking(PcOf(s, p).gen, START, Tally(0, 0, |counted|), Begun(counted)));
  }

  lemma WalkedKeeps(s: State, p: Pid, fate: Fate, next: Position)
    requires Inv(s) && (PcOf(s, p).Walked? || PcOf(s, p).Gated?)
    ensures Inv(ReindexCall(s, p, fate, next))
  {
    assert PcHolds(s, PcOf(s, p));
    match PcOf(s, p)
    case Walked(gen, cur, tally, walk) =>
      MoveKeeps(s, p, if fate.Lost? || gen !in s.gens || |s.gens[gen]| < Expected(s.countable, tally)
                      then Idle else Gated(gen, cur, walk));
    case Gated(gen, cur, walk) =>
      if fate.Lost? {
        MoveKeeps(s, p, Idle);
      } else if s.holder.None? {
        TakeKeeps(s, p, ReindexHeld(gen, cur, walk));
      }
  }

  lemma PromotionKeeps(s: State, p: Pid, fate: Fate, next: Position)
    requires Inv(s) && (PcOf(s, p).ReindexHeld? || PcOf(s, p).Promoted?)
    ensures Inv(ReindexCall(s, p, fate, next))
  {
    hide LiveHolds, Separate, Exclusive, Bounded;
    match PcOf(s, p)
    case ReindexHeld(gen, cur, walk) =>
      if fate.Done? {
        SwitchKeeps(s, p, Promoted(gen, cur));
      } else if fate.applied {
        SwitchKeeps(s, p, Releasing);
      } else {
        MoveKeeps(s, p, Releasing);
      }
    case Promoted(gen, cur) =>
      if (fate.Done? || fate.applied) && Storable(cur) {
        CloseKeeps(s, p);
      } else {
        MoveKeeps(s, p, Releasing);
      }
  }

  // ---- every step, every run ----

  lemma StepKeeps(s: State, a: Action)
    requires Inv(s)
    ensures Inv(Step(s, a))
  {
    match a
    case Change(id, record) => ChangeKeeps(s, id, record);
    case StartSync(p, fate) =>
      if PcOf(s, p).Idle? && fate.Done? && s.holder.None? {
        TakeKeeps(s, p, SyncHeld);
      }
    case StartReindex(p, gen, fate) => StartReindexKeeps(s, p, gen, fate);
    case Die(p) => FreedKeeps(s, p);
    case Call(p, fate, next) =>
      var pc := PcOf(s, p);
      if pc.Releasing? {
        FreedKeeps(s, p);
      } else if pc.SyncHeld? || pc.SyncLoaded? || pc.SyncReady? || pc.SyncPaged? || pc.SyncBulked? || pc.SyncRemoved? {
        SyncCallKeeps(s, p, fate, next);
      } else if pc.Created? {
        CreatedKeeps(s, p, fate, next);
      } else if pc.Walking? {
        WalkingKeeps(s, p, fate, next);
      } else if pc.Paged? {
        PagedKeeps(s, p, fate, next);
      } else if pc.Walked? || pc.Gated? {
        WalkedKeeps(s, p, fate, next);
      } else if !pc.Idle? {
        PromotionKeeps(s, p, fate, next);
      }
  }

  lemma InitHolds(source: Table, countable: bool)
    ensures Inv(Init(source, countable))
  {
    PositionsAreLinear();
  }

  lemma {:induction false} Reachable(source: Table, countable: bool, actions: seq<Action>)
    ensures Inv(Exec(Init(source, countable), actions))
    decreases |actions|
  {
    InitHolds(source, countable);
    if |actions| > 0 {
      Reachable(source, countable, actions[..|actions| - 1]);
      StepKeeps(Exec(Init(source, countable), actions[..|actions| - 1]), actions[|actions| - 1]);
    }
  }
}
