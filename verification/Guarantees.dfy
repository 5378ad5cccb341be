/** What the invariant means for whoever searches the live generation. */
module Guarantees {
  import opened Positions
  import opened Options
  import opened Protocol
  import opened Safety

  /** A wanted record the saved cursor has passed and the live generation does not hold in its current version. */
  predicate Missing(s: State, id: Id) {
    && id in s.source && Wanted(s.source, id) && AtMost(Key(s.source, id), s.saved)
    && !(id in LiveContent(s) && LiveContent(s)[id] == s.source[id].doc)
  }

  /** A tombstone the saved cursor has passed whose document can still be found. */
  predicate Ghost(s: State, id: Id) {
    id in s.source && !s.source[id].alive && AtMost(Key(s.source, id), s.saved) && id in LiveContent(s)
  }

  /** The only calls that leave a promotion without its cursor: the failures between the two. */
  predicate Abandons(s: State, a: Action) {
    match a
    case Die(p) => PcOf(s, p).Promoted?
    case Call(p, fate, _) =>
      var pc := PcOf(s, p);
      || (pc.ReindexHeld? && fate.Lost? && fate.applied)
      || (pc.Promoted? && !((fate.Done? || fate.applied) && Storable(pc.cur)))
    case _ => false
  }

  ghost predicate NeverAbandons(s: State, actions: seq<Action>) {
    forall i | 0 <= i < |actions| :: !Abandons(Exec(s, actions[..i]), actions[i])
  }

  // ---- what one call can touch ----

  predicate InSync(pc: Pc) {
    pc.SyncHeld? || pc.SyncLoaded? || pc.SyncReady? || pc.SyncPaged? || pc.SyncBulked? || pc.SyncRemoved?
  }

  predicate InReindex(pc: Pc) {
    pc.Created? || pc.Walking? || pc.Paged? || pc.Walked? || pc.Gated? || pc.ReindexHeld? || pc.Promoted?
  }

  lemma SyncPagedEffect(s: State, p: Pid, fate: Fate, next: Position)
    requires PcOf(s, p).SyncPaged?
    ensures var s', pc := SyncCall(s, p, fate, next), PcOf(s, p);
            && s'.(gens := s.gens, procs := s.procs) == s
            && (forall g | g in s.gens :: g in s'.gens && (s'.gens[g] != s.gens[g] ==> pc.live == Some(g)))
  {
  }

  lemma SyncBulkedEffect(s: State, p: Pid, fate: Fate, next: Position)
    requires PcOf(s, p).SyncBulked?
    ensures var s', pc := SyncCall(s, p, fate, next), PcOf(s, p);
            && s'.(gens := s.gens, procs := s.procs) == s
            && (forall g | g in s.gens :: g in s'.gens && (s'.gens[g] != s.gens[g] ==> pc.live == Some(g)))
  {
  }

  lemma SyncReadEffect(s: State, p: Pid, fate: Fate, next: Position)
    requires InSync(PcOf(s, p)) && !PcOf(s, p).SyncPaged? && !PcOf(s, p).SyncBulked?
    ensures var s', pc := SyncCall(s, p, fate, next), PcOf(s, p);
            && s'.(saved := s.saved, procs := s.procs, served := s.served) == s
            && (s'.saved != s.saved ==> pc.SyncRemoved? && s'.saved == pc.page.next && Storable(s'.saved))
  {
    match PcOf(s, p)
    case SyncHeld =>
    case SyncLoaded(_) =>
    case SyncReady(_, _) =>
    case SyncRemoved(_, _, _) =>
  }

  lemma SyncEffect(s: State, p: Pid, fate: Fate, next: Position)
    requires InSync(PcOf(s, p))
    ensures var s', pc := SyncCall(s, p, fate, next), PcOf(s, p);
            && s'.alias == s.alias && s'.gap == s.gap && s'.promoted == s.promoted && s'.holder == s.holder
            && s'.source == s.source && s'.countable == s.countable
            && (s'.saved != s.saved ==> pc.SyncRemoved? && s'.saved == pc.page.next && Storable(s'.saved))
            && (forall g | g in s.gens :: g in s'.gens
                  && (s'.gens[g] != s.gens[g] ==> (pc.SyncPaged? || pc.SyncBulked?) && pc.live == Some(g)))
  {
    if PcOf(s, p).SyncPaged? {
      SyncPagedEffect(s, p, fate, next);
    } else if PcOf(s, p).SyncBulked? {
      SyncBulkedEffect(s, p, fate, next);
    } else {
      SyncReadEffect(s, p, fate, next);
    }
  }

  lemma PagedEffect(s: State, p: Pid, fate: Fate, next: Position)
    requires PcOf(s, p).Paged?
    ensures var s', pc := ReindexCall(s, p, fate, next), PcOf(s, p);
            && s'.(gens := s.gens, procs := s.procs) == s
            && (forall g | g in s.gens :: g in s'.gens && (s'.gens[g] != s.gens[g] ==> pc.gen == g))
  {
    hide Onward, Part, PageOf;
  }

  lemma WalkEffect(s: State, p: Pid, fate: Fate, next: Position)
    requires InReindex(PcOf(s, p)) && !PcOf(s, p).Paged? && !PcOf(s, p).ReindexHeld? && !PcOf(s, p).Promoted?
    ensures var s', pc := ReindexCall(s, p, fate, next), PcOf(s, p);
            && s'.(holder := s.holder, procs := s.procs, served := s.served) == s
            && (s'.holder == s.holder || (pc.Gated? && s.holder.None? && s'.holder == Some(p)))
  {
    match PcOf(s, p)
    case Created(_) =>
    case Walking(_, _, _, _) =>
    case Walked(_, _, _, _) =>
    case Gated(_, _, _) =>
  }

  lemma BuildEffect(s: State, p: Pid, fate: Fate, next: Position)
    requires InReindex(PcOf(s, p)) && !PcOf(s, p).ReindexHeld? && !PcOf(s, p).Promoted?
    ensures var s', pc := ReindexCall(s, p, fate, next), PcOf(s, p);
            && s'.alias == s.alias && s'.promoted == s.promoted && s'.gap == s.gap && s'.saved == s.saved
            && s'.source == s.source && s'.countable == s.countable
            && (s'.holder == s.holder || (pc.Gated? && s.holder.None? && s'.holder == Some(p)))
            && (forall g | g in s.gens :: g in s'.gens && (s'.gens[g] != s.gens[g] ==> pc.Paged? && pc.gen == g))
  {
    if PcOf(s, p).Paged? {
      PagedEffect(s, p, fate, next);
    } else {
      WalkEffect(s, p, fate, next);
    }
  }

  lemma PromotionEffect(s: State, p: Pid, fate: Fate, next: Position)
    requires PcOf(s, p).ReindexHeld? || PcOf(s, p).Promoted?
    ensures var s', pc := ReindexCall(s, p, fate, next), PcOf(s, p);
            && s'.gens == s.gens && s'.source == s.source && s'.holder == s.holder && s'.countable == s.countable
            && (pc.Promoted? ==> s'.alias == s.alias && s'.promoted == s.promoted)
            && (pc.ReindexHeld? ==> s'.saved == s.saved)
            && (s'.alias == s.alias || s'.alias == Some(pc.gen))
            && (s'.promoted == s.promoted || s'.promoted == s.promoted + {pc.gen})
            && (s'.saved != s.saved ==> s'.saved == pc.cur && s'.gap.Closed? && Storable(s'.saved))
            && (pc.ReindexHeld? && fate.Done? ==> PcOf(s', p).Promoted?)
            && (pc.ReindexHeld? && fate.Lost? && !fate.applied ==> s'.gap == s.gap)
            && (pc.Promoted? && (fate.Done? || fate.applied) && Storable(pc.cur) ==> s'.gap.Closed?)
  {}

  predicate SameIndex(s: State, s': State, g: Gen) {
    && s'.alias == s.alias && s'.promoted == s.promoted && s'.countable == s.countable
    && g in s.gens && g in s'.gens && s'.gens[g] == s.gens[g]
  }

  lemma OnlyCallsWrite(s: State, a: Action, g: Gen)
    requires !a.Call? && g in s.gens
    ensures SameIndex(s, Step(s, a), g)
  {
    hide SyncCall, ReindexCall, PcOf;
    match a
    case Change(_, _) =>
    case StartSync(_, _) =>
    case StartReindex(p, gen, fate) => ACreationKeepsTheRest(s, p, gen, fate, g);
    case Die(_) =>
  }

  lemma ACreationKeepsTheRest(s: State, p: Pid, gen: Gen, fate: Fate, g: Gen)
    requires g in s.gens
    ensures SameIndex(s, Step(s, StartReindex(p, gen, fate)), g)
  {
    hide PcOf;
  }

  predicate By(a: Action, p: Pid) {
    match a
    case Change(_, _) => false
    case StartSync(q, _) => p == q
    case StartReindex(q, _, _) => p == q
    case Call(q, _, _) => p == q
    case Die(q) => p == q
  }

  lemma SyncMovesOnly(s: State, p: Pid, fate: Fate, next: Position, q: Pid)
    requires InSync(PcOf(s, p)) && q != p
    ensures PcOf(SyncCall(s, p, fate, next), q) == PcOf(s, q)
  {
    match PcOf(s, p)
    case SyncHeld =>
    case SyncLoaded(_) =>
    case SyncReady(_, _) =>
    case SyncPaged(_, _, _) =>
    case SyncBulked(_, _, _) =>
    case SyncRemoved(_, _, _) =>
  }

  lemma ReindexMovesOnly(s: State, p: Pid, fate: Fate, next: Position, q: Pid)
    requires InReindex(PcOf(s, p)) && q != p
    ensures PcOf(ReindexCall(s, p, fate, next), q) == PcOf(s, q)
  {
    match PcOf(s, p)
    case Created(_) =>
    case Walking(_, _, _, _) =>
    case Paged(_, _, _, _, _) =>
    case Walked(_, _, _, _) =>
    case Gated(_, _, _) =>
    case ReindexHeld(_, _, _) =>
    case Promoted(_, _) =>
  }

  lemma OthersUnmoved(s: State, a: Action, q: Pid)
    requires !By(a, q)
    ensures PcOf(Step(s, a), q) == PcOf(s, q)
  {
    match a
    case Change(_, _) =>
    case StartSync(_, _) =>
    case StartReindex(_, _, _) =>
    case Die(_) =>
    case Call(p, fate, next) =>
      if InSync(PcOf(s, p)) {
        SyncMovesOnly(s, p, fate, next, q);
      } else if InReindex(PcOf(s, p)) {
        ReindexMovesOnly(s, p, fate, next, q);
      }
  }

  // ---- agreement ----

  lemma MissingIsInTheGap(source: Table, countable: bool, actions: seq<Action>, id: Id)
    requires Missing(Exec(Init(source, countable), actions), id)
    ensures var s := Exec(Init(source, countable), actions);
            s.gap.Open? && Below(s.gap.low, Key(s.source, id)) && AtMost(Key(s.source, id), s.gap.high)
  {
    Reachable(source, countable, actions);
  }

  /** A promotion whose walk reached the stored cursor loses nothing, even if its cursor is never saved. */
  lemma NothingIsMissingUnlessTheCursorWasAhead(source: Table, countable: bool, actions: seq<Action>, id: Id)
    requires var s := Exec(Init(source, countable), actions); s.gap.Closed? || AtMost(s.gap.high, s.gap.low)
    ensures !Missing(Exec(Init(source, countable), actions), id)
  {
    PositionsAreLinear();
    Reachable(source, countable, actions);
  }

  lemma {:induction false} TheGapIsOnlyInFlight(source: Table, countable: bool, actions: seq<Action>)
    requires NeverAbandons(Init(source, countable), actions)
    ensures var s := Exec(Init(source, countable), actions);
            s.gap.Open? ==> s.holder.Some? && PcOf(s, s.holder.value).Promoted?
    decreases |actions|
  {
    if |actions| > 0 {
      var n := |actions| - 1;
      var before, a := actions[..n], actions[n];
      assert forall i | 0 <= i < n :: before[..i] == actions[..i];
      TheGapIsOnlyInFlight(source, countable, before);
      Reachable(source, countable, before);
      Reachable(source, countable, actions);
      var s, s' := Exec(Init(source, countable), before), Exec(Init(source, countable), actions);
      assert s' == Step(s, a) && !Abandons(s, a);
      OpenStep(s, a);
    }
  }

  lemma OpenStep(s: State, a: Action)
    requires Exclusive(s) && !Abandons(s, a)
    requires s.gap.Open? ==> s.holder.Some? && PcOf(s, s.holder.value).Promoted?
    ensures var s' := Step(s, a); s'.gap.Open? ==> s'.holder.Some? && PcOf(s', s'.holder.value).Promoted?
  {
    match a
    case Call(p, fate, next) =>
      var pc := PcOf(s, p);
      assert Holding(pc) <==> s.holder == Some(p);
      if InSync(pc) {
        SyncEffect(s, p, fate, next);
      } else if pc.ReindexHeld? || pc.Promoted? {
        PromotionEffect(s, p, fate, next);
      } else if InReindex(pc) {
        BuildEffect(s, p, fate, next);
      }
    case Die(p) => assert Holding(PcOf(s, p)) <==> s.holder == Some(p);
    case StartSync(p, _) => assert Holding(PcOf(s, p)) <==> s.holder == Some(p);
    case StartReindex(p, _, _) => assert Holding(PcOf(s, p)) <==> s.holder == Some(p);
    case Change(_, _) =>
  }

  /** In a run that never fails between a Promote and its Save, no wanted record is missing at any other moment. */
  lemma NothingIsMissing(source: Table, countable: bool, actions: seq<Action>, id: Id)
    requires NeverAbandons(Init(source, countable), actions)
    requires var s := Exec(Init(source, countable), actions);
             s.holder.Some? ==> !PcOf(s, s.holder.value).Promoted?
    ensures !Missing(Exec(Init(source, countable), actions), id)
  {
    TheGapIsOnlyInFlight(source, countable, actions);
    NothingIsMissingUnlessTheCursorWasAhead(source, countable, actions, id);
  }

  /**
   What is missing, in every state: the wanted records written in the gap of a promotion whose cursor is not stored,
   in a version its walk did not build. Nothing else is lost, whether Promote failed, its Save failed or the process died.
   */
  lemma MissingExactly(source: Table, countable: bool, actions: seq<Action>, id: Id)
    ensures var s := Exec(Init(source, countable), actions);
            Missing(s, id) <==>
              && id in s.source && Wanted(s.source, id) && InGap(s.gap, Key(s.source, id))
              && !(id in s.walk.built && s.walk.built[id] == s.source[id].doc)
  {
    PositionsAreLinear();
    Reachable(source, countable, actions);
  }

  /** A promotion that lands without its cursor opens that gap: from where its walk ended to the stored cursor. */
  lemma AnAbandonedPromotionOpensTheGap(
      source: Table, countable: bool, actions: seq<Action>, p: Pid, fate: Fate, next: Position)
    requires PcOf(Exec(Init(source, countable), actions), p).ReindexHeld? && (fate.Done? || fate.applied)
    ensures var s := Exec(Init(source, countable), actions);
            var s' := Step(s, Call(p, fate, next));
            var ReindexHeld(gen, cur, walk) := PcOf(s, p);
            s'.gap == Open(cur, s.saved) && s'.walk == walk && gen in s.gens && walk.built == s.gens[gen]
  {
    Reachable(source, countable, actions);
    var s := Exec(Init(source, countable), actions);
    assert PcHolds(s, PcOf(s, p));
  }

  // ---- ghosts ----

  /**
   What lingers, in every state: the tombstones of what the promoted walk built, up to its end or, while the gap is
   open, up to the cursor stored when it was promoted.
   */
  lemma GhostsExactly(source: Table, countable: bool, actions: seq<Action>, id: Id)
    ensures var s := Exec(Init(source, countable), actions);
            Ghost(s, id) <==>
              && id in s.source && !s.source[id].alive && id in s.walk.built
              && AtMost(Key(s.source, id), Frontier(s.gap, s.walkEnd))
  {
    PositionsAreLinear();
    Reachable(source, countable, actions);
  }

  /** A ghost was handed to the walk as a tombstone and not applied, or was deleted after the walk, inside its gap. */
  lemma GhostsWereSkippedOrInTheGap(source: Table, countable: bool, actions: seq<Action>, id: Id)
    requires Ghost(Exec(Init(source, countable), actions), id)
    ensures var s := Exec(Init(source, countable), actions);
            id in s.walk.built
            && (InGap(s.gap, Key(s.source, id)) || (id in s.walk.skipped && AtMost(Key(s.source, id), s.walkEnd)))
  {
    PositionsAreLinear();
    Reachable(source, countable, actions);
  }

  /** A record deleted after the promoted walk ended, and after its gap, is gone once the cursor has passed its tombstone. */
  lemma DeletedSinceTheWalkIsGone(source: Table, countable: bool, actions: seq<Action>, id: Id)
    requires var s := Exec(Init(source, countable), actions);
             && id in s.source && !s.source[id].alive
             && Below(Frontier(s.gap, s.walkEnd), Key(s.source, id)) && AtMost(Key(s.source, id), s.saved)
    ensures id !in LiveContent(Exec(Init(source, countable), actions))
  {
    PositionsAreLinear();
    GhostsExactly(source, countable, actions, id);
  }

  // ---- every document that is not the current one ----

  /** The document an index should hold of a record the cursor has passed is the wanted one, or none. */
  predicate Current(t: Table, id: Id, doc: Doc)
    requires id in t
  {
    Wanted(t, id) && t[id].doc == doc
  }

  /**
   Of every document a search can find whose record the cursor has passed: it is not the current one exactly when the
   promoted walk built it so and no pass has come by since, or when the record has become one that is refused.
   */
  lemma StaleExactly(source: Table, countable: bool, actions: seq<Action>, id: Id)
    requires id in LiveContent(Exec(Init(source, countable), actions))
    ensures var s := Exec(Init(source, countable), actions);
            id in s.source &&
            (AtMost(Key(s.source, id), s.saved) ==>
               (!Current(s.source, id, LiveContent(s)[id]) <==>
                  if AtMost(Key(s.source, id), Frontier(s.gap, s.walkEnd))
                  then id in s.walk.built && !Current(s.source, id, s.walk.built[id])
                  else s.source[id].alive && !Wanted(s.source, id)))
  {
    PositionsAreLinear();
    Reachable(source, countable, actions);
  }

  // ---- the count gate ----

  /** What the gate asks of a walk: nothing sent twice, or no more counted rows absent than were refused or came since. */
  ghost predicate GateOpens(countable: bool, tally: Tally, walk: Walk) {
    if countable then |walk.counted - walk.built.Keys| <= |walk.built.Keys - walk.counted| + tally.refused
    else walk.again == {}
  }

  lemma CountedOrNot(walk: Walk, tally: Tally)
    requires TallyHolds(tally, walk)
    ensures |walk.built| >= tally.total - tally.refused <==> GateOpens(true, tally, walk)
    ensures |walk.built| >= tally.sent <==> GateOpens(false, tally, walk)
  {
    var built, counted := walk.built.Keys, walk.counted;
    assert |walk.built| == |built|;
    assert |built - counted| == |built| - |built * counted| && |counted - built| == |counted| - |counted * built|;
    assert built * counted == counted * built;
  }

  /** Whatever the source did during the walk, this is exactly when a rebuild gets past its gate. */
  lemma TheGateExactly(source: Table, countable: bool, actions: seq<Action>, p: Pid, next: Position)
    requires PcOf(Exec(Init(source, countable), actions), p).Walked?
    ensures var s := Exec(Init(source, countable), actions);
            var pc := PcOf(s, p);
            PcOf(Step(s, Call(p, Done, next)), p) ==
            if GateOpens(countable, pc.tally, pc.walk) then Gated(pc.gen, pc.cur, pc.walk) else Idle
  {
    hide Step, Exclusive, Separate, Bounded, LiveHolds;
    var s := Exec(Init(source, countable), actions);
    Reachable(source, countable, actions);
    CountableStays(source, countable, actions);
    assert PcHolds(s, PcOf(s, p));
    GateCompares(s, p, next);
    CountedOrNot(PcOf(s, p).walk, PcOf(s, p).tally);
  }

  lemma GateCompares(s: State, p: Pid, next: Position)
    requires PcOf(s, p).Walked? && PcOf(s, p).gen in s.gens
    ensures var pc := PcOf(s, p);
            PcOf(Step(s, Call(p, Done, next)), p) ==
            if |s.gens[pc.gen]| >= Expected(s.countable, pc.tally) then Gated(pc.gen, pc.cur, pc.walk) else Idle
  {
  }

  lemma {:induction false} CountableStays(source: Table, countable: bool, actions: seq<Action>)
    ensures Exec(Init(source, countable), actions).countable == countable
    decreases |actions|
  {
    if |actions| > 0 {
      CountableStays(source, countable, actions[..|actions| - 1]);
      StepStores(Exec(Init(source, countable), actions[..|actions| - 1]), actions[|actions| - 1]);
    }
  }

  // ---- what an edit does to a walk whose source is not counted ----

  ghost predicate WasSentAgain(pc: Pc, id: Id) {
    match pc
    case Walking(_, _, _, walk) => id in walk.again
    case Paged(_, _, page, _, walk) => id in walk.again || (id in walk.built && id in page.upserted)
    case Walked(_, _, _, walk) => id in walk.again
    case _ => false
  }

  /** A generation whose walk sent something twice: it is not live, and nobody but that walk could make it so. */
  ghost predicate Spoiled(s: State, gen: Gen, p: Pid, id: Id) {
    && !s.countable && gen in s.gens && gen !in s.promoted
    && (forall q: Pid :: Building(PcOf(s, q)) == Some(gen) ==> q == p && WasSentAgain(PcOf(s, p), id))
  }

  lemma SpoiledWalk(s: State, p: Pid, id: Id, fate: Fate, next: Position)
    requires WasSentAgain(PcOf(s, p), id) && !s.countable && PcHolds(s, PcOf(s, p))
    ensures var s' := ReindexCall(s, p, fate, next);
            s'.promoted == s.promoted && (PcOf(s', p).Idle? || WasSentAgain(PcOf(s', p), id))
  {
    hide Covers, Skips, PageHolds, Upserts, Removals, Refusals, Serves;
    match PcOf(s, p)
    case Walking(_, _, _, _) =>
    case Paged(_, _, _, _, _) =>
    case Walked(gen, _, tally, walk) => ASpoiledWalkIsRefused(s.gens[gen], tally, walk, id);
  }

  lemma ASpoiledWalkIsRefused(content: Content, tally: Tally, walk: Walk, id: Id)
    requires content == walk.built && TallyHolds(tally, walk) && id in walk.again
    ensures |content| < tally.sent
  {
    CountedOrNot(walk, tally);
    assert walk.again != {};
  }

  lemma SpoiledElsewhere(s: State, gen: Gen, q: Pid, fate: Fate, next: Position)
    requires InReindex(PcOf(s, q)) && Building(PcOf(s, q)) != Some(gen) && gen !in s.promoted
    requires PcOf(s, q).Promoted? ==> PcOf(s, q).gen in s.promoted
    ensures Building(PcOf(ReindexCall(s, q, fate, next), q)) != Some(gen)
    ensures gen !in ReindexCall(s, q, fate, next).promoted
  {
    match PcOf(s, q)
    case Created(_) =>
    case Walking(_, _, _, _) =>
    case Paged(_, _, _, _, _) =>
    case Walked(_, _, _, _) =>
    case Gated(_, _, _) =>
    case ReindexHeld(_, _, _) =>
    case Promoted(_, _) =>
  }

  lemma SyncStaysSync(s: State, q: Pid, fate: Fate, next: Position)
    requires InSync(PcOf(s, q))
    ensures Building(PcOf(SyncCall(s, q, fate, next), q)).None?
  {
    match PcOf(s, q)
    case SyncHeld =>
    case SyncLoaded(_) =>
    case SyncReady(_, _) =>
    case SyncPaged(_, _, _) =>
    case SyncBulked(_, _, _) =>
    case SyncRemoved(_, _, _) =>
  }

  lemma SpoiledCall(s: State, gen: Gen, p: Pid, id: Id, q: Pid, fate: Fate, next: Position)
    requires Inv(s) && Spoiled(s, gen, p, id)
    ensures var s' := Step(s, Call(q, fate, next));
            && gen !in s'.promoted
            && (Building(PcOf(s', q)) == Some(gen) ==> q == p && WasSentAgain(PcOf(s', q), id))
  {
    hide ReindexCall, SyncCall, LiveHolds, Exclusive, Bounded;
    var pc := PcOf(s, q);
    assert PcHolds(s, pc);
    if Building(pc) == Some(gen) {
      SpoiledWalk(s, q, id, fate, next);
    } else if InReindex(pc) {
      SpoiledElsewhere(s, gen, q, fate, next);
    } else if InSync(pc) {
      SyncEffect(s, q, fate, next);
      SyncStaysSync(s, q, fate, next);
    }
  }

  lemma SpoiledStep(s: State, gen: Gen, p: Pid, id: Id, a: Action)
    requires Inv(s) && Spoiled(s, gen, p, id)
    ensures Spoiled(Step(s, a), gen, p, id)
  {
    hide Inv, ReindexCall, SyncCall, WasSentAgain;
    GenerationsStay(s, a, gen);
    if a.Call? {
      SpoiledCall(s, gen, p, id, a.p, a.fate, a.next);
    }
    forall q: Pid | Building(PcOf(Step(s, a), q)) == Some(gen) ensures q == p && WasSentAgain(PcOf(Step(s, a), p), id) {
      if !By(a, q) {
        OthersUnmoved(s, a, q);
      }
    }
  }

  lemma GenerationsStay(s: State, a: Action, g: Gen)
    requires g in s.gens
    ensures g in Step(s, a).gens && Step(s, a).countable == s.countable
    ensures !a.Call? ==> Step(s, a).promoted == s.promoted
  {
    hide ReindexCall, SyncCall, Building;
    StepStores(s, a);
    if !a.Call? {
      OnlyCallsWrite(s, a, g);
    } else {
      if InSync(PcOf(s, a.p)) {
        SyncEffect(s, a.p, a.fate, a.next);
      } else if PcOf(s, a.p).ReindexHeld? || PcOf(s, a.p).Promoted? {
        PromotionEffect(s, a.p, a.fate, a.next);
      } else if InReindex(PcOf(s, a.p)) {
        BuildEffect(s, a.p, a.fate, a.next);
      }
    }
  }

  lemma {:induction false} SpoiledForever(s: State, more: seq<Action>, gen: Gen, p: Pid, id: Id)
    requires Inv(s) && Spoiled(s, gen, p, id)
    ensures Inv(Exec(s, more)) && Spoiled(Exec(s, more), gen, p, id)
    decreases |more|
  {
    hide Inv, Spoiled, Step;
    if |more| > 0 {
      var before := more[..|more| - 1];
      SpoiledForever(s, before, gen, p, id);
      StepKeeps(Exec(s, before), more[|more| - 1]);
      SpoiledStep(Exec(s, before), gen, p, id, more[|more| - 1]);
    }
  }

  /**
   Over a source that is not counted, a page that serves an accepted version of a record its walk has already put in
   ends the rebuild: whatever happens from then on, its generation is never live.
   */
  lemma AnEditBlocksItsRebuild(
      source: Table, actions: seq<Action>, p: Pid, next: Position, more: seq<Action>, id: Id)
    requires var s := Exec(Init(source, false), actions);
             && PcOf(s, p).Walking? && Serves(s.source, PcOf(s, p).cur, next)
             && id in PcOf(s, p).walk.built && id in s.source
             && Wanted(s.source, id) && Within(s.source, id, PcOf(s, p).cur, next)
    ensures var s := Exec(Init(source, false), actions);
            var s' := Exec(Step(s, Call(p, Done, next)), more);
            PcOf(s, p).gen in s'.gens && s'.alias != Some(PcOf(s, p).gen)
  {
    var s, gen := Exec(Init(source, false), actions), PcOf(Exec(Init(source, false), actions), p).gen;
    var s' := Step(s, Call(p, Done, next));
    Reachable(source, false, actions);
    CountableStays(source, false, actions);
    StepKeeps(s, Call(p, Done, next));
    assert Spoiled(s', gen, p, id) by {
      ServedAgain(s, p, next, id);
    }
    SpoiledForever(s', more, gen, p, id);
  }

  lemma ServedAgain(s: State, p: Pid, next: Position, id: Id)
    requires Inv(s) && !s.countable && PcOf(s, p).Walking? && Serves(s.source, PcOf(s, p).cur, next)
    requires id in PcOf(s, p).walk.built && id in s.source
    requires Wanted(s.source, id) && Within(s.source, id, PcOf(s, p).cur, next)
    ensures Spoiled(Step(s, Call(p, Done, next)), PcOf(s, p).gen, p, id)
  {
    hide LiveHolds, Exclusive, Bounded, WalkHolds, TallyHolds, Serves, Removals, Refusals, Within;
    var gen, s' := PcOf(s, p).gen, Step(s, Call(p, Done, next));
    assert Building(PcOf(s, p)) == Some(gen);
    assert id in Upserts(s.source, PcOf(s, p).cur, next);
    assert WasSentAgain(PcOf(s', p), id);
    assert forall q: Pid | q != p :: PcOf(s', q) == PcOf(s, q) && Building(PcOf(s, q)) != Building(PcOf(s, p));
  }

  // ---- the lock and the alias ----

  /** From its Live read on, a pass writes to the generation that is live and continues the stored cursor. */
  lemma APassFollowsTheAlias(source: Table, countable: bool, actions: seq<Action>, p: Pid)
    ensures var s := Exec(Init(source, countable), actions);
            var pc := PcOf(s, p);
            pc.SyncReady? || pc.SyncPaged? || pc.SyncBulked? || pc.SyncRemoved? ==>
              s.holder == Some(p) && pc.live == s.alias && pc.cur == s.saved
  {
    Reachable(source, countable, actions);
    var s := Exec(Init(source, countable), actions);
    assert PcHolds(s, PcOf(s, p));
    assert Holding(PcOf(s, p)) <==> s.holder == Some(p);
  }

  lemma APromotedWalkIsLive(source: Table, countable: bool, actions: seq<Action>, p: Pid)
    ensures var s := Exec(Init(source, countable), actions);
            var pc := PcOf(s, p);
            pc.Promoted? ==> s.holder == Some(p) && s.alias == Some(pc.gen)
  {
    Reachable(source, countable, actions);
    var s := Exec(Init(source, countable), actions);
    assert PcHolds(s, PcOf(s, p));
    assert Holding(PcOf(s, p)) <==> s.holder == Some(p);
  }

  lemma AWalkHasItsGeneration(source: Table, countable: bool, actions: seq<Action>, p: Pid)
    ensures var s := Exec(Init(source, countable), actions);
            Building(PcOf(s, p)).Some? ==> Building(PcOf(s, p)).value in s.gens
  {
    Reachable(source, countable, actions);
  }

  lemma WhoHoldsTheLock(source: Table, countable: bool, actions: seq<Action>, p: Pid)
    ensures var s := Exec(Init(source, countable), actions);
            Holding(PcOf(s, p)) <==> s.holder == Some(p)
  {
    Reachable(source, countable, actions);
  }

  /** Only the holder moves the cursor: a pass over the live generation, or the walk that built it. */
  lemma OnlyTheLiveGenerationMovesTheCursor(source: Table, countable: bool, actions: seq<Action>, a: Action)
    ensures var s := Exec(Init(source, countable), actions);
            var s' := Step(s, a);
            s'.saved != s.saved ==>
              && a.Call? && s.holder == Some(a.p)
              && var pc := PcOf(s, a.p);
                 || (pc.SyncRemoved? && pc.live == s.alias && pc.cur == s.saved && s'.saved == pc.page.next)
                 || (pc.Promoted? && s.alias == Some(pc.gen) && s'.saved == pc.cur && s'.gap.Closed?)
  {
    var s := Exec(Init(source, countable), actions);
    if a.Call? {
      var pc := PcOf(s, a.p);
      if InSync(pc) {
        SyncEffect(s, a.p, a.fate, a.next);
        APassFollowsTheAlias(source, countable, actions, a.p);
      } else if pc.ReindexHeld? || pc.Promoted? {
        PromotionEffect(s, a.p, a.fate, a.next);
        APromotedWalkIsLive(source, countable, actions, a.p);
      } else if InReindex(pc) {
        BuildEffect(s, a.p, a.fate, a.next);
      }
    }
  }

  lemma StepStores(s: State, a: Action)
    ensures Step(s, a).countable == s.countable
    ensures Step(s, a).saved != s.saved ==> Storable(Step(s, a).saved)
  {
    if a.Call? {
      var pc := PcOf(s, a.p);
      if InSync(pc) {
        SyncEffect(s, a.p, a.fate, a.next);
      } else if pc.ReindexHeld? || pc.Promoted? {
        PromotionEffect(s, a.p, a.fate, a.next);
      } else if InReindex(pc) {
        BuildEffect(s, a.p, a.fate, a.next);
      }
    }
  }

  /** Whatever is stored can be stored again: no cursor beyond a bigint is ever accepted. */
  lemma {:induction false} TheStoredCursorFits(source: Table, countable: bool, actions: seq<Action>)
    ensures Storable(Exec(Init(source, countable), actions).saved)
    decreases |actions|
  {
    if |actions| > 0 {
      TheStoredCursorFits(source, countable, actions[..|actions| - 1]);
      StepStores(Exec(Init(source, countable), actions[..|actions| - 1]), actions[|actions| - 1]);
    }
  }

  lemma TheAliasNamesAGeneration(source: Table, countable: bool, actions: seq<Action>)
    ensures var s := Exec(Init(source, countable), actions);
            s.alias.Some? ==> s.alias.value in s.gens
  {
    Reachable(source, countable, actions);
  }

  ghost predicate Retired(s: State, g: Gen) {
    g in s.promoted && s.alias != Some(g)
  }

  lemma RetiredCall(s: State, p: Pid, fate: Fate, next: Position, g: Gen)
    requires Retired(s, g) && g in s.gens && Building(PcOf(s, p)) != Some(g)
    requires PcOf(s, p).SyncPaged? || PcOf(s, p).SyncBulked? ==> PcOf(s, p).live == s.alias
    ensures var s' := Step(s, Call(p, fate, next)); Retired(s', g) && g in s'.gens && s'.gens[g] == s.gens[g]
  {
    var pc := PcOf(s, p);
    if InSync(pc) {
      SyncEffect(s, p, fate, next);
    } else if pc.ReindexHeld? || pc.Promoted? {
      PromotionEffect(s, p, fate, next);
    } else if InReindex(pc) {
      BuildEffect(s, p, fate, next);
    }
  }

  lemma RetiredStep(s: State, a: Action, g: Gen)
    requires Retired(s, g) && g in s.gens
    requires a.Call? ==> Building(PcOf(s, a.p)) != Some(g)
    requires a.Call? && (PcOf(s, a.p).SyncPaged? || PcOf(s, a.p).SyncBulked?) ==> PcOf(s, a.p).live == s.alias
    ensures Retired(Step(s, a), g)
    ensures g in Step(s, a).gens && Step(s, a).gens[g] == s.gens[g]
  {
    hide Step;
    if a.Call? {
      RetiredCall(s, a.p, a.fate, a.next, g);
    } else {
      OnlyCallsWrite(s, a, g);
    }
  }

  lemma RetiredKept(s: State, a: Action, g: Gen)
    requires Inv(s) && Retired(s, g)
    ensures Retired(Step(s, a), g)
    ensures g in s.gens && g in Step(s, a).gens && Step(s, a).gens[g] == s.gens[g]
  {
    if a.Call? {
      assert PcHolds(s, PcOf(s, a.p));
      assert Building(PcOf(s, a.p)).Some? ==> Building(PcOf(s, a.p)).value !in s.promoted;
    }
    RetiredStep(s, a, g);
  }

  lemma {:induction false} InvAlong(s: State, more: seq<Action>)
    requires Inv(s)
    ensures Inv(Exec(s, more))
    decreases |more|
  {
    if |more| > 0 {
      InvAlong(s, more[..|more| - 1]);
      StepKeeps(Exec(s, more[..|more| - 1]), more[|more| - 1]);
    }
  }

  /** Once the alias has left a generation it never returns, and no page ever lands there again. */
  lemma {:induction false} ARetiredGenerationIsNeverWritten(s: State, more: seq<Action>, g: Gen)
    requires Inv(s) && Retired(s, g)
    ensures Retired(Exec(s, more), g)
    ensures g in s.gens && g in Exec(s, more).gens && Exec(s, more).gens[g] == s.gens[g]
    decreases |more|
  {
    if |more| > 0 {
      var before := more[..|more| - 1];
      ARetiredGenerationIsNeverWritten(s, before, g);
      InvAlong(s, before);
      RetiredKept(Exec(s, before), more[|more| - 1], g);
    }
  }
}
