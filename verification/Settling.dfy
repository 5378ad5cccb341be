/**
 Passes over a source that does not change. However many passes are cut off, and wherever, the live generation
 and the cursor end where one uninterrupted pass would have left them.
 */
module Settling {
  import opened Positions
  import opened Options
  import opened Protocol
  import opened Safety
  import opened Guarantees

  /** The source keeps still and no generation is promoted; passes may start, fail and die, and walks may build. */
  predicate Quiet(s: State, a: Action) {
    match a
    case Change(_, _) => false
    case Call(p, _, _) => !PcOf(s, p).ReindexHeld? && !PcOf(s, p).Promoted?
    case _ => true
  }

  ghost predicate QuietRun(s: State, actions: seq<Action>) {
    forall i | 0 <= i < |actions| :: Quiet(Exec(s, actions[..i]), actions[i])
  }

  /** A record a pass from `from` still has something to do about. */
  predicate Pending(t: Table, from: Position, id: Id) {
    id in t && Below(from, Key(t, id)) && (Wanted(t, id) || !t[id].alive)
  }

  predicate Applied(t: Table, content: Content, id: Id)
    requires id in t
  {
    if Wanted(t, id) then id in content && content[id] == t[id].doc else id !in content
  }

  /** What one complete pass from `from` makes of a generation. */
  function Settled(t: Table, before: Content, from: Position): Content {
    map id | id in before.Keys + t.Keys && (if Pending(t, from, id) then Wanted(t, id) else id in before) ::
      if Pending(t, from, id) then t[id].doc else before[id]
  }

  /** The last position a walk from `from` can reach. */
  predicate IsEnd(t: Table, from: Position, end: Position) {
    && !Beyond(t, end)
    && (end == from || (end.id in t && end == Key(t, end.id) && Below(from, end)))
  }

  ghost predicate Halfway(t: Table, before: Content, from: Position, content: Content, saved: Position) {
    && AtMost(from, saved)
    && (saved == from || (saved.id in t && saved == Key(t, saved.id)))
    && (forall id | !Pending(t, from, id) :: Untouched(before, content, id))
    && (forall id | Pending(t, from, id) ::
          Applied(t, content, id) || (Below(saved, Key(t, id)) && Untouched(before, content, id)))
  }

  ghost predicate Undisturbed(t: Table, pc: Pc) {
    (pc.SyncPaged? || pc.SyncBulked? || pc.SyncRemoved?) ==>
      pc.page == PageOf(t, pc.cur, pc.page.next) && Serves(t, pc.cur, pc.page.next)
  }

  ghost predicate Converging(s0: State, s: State) {
    && s.source == s0.source && s.alias == s0.alias
    && Halfway(s0.source, LiveContent(s0), s0.saved, LiveContent(s), s.saved)
    && (forall p: Pid :: Undisturbed(s.source, PcOf(s, p)))
  }

  /** Changing only what is pending, and only to what it should be, keeps halfway what was halfway. */
  lemma StaysHalfway(t: Table, before: Content, from: Position, content: Content, saved: Position, content': Content)
    requires Halfway(t, before, from, content, saved)
    requires forall id | !Untouched(content, content', id) :: Pending(t, from, id) && Applied(t, content', id)
    ensures Halfway(t, before, from, content', saved)
  {
    forall id
      ensures !Pending(t, from, id) ==> Untouched(before, content', id)
      ensures Pending(t, from, id) ==>
                Applied(t, content', id) || (Below(saved, Key(t, id)) && Untouched(before, content', id))
    {
      assert Untouched(content, content', id) || (Pending(t, from, id) && Applied(t, content', id));
    }
  }

  lemma OnThePage(t: Table, from: Position, saved: Position, next: Position, id: Id)
    requires AtMost(from, saved) && id in t && Within(t, id, saved, next) && (Wanted(t, id) || !t[id].alive)
    ensures Pending(t, from, id)
  {
    PositionsAreLinear();
  }

  lemma PutConverges(t: Table, before: Content, from: Position, content: Content, saved: Position, docs: Content, page: Page)
    requires Halfway(t, before, from, content, saved)
    requires page == PageOf(t, saved, page.next)
    requires forall id | id in docs :: id in page.upserted && docs[id] == page.upserted[id]
    ensures Halfway(t, before, from, content + docs, saved)
  {
    forall id | !Untouched(content, content + docs, id)
      ensures Pending(t, from, id) && Applied(t, content + docs, id)
    {
      OnThePage(t, from, saved, page.next, id);
    }
    hide PageOf, Pending, Applied;
    StaysHalfway(t, before, from, content, saved, content + docs);
  }

  lemma CutConverges(t: Table, before: Content, from: Position, content: Content, saved: Position, gone: set<Id>, page: Page)
    requires Halfway(t, before, from, content, saved)
    requires page == PageOf(t, saved, page.next) && gone <= page.removed
    ensures Halfway(t, before, from, content - gone, saved)
  {
    forall id | !Untouched(content, content - gone, id)
      ensures Pending(t, from, id) && Applied(t, content - gone, id)
    {
      OnThePage(t, from, saved, page.next, id);
    }
    hide PageOf, Pending, Applied;
    StaysHalfway(t, before, from, content, saved, content - gone);
  }

  lemma SaveConverges(t: Table, before: Content, from: Position, content: Content, saved: Position, page: Page)
    requires Halfway(t, before, from, content, saved)
    requires page == PageOf(t, saved, page.next) && Serves(t, saved, page.next)
    requires Landed(content, page.upserted) && content.Keys !! page.removed
    ensures Halfway(t, before, from, content, page.next)
  {
    PositionsAreLinear();
    forall id | Pending(t, from, id) && !Below(page.next, Key(t, id)) ensures Applied(t, content, id) {
      if Below(saved, Key(t, id)) {
        assert Within(t, id, saved, page.next);
      }
    }
  }

  lemma PagesUndisturbed(t: Table, s: State, a: Action)
    requires s.source == t && forall p: Pid :: Undisturbed(t, PcOf(s, p))
    requires Quiet(s, a)
    ensures forall p: Pid :: Undisturbed(t, PcOf(Step(s, a), p))
  {
    forall q: Pid ensures Undisturbed(t, PcOf(Step(s, a), q)) {
      assert Undisturbed(t, PcOf(s, q));
      if !By(a, q) {
        OthersUnmoved(s, a, q);
      } else if a.Call? && InSync(PcOf(s, q)) {
        OwnPageUndisturbed(t, s, q, a.fate, a.next);
      }
    }
  }

  lemma OwnPageUndisturbed(t: Table, s: State, p: Pid, fate: Fate, next: Position)
    requires s.source == t && InSync(PcOf(s, p)) && Undisturbed(t, PcOf(s, p))
    ensures Undisturbed(t, PcOf(SyncCall(s, p, fate, next), p))
  {
    hide Serves, Upserts, Removals, Refusals, Beyond;
    match PcOf(s, p)
    case SyncHeld =>
    case SyncLoaded(_) =>
    case SyncReady(_, _) =>
    case SyncPaged(_, _, _) =>
    case SyncBulked(_, _, _) =>
    case SyncRemoved(_, _, _) =>
  }

  lemma BulkConverges(s: State, before: Content, from: Position, p: Pid, fate: Fate, next: Position)
    requires PcOf(s, p).SyncPaged?
    requires Halfway(s.source, before, from, LiveContent(s), s.saved)
    requires Undisturbed(s.source, PcOf(s, p)) && PcHolds(s, PcOf(s, p))
    ensures var s' := SyncCall(s, p, fate, next);
            Halfway(s.source, before, from, LiveContent(s'), s'.saved)
  {
    hide Halfway, PageOf, Serves;
    var page, content := PcOf(s, p).page, LiveContent(SyncCall(s, p, fate, next));
    if content != LiveContent(s) {
      var docs := if fate.Done? then page.upserted else Part(page.upserted, fate.landed);
      assert content == LiveContent(s) + docs;
      PutConverges(s.source, before, from, LiveContent(s), s.saved, docs, page);
    }
  }

  lemma RemoveConverges(s: State, before: Content, from: Position, p: Pid, fate: Fate, next: Position)
    requires PcOf(s, p).SyncBulked?
    requires Halfway(s.source, before, from, LiveContent(s), s.saved)
    requires Undisturbed(s.source, PcOf(s, p)) && PcHolds(s, PcOf(s, p))
    ensures var s' := SyncCall(s, p, fate, next);
            Halfway(s.source, before, from, LiveContent(s'), s'.saved)
  {
    hide Halfway, PageOf, Serves;
    var page, content := PcOf(s, p).page, LiveContent(SyncCall(s, p, fate, next));
    if content != LiveContent(s) {
      var gone := if fate.Done? then page.removed else page.removed * fate.landed;
      assert content == LiveContent(s) - gone;
      CutConverges(s.source, before, from, LiveContent(s), s.saved, gone, page);
    }
  }

  lemma StoreConverges(s: State, before: Content, from: Position, p: Pid, fate: Fate, next: Position)
    requires PcOf(s, p).SyncRemoved?
    requires Halfway(s.source, before, from, LiveContent(s), s.saved)
    requires Undisturbed(s.source, PcOf(s, p)) && PcHolds(s, PcOf(s, p))
    ensures var s' := SyncCall(s, p, fate, next);
            Halfway(s.source, before, from, LiveContent(s'), s'.saved)
  {
    hide PageOf, Serves;
    SaveConverges(s.source, before, from, LiveContent(s), s.saved, PcOf(s, p).page);
    assert LiveContent(SyncCall(s, p, fate, next)) == LiveContent(s);
  }

  lemma SyncContentConverges(s: State, before: Content, from: Position, p: Pid, fate: Fate, next: Position)
    requires InSync(PcOf(s, p))
    requires Halfway(s.source, before, from, LiveContent(s), s.saved)
    requires Undisturbed(s.source, PcOf(s, p)) && PcHolds(s, PcOf(s, p))
    ensures var s' := SyncCall(s, p, fate, next);
            Halfway(s.source, before, from, LiveContent(s'), s'.saved)
  {
    if PcOf(s, p).SyncPaged? {
      BulkConverges(s, before, from, p, fate, next);
    } else if PcOf(s, p).SyncBulked? {
      RemoveConverges(s, before, from, p, fate, next);
    } else if PcOf(s, p).SyncRemoved? {
      StoreConverges(s, before, from, p, fate, next);
    } else {
      assert LiveContent(SyncCall(s, p, fate, next)) == LiveContent(s);
    }
  }

  lemma WalkLeavesLive(s: State, p: Pid, fate: Fate, next: Position)
    requires Separate(s) && InReindex(PcOf(s, p)) && !PcOf(s, p).ReindexHeld? && !PcOf(s, p).Promoted?
    ensures var s' := ReindexCall(s, p, fate, next);
            LiveContent(s') == LiveContent(s) && s'.saved == s.saved && s'.alias == s.alias && s'.source == s.source
  {
    BuildEffect(s, p, fate, next);
    assert Building(PcOf(s, p)).Some?;
  }

  lemma CreationLeavesLive(s: State, p: Pid, gen: Gen, fate: Fate)
    requires Separate(s)
    ensures LiveContent(Step(s, StartReindex(p, gen, fate))) == LiveContent(s)
  {
    assert s.alias != Some(gen) || gen in s.gens;
  }

  lemma LiveIsThere(s: State, s': State)
    ensures s'.gens == s.gens && s'.alias == s.alias ==> LiveContent(s') == LiveContent(s)
  {
  }

  lemma LiveStays(s: State, a: Action)
    requires Separate(s) && Quiet(s, a)
    requires a.Call? ==> !InSync(PcOf(s, a.p))
    ensures LiveContent(Step(s, a)) == LiveContent(s) && Step(s, a).saved == s.saved
    ensures Step(s, a).alias == s.alias && Step(s, a).source == s.source
  {
    hide SyncCall, ReindexCall, LiveContent;
    LiveIsThere(s, Step(s, a));
    match a
    case Call(p, fate, next) =>
      if InReindex(PcOf(s, p)) {
        WalkLeavesLive(s, p, fate, next);
      }
    case StartReindex(p, gen, fate) => CreationLeavesLive(s, p, gen, fate);
    case _ =>
  }

  lemma StepConverges(s0: State, s: State, a: Action)
    requires Inv(s) && Converging(s0, s) && Quiet(s, a)
    ensures Converging(s0, Step(s, a))
  {
    PagesUndisturbed(s.source, s, a);
    if a.Call? && InSync(PcOf(s, a.p)) {
      assert PcHolds(s, PcOf(s, a.p));
      SyncEffect(s, a.p, a.fate, a.next);
      assert Undisturbed(s.source, PcOf(s, a.p));
      SyncContentConverges(s, LiveContent(s0), s0.saved, a.p, a.fate, a.next);
    } else {
      LiveStays(s, a);
    }
  }

  lemma {:induction false} RunConverges(s0: State, actions: seq<Action>)
    requires Inv(s0) && s0.holder.None? && QuietRun(s0, actions)
    ensures Inv(Exec(s0, actions)) && Converging(s0, Exec(s0, actions))
    decreases |actions|
  {
    if |actions| == 0 {
      forall p: Pid ensures Undisturbed(s0.source, PcOf(s0, p)) {
        assert Holding(PcOf(s0, p)) <==> s0.holder == Some(p);
      }
    } else {
      var n := |actions| - 1;
      assert forall i | 0 <= i < n :: actions[..n][..i] == actions[..i];
      RunConverges(s0, actions[..n]);
      StepKeeps(Exec(s0, actions[..n]), actions[n]);
      StepConverges(s0, Exec(s0, actions[..n]), actions[n]);
    }
  }

  /** Any interleaving of cut-off passes that has nothing left to walk has made exactly one complete pass's changes. */
  lemma PassesSettle(s0: State, actions: seq<Action>)
    requires Inv(s0) && s0.holder.None? && QuietRun(s0, actions)
    requires !Beyond(s0.source, Exec(s0, actions).saved)
    ensures LiveContent(Exec(s0, actions)) == Settled(s0.source, LiveContent(s0), s0.saved)
    ensures IsEnd(s0.source, s0.saved, Exec(s0, actions).saved)
  {
    PositionsAreLinear();
    RunConverges(s0, actions);
    var s := Exec(s0, actions);
    var content, settled := LiveContent(s), Settled(s0.source, LiveContent(s0), s0.saved);
    forall id ensures id in content <==> id in settled
              ensures id in content ==> content[id] == settled[id]
    {
      if Pending(s0.source, s0.saved, id) {
        assert !Below(s.saved, Key(s0.source, id));
        assert Applied(s0.source, content, id);
      } else {
        assert Untouched(LiveContent(s0), content, id);
      }
    }
  }

  lemma EndIsUnique(t: Table, from: Position, end: Position, end': Position)
    requires IsEnd(t, from, end) && IsEnd(t, from, end')
    ensures end == end'
  {
    PositionsAreLinear();
  }

  /** Crashes change nothing in the end: two quiet runs that both reach the end leave the same content and cursor. */
  lemma CrashesLeaveNoTrace(s0: State, crashed: seq<Action>, uninterrupted: seq<Action>)
    requires Inv(s0) && s0.holder.None? && QuietRun(s0, crashed) && QuietRun(s0, uninterrupted)
    requires !Beyond(s0.source, Exec(s0, crashed).saved) && !Beyond(s0.source, Exec(s0, uninterrupted).saved)
    ensures LiveContent(Exec(s0, crashed)) == LiveContent(Exec(s0, uninterrupted))
    ensures Exec(s0, crashed).saved == Exec(s0, uninterrupted).saved
  {
    PassesSettle(s0, crashed);
    PassesSettle(s0, uninterrupted);
    EndIsUnique(s0.source, s0.saved, Exec(s0, crashed).saved, Exec(s0, uninterrupted).saved);
  }

  /** A pass that stores the cursor of a page with nothing after it has reached the end. */
  lemma ACompletePassReachesTheEnd(s0: State, actions: seq<Action>, p: Pid, next: Position)
    requires Inv(s0) && s0.holder.None? && QuietRun(s0, actions)
    requires var s := Exec(s0, actions);
             PcOf(s, p).SyncRemoved? && !PcOf(s, p).page.more && Storable(PcOf(s, p).page.next)
    ensures !Beyond(s0.source, Step(Exec(s0, actions), Call(p, Done, next)).saved)
  {
    RunConverges(s0, actions);
    assert Undisturbed(s0.source, PcOf(Exec(s0, actions), p));
  }
}
