/** The moves that concrete runs are made of: some calls in a row, from any state to the state they lead to. */
module Moves {
  import opened Positions
  import opened Options
  import opened Protocol
  import opened Guarantees

  datatype Start = Start(source: Table, countable: bool)

  function Run(b: Start, actions: seq<Action>): State {
    Exec(Init(b.source, b.countable), actions)
  }

  /** Nothing fails and nobody dies. */
  predicate Smooth(actions: seq<Action>) {
    forall a | a in actions ::
      !a.Die? && (a.Call? || a.StartSync? || a.StartReindex? ==> a.fate.Done?)
  }

  lemma Then(b: Start, actions: seq<Action>, a: Action)
    ensures Run(b, actions + [a]) == Step(Run(b, actions), a)
  {
    assert (actions + [a])[..|actions|] == actions;
  }

  lemma Twice(b: Start, actions: seq<Action>, first: Action, second: Action)
    ensures Run(b, actions + [first] + [second]) == Step(Step(Run(b, actions), first), second)
  {
    Then(b, actions, first);
    Then(b, actions + [first], second);
  }

  lemma Starts(b: Start)
    ensures Run(b, []) == Init(b.source, b.countable)
  {
  }

  lemma MovedOn(s: State, p: Pid, pc: Pc, pc': Pc)
    ensures At(At(s, p, pc), p, pc') == At(s, p, pc')
  {
    assert s.procs[p := pc][p := pc'] == s.procs[p := pc'];
  }

  lemma Edits(b: Start, actions: seq<Action>, id: Id, record: Record) returns (more: seq<Action>)
    requires Below(Run(b, actions).served, Position(record.txn, id))
    ensures Smooth(actions) ==> Smooth(more)
    ensures var s := Run(b, actions); Run(b, more) == s.(source := s.source[id := record])
  {
    Then(b, actions, Change(id, record));
    more := actions + [Change(id, record)];
  }

  lemma Dies(b: Start, actions: seq<Action>, p: Pid) returns (more: seq<Action>)
    requires Run(b, actions).holder == Some(p)
    ensures Run(b, more) == At(Run(b, actions).(holder := None), p, Idle)
  {
    Then(b, actions, Die(p));
    more := actions + [Die(p)];
  }

  // ---- a rebuild ----

  function CountedRows(s: State): set<Id> {
    if s.countable then Alive(s.source) else {}
  }

  function Beginning(s: State, gen: Gen): Pc {
    Walking(gen, START, Tally(0, 0, |CountedRows(s)|), Begun(CountedRows(s)))
  }

  /** A generation is created and, where the source counts, its rows are counted. */
  lemma Begins(b: Start, actions: seq<Action>, p: Pid, gen: Gen) returns (more: seq<Action>)
    requires var s := Run(b, actions); PcOf(s, p).Idle? && gen !in s.gens
    ensures Smooth(actions) ==> Smooth(more)
    ensures var s := Run(b, actions);
            Run(b, more) == At(s.(gens := s.gens[gen := map[]]), p, Beginning(s, gen))
  {
    var s := Run(b, actions);
    Twice(b, actions, StartReindex(p, gen, Done), Call(p, Done, START));
    MovedOn(s.(gens := s.gens[gen := map[]]), p, Created(gen), Beginning(s, gen));
    more := actions + [StartReindex(p, gen, Done)] + [Call(p, Done, START)];
  }

  lemma Asks(b: Start, actions: seq<Action>, p: Pid, next: Position) returns (more: seq<Action>)
    requires var s := Run(b, actions); PcOf(s, p).Walking? && Serves(s.source, PcOf(s, p).cur, next)
    ensures Smooth(actions) ==> Smooth(more)
    ensures var s := Run(b, actions);
            var Walking(gen, cur, tally, walk) := PcOf(s, p);
            Run(b, more) == At(Serve(s, next), p, Paged(gen, cur, PageOf(s.source, cur, next), tally, walk))
  {
    Then(b, actions, Call(p, Done, next));
    more := actions + [Call(p, Done, next)];
  }

  lemma Puts(b: Start, actions: seq<Action>, p: Pid) returns (more: seq<Action>)
    requires PcOf(Run(b, actions), p).Paged?
    ensures Smooth(actions) ==> Smooth(more)
    ensures var s := Run(b, actions);
            var Paged(gen, _, page, tally, walk) := PcOf(s, p);
            Run(b, more) == At(Put(s, gen, page.upserted), p, Onward(gen, page, tally, walk))
  {
    Then(b, actions, Call(p, Done, START));
    more := actions + [Call(p, Done, START)];
  }

  /** A page is asked for and lands. */
  lemma Turns(b: Start, actions: seq<Action>, p: Pid, next: Position) returns (more: seq<Action>)
    requires var s := Run(b, actions); PcOf(s, p).Walking? && Serves(s.source, PcOf(s, p).cur, next)
    ensures Smooth(actions) ==> Smooth(more)
    ensures var s := Run(b, actions);
            var Walking(gen, cur, tally, walk) := PcOf(s, p);
            var page := PageOf(s.source, cur, next);
            Run(b, more) == At(Put(Serve(s, next), gen, page.upserted), p, Onward(gen, page, tally, walk))
  {
    hide Run, Serves, Onward, PageOf;
    var s := Run(b, actions);
    var Walking(gen, cur, tally, walk) := PcOf(s, p);
    var page := PageOf(s.source, cur, next);
    more := Asks(b, actions, p, next);
    more := Puts(b, more, p);
    PutsThenMoves(Serve(s, next), gen, page.upserted, p, Paged(gen, cur, page, tally, walk), Onward(gen, page, tally, walk));
  }

  lemma PutsThenMoves(s: State, gen: Gen, docs: Content, p: Pid, pc: Pc, pc': Pc)
    ensures At(Put(At(s, p, pc), gen, docs), p, pc') == At(Put(s, gen, docs), p, pc')
  {
    MovedOn(Put(s, gen, docs), p, pc, pc');
  }

  /** The generation is counted, and the gate decides. */
  lemma Gates(b: Start, actions: seq<Action>, p: Pid) returns (more: seq<Action>)
    requires PcOf(Run(b, actions), p).Walked?
    ensures Smooth(actions) ==> Smooth(more)
    ensures var s := Run(b, actions);
            var Walked(gen, cur, tally, walk) := PcOf(s, p);
            Run(b, more) == At(s, p, if GateOpens(b.countable, tally, walk) then Gated(gen, cur, walk) else Idle)
  {
    hide GateOpens, Expected;
    var s := Run(b, actions);
    Then(b, actions, Call(p, Done, START));
    TheGateExactly(b.source, b.countable, actions, p, START);
    more := actions + [Call(p, Done, START)];
  }

  lemma GateDecides(b: Start, actions: seq<Action>, p: Pid)
    requires PcOf(Run(b, actions), p).Walked?
    ensures var s := Run(b, actions);
            !GateOpens(b.countable, PcOf(s, p).tally, PcOf(s, p).walk) ==> PcOf(Step(s, Call(p, Done, START)), p).Idle?
  {
    TheGateExactly(b.source, b.countable, actions, p, START);
  }

  /** A rebuild of a single page over a source that does not count, from its creation past its gate. */
  lemma Walks(b: Start, actions: seq<Action>, p: Pid, gen: Gen, end: Position) returns (more: seq<Action>)
    requires var s := Run(b, actions);
             && PcOf(s, p).Idle? && gen !in s.gens && !b.countable && !s.countable
             && Serves(s.source, START, end) && !Beyond(s.source, end)
    ensures Smooth(actions) ==> Smooth(more)
    ensures var s := Run(b, actions);
            var page := PageOf(s.source, START, end);
            Run(b, more)
            == At(Serve(s, end).(gens := s.gens[gen := page.upserted]), p,
                  Gated(gen, end, Walk({}, page.upserted, page.removed, {})))
  {
    hide Run, Serves, Upserts, Removals, Refusals, Beyond, Put, Onward;
    var s := Run(b, actions);
    var page := PageOf(s.source, START, end);
    more := Begins(b, actions, p, gen);
    more := Turns(b, more, p, end);
    OnePage(s, p, gen, page);
    more := Gates(b, more, p);
    var walk := Walk({}, page.upserted, page.removed, {});
    MovedOn(Serve(s, end).(gens := s.gens[gen := page.upserted]), p,
            Walked(gen, end, Counted(Tally(0, 0, 0), page), walk), Gated(gen, end, walk));
  }

  lemma OnePage(s: State, p: Pid, gen: Gen, page: Page)
    requires !page.more
    ensures var t, walk := Tally(0, 0, 0), Walk({}, page.upserted, page.removed, {});
            var begun := At(s.(gens := s.gens[gen := map[]]), p, Walking(gen, START, t, Begun({})));
            At(Put(Serve(begun, page.next), gen, page.upserted), p, Onward(gen, page, t, Begun({})))
            == At(Serve(s, page.next).(gens := s.gens[gen := page.upserted]), p,
                  Walked(gen, page.next, Counted(t, page), walk))
  {
    assert map[] + page.upserted == page.upserted && {} + page.removed == page.removed;
    assert Extended(Begun({}), page) == Walk({}, page.upserted, page.removed, {});
    assert s.gens[gen := map[]][gen := page.upserted] == s.gens[gen := page.upserted];
    MovedOn(Serve(s, page.next).(gens := s.gens[gen := page.upserted]), p,
            Walking(gen, START, Tally(0, 0, 0), Begun({})), Onward(gen, page, Tally(0, 0, 0), Begun({})));
  }

  /** The lock is taken and the alias moved. */
  lemma Promotes(b: Start, actions: seq<Action>, p: Pid) returns (more: seq<Action>)
    requires var s := Run(b, actions); PcOf(s, p).Gated? && s.holder.None?
    ensures Smooth(actions) ==> Smooth(more)
    ensures var s := Run(b, actions);
            var Gated(gen, cur, walk) := PcOf(s, p);
            Run(b, more) == At(Switch(s.(holder := Some(p)), gen, cur, walk), p, Promoted(gen, cur))
  {
    var s, call := Run(b, actions), Call(p, Done, START);
    var Gated(gen, cur, walk) := PcOf(s, p);
    Twice(b, actions, call, call);
    MovedOn(Switch(s.(holder := Some(p)), gen, cur, walk), p, ReindexHeld(gen, cur, walk), Promoted(gen, cur));
    more := actions + [call] + [call];
  }

  /** The cursor is stored, if it fits the column, and the lock let go. */
  lemma Finishes(b: Start, actions: seq<Action>, p: Pid) returns (more: seq<Action>)
    requires var s := Run(b, actions); PcOf(s, p).Promoted? && s.holder == Some(p)
    ensures Smooth(actions) ==> Smooth(more)
    ensures var s := Run(b, actions);
            var stored := if Storable(PcOf(s, p).cur) then Store(s, PcOf(s, p).cur).(gap := Closed) else s;
            Run(b, more) == At(stored.(holder := None), p, Idle)
  {
    hide Step;
    var s, call := Run(b, actions), Call(p, Done, START);
    Twice(b, actions, call, call);
    StoresOrNot(s, p);
    LetsGo(if Storable(PcOf(s, p).cur) then Store(s, PcOf(s, p).cur).(gap := Closed) else s, p);
    more := actions + [call] + [call];
  }

  lemma StoresOrNot(s: State, p: Pid)
    requires PcOf(s, p).Promoted?
    ensures var stored := if Storable(PcOf(s, p).cur) then Store(s, PcOf(s, p).cur).(gap := Closed) else s;
            Step(s, Call(p, Done, START)) == At(stored, p, Releasing)
  {
  }

  lemma LetsGo(s: State, p: Pid)
    requires s.holder == Some(p)
    ensures Step(At(s, p, Releasing), Call(p, Done, START)) == At(s.(holder := None), p, Idle)
  {
    MovedOn(s.(holder := None), p, Releasing, Idle);
  }

  // ---- a sync pass with nothing to write ----

  function Owned(s: State, p: Pid, pc: Pc): State {
    At(s.(holder := Some(p)), p, pc)
  }

  function Pruned(s: State, ids: set<Id>): State {
    if s.alias.Some? then Cut(s, s.alias.value, ids) else s
  }

  lemma TakesAndLetsGo(s: State, p: Pid)
    requires PcOf(s, p).Idle? && s.holder.None?
    ensures Step(s, StartSync(p, Done)) == Owned(s, p, SyncHeld)
    ensures Step(Owned(s, p, Releasing), Call(p, Done, START)) == At(s, p, Idle)
  {
    MovedOn(s, p, Releasing, Idle);
  }

  lemma LoadsAndLooks(s: State, p: Pid)
    ensures var held := Owned(s, p, SyncHeld);
            Step(Step(held, Call(p, Done, START)), Call(p, Done, START)) == Owned(s, p, SyncReady(s.alias, s.saved))
  {
    MovedOn(s.(holder := Some(p)), p, SyncHeld, SyncLoaded(s.saved));
    MovedOn(s.(holder := Some(p)), p, SyncLoaded(s.saved), SyncReady(s.alias, s.saved));
  }

  lemma ReadsAndSkips(s: State, p: Pid, next: Position)
    requires Serves(s.source, s.saved, next) && Upserts(s.source, s.saved, next) == map[]
    ensures var ready := Owned(s, p, SyncReady(s.alias, s.saved));
            Step(Step(ready, Call(p, Done, next)), Call(p, Done, START))
            == Owned(Serve(s, next), p, SyncBulked(s.alias, s.saved, PageOf(s.source, s.saved, next)))
  {
    var page, held := PageOf(s.source, s.saved, next), Serve(s, next).(holder := Some(p));
    MovedOn(held, p, SyncReady(s.alias, s.saved), SyncPaged(s.alias, s.saved, page));
    MovedOn(held, p, SyncPaged(s.alias, s.saved, page), SyncBulked(s.alias, s.saved, page));
  }

  lemma NothingPruned(s: State)
    ensures Pruned(s, {}) == s
  {
    if s.alias.Some? && s.alias.value in s.gens {
      assert s.gens[s.alias.value] - {} == s.gens[s.alias.value];
      assert s.gens[s.alias.value := s.gens[s.alias.value]] == s.gens;
    }
  }

  lemma Removes(s: State, p: Pid, page: Page)
    ensures Step(Owned(s, p, SyncBulked(s.alias, s.saved, page)), Call(p, Done, START))
            == Owned(Pruned(s, page.removed), p, SyncRemoved(s.alias, s.saved, page))
  {
    hide Pruned;
    NothingPruned(s);
    RemovesOrSkips(Owned(s, p, SyncBulked(s.alias, s.saved, page)), p);
    PrunesThenMoves(s, p, SyncBulked(s.alias, s.saved, page), SyncRemoved(s.alias, s.saved, page), page.removed);
  }

  lemma RemovesOrSkips(s: State, p: Pid)
    requires PcOf(s, p).SyncBulked? && PcOf(s, p).live == s.alias
    ensures var SyncBulked(live, cur, page) := PcOf(s, p);
            Step(s, Call(p, Done, START))
            == At(if page.removed == {} then s else Pruned(s, page.removed), p, SyncRemoved(live, cur, page))
  {
  }

  lemma PrunesThenMoves(s: State, p: Pid, pc: Pc, pc': Pc, ids: set<Id>)
    ensures At(Pruned(Owned(s, p, pc), ids), p, pc') == Owned(Pruned(s, ids), p, pc')
    ensures At(Owned(s, p, pc), p, pc') == Owned(s, p, pc')
  {
    MovedOn(Pruned(s, ids).(holder := Some(p)), p, pc, pc');
    MovedOn(s.(holder := Some(p)), p, pc, pc');
  }

  lemma Stores(s: State, p: Pid, page: Page)
    requires Storable(page.next) && !page.more
    ensures Step(Owned(s, p, SyncRemoved(s.alias, s.saved, page)), Call(p, Done, START))
            == Owned(Store(s, page.next), p, Releasing)
  {
    MovedOn(Store(s, page.next).(holder := Some(p)), p, SyncRemoved(s.alias, s.saved, page), Releasing);
  }

  /** A whole pass of one page that upserts nothing: it removes, stores the cursor and lets go. */
  lemma PassesOver(b: Start, actions: seq<Action>, p: Pid, next: Position) returns (more: seq<Action>)
    requires var s := Run(b, actions);
             && PcOf(s, p).Idle? && s.holder.None? && Storable(next) && Serves(s.source, s.saved, next)
             && Upserts(s.source, s.saved, next) == map[] && !Beyond(s.source, next)
    ensures Smooth(actions) ==> Smooth(more)
    ensures var s := Run(b, actions);
            Run(b, more) == At(Store(Pruned(Serve(s, next), Removals(s.source, s.saved, next)), next), p, Idle)
  {
    hide Run, Step, Serves, Upserts, Removals, Refusals, Beyond;
    var s, call := Run(b, actions), Call(p, Done, START);
    var page := PageOf(s.source, s.saved, next);
    var pruned := Pruned(Serve(s, next), page.removed);
    more := actions + [StartSync(p, Done)];
    Then(b, actions, StartSync(p, Done));
    TakesAndLetsGo(s, p);
    Twice(b, more, call, call);
    LoadsAndLooks(s, p);
    more := more + [call] + [call];
    Twice(b, more, Call(p, Done, next), call);
    ReadsAndSkips(s, p, next);
    more := more + [Call(p, Done, next)] + [call];
    Twice(b, more, call, call);
    Removes(Serve(s, next), p, page);
    Stores(pruned, p, page);
    more := more + [call] + [call];
    Then(b, more, call);
    TakesAndLetsGo(Store(pruned, next), p);
    more := more + [call];
  }
}
