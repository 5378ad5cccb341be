/**
 The sync / reindex protocol as a state machine. Any number of processes run `Syncer.Once` or
 `Reindexer.Run`; one step is one call through the ports of internal/search/service.go and lock.go.
 A step is a total function of the state and an action, and an action that is not enabled leaves the
 state alone, so a list of actions is one interleaving and "every reachable state" is `Exec` over all lists.
 */
module Protocol {
  import opened Positions
  import opened Options

  type Doc = string
  type Gen = string
  type Pid = nat
  type Content = map<Id, Doc>

  /** The newest version of a record, placed in the order by the transaction that wrote it. */
  datatype Record = Record(txn: nat, alive: bool, acceptable: bool, doc: Doc)
  type Table = map<Id, Record>

  function Key(t: Table, id: Id): Position
    requires id in t
  {
    Position(t[id].txn, id)
  }

  /** A record the adapter turns into a document; no identifier is empty. */
  predicate Wanted(t: Table, id: Id)
    requires id in t
  {
    t[id].alive && t[id].acceptable && id != ""
  }

  predicate Within(t: Table, id: Id, lo: Position, hi: Position)
    requires id in t
  {
    Below(lo, Key(t, id)) && AtMost(Key(t, id), hi)
  }

  predicate Beyond(t: Table, cur: Position) {
    exists id :: id in t && Below(cur, Key(t, id))
  }

  datatype Page = Page(upserted: Content, removed: set<Id>, refused: nat, next: Position, more: bool)

  function Upserts(t: Table, cur: Position, next: Position): Content {
    map id | id in t && Within(t, id, cur, next) && Wanted(t, id) :: t[id].doc
  }

  function Removals(t: Table, cur: Position, next: Position): set<Id> {
    set id | id in t && Within(t, id, cur, next) && !t[id].alive
  }

  function Refusals(t: Table, cur: Position, next: Position): set<Id> {
    set id | id in t && Within(t, id, cur, next) && t[id].alive && !Wanted(t, id)
  }

  function PageOf(t: Table, cur: Position, next: Position): Page {
    Page(Upserts(t, cur, next), Removals(t, cur, next), |Refusals(t, cur, next)|, next, Beyond(t, next))
  }

  /** What a source may answer: nothing beyond the cursor leaves it where it is, otherwise a page ends at a row. */
  predicate Serves(t: Table, cur: Position, next: Position) {
    if Beyond(t, cur) then next.id in t && next == Key(t, next.id) && Below(cur, next) else next == cur
  }

  function Alive(t: Table): set<Id> {
    set id | id in t && t[id].alive
  }

  const MAX_INT64: nat := 0x7FFF_FFFF_FFFF_FFFF

  predicate Storable(p: Position) {
    p.txn <= MAX_INT64
  }

  datatype Tally = Tally(sent: nat, refused: nat, total: nat)

  /**
   What a walk did: the rows its source counted before it began, what it put into its generation, the tombstones it
   was handed and did not apply, and the ids it was handed again after it had put them in.
   */
  datatype Walk = Walk(counted: set<Id>, built: Content, skipped: set<Id>, again: set<Id>)

  function Begun(counted: set<Id>): Walk {
    Walk(counted, map[], {}, {})
  }

  datatype Pc =
    | Idle
    | SyncHeld
    | SyncLoaded(cur: Position)
    | SyncReady(live: Option<Gen>, cur: Position)
    | SyncPaged(live: Option<Gen>, cur: Position, page: Page)
    | SyncBulked(live: Option<Gen>, cur: Position, page: Page)
    | SyncRemoved(live: Option<Gen>, cur: Position, page: Page)
    | Created(gen: Gen)
    | Walking(gen: Gen, cur: Position, tally: Tally, walk: Walk)
    | Paged(gen: Gen, cur: Position, page: Page, tally: Tally, walk: Walk)
    | Walked(gen: Gen, cur: Position, tally: Tally, walk: Walk)
    | Gated(gen: Gen, cur: Position, walk: Walk)
    | ReindexHeld(gen: Gen, cur: Position, walk: Walk)
    | Promoted(gen: Gen, cur: Position)
    | Releasing

  /** Open from a promotion until the cursor of the walk that built the generation is stored. */
  datatype Gap = Closed | Open(low: Position, high: Position)

  /**
   `served`, `gap`, `promoted`, `walk` and `walkEnd` are history: they record what happened and no step
   of a process depends on them. `countable` says whether the source implements Counter.
   */
  datatype State = State(
    countable: bool,
    source: Table,
    gens: map<Gen, Content>,
    alias: Option<Gen>,
    saved: Position,
    holder: Option<Pid>,
    procs: map<Pid, Pc>,
    served: Position,
    gap: Gap,
    promoted: set<Gen>,
    walk: Walk,
    walkEnd: Position)

  function Init(source: Table, countable: bool): State {
    State(countable, source, map[], None, START, None, map[], START, Closed, {}, Begun({}), START)
  }

  /** Done: the call succeeded. Lost: it returned an error, having taken effect in part or not at all. */
  datatype Fate = Done | Lost(landed: set<Id>, applied: bool)

  datatype Action =
    | Change(id: Id, record: Record)
    | StartSync(p: Pid, fate: Fate)
    | StartReindex(p: Pid, gen: Gen, fate: Fate)
    | Call(p: Pid, fate: Fate, next: Position)
    | Die(p: Pid)

  function PcOf(s: State, p: Pid): Pc {
    if p in s.procs then s.procs[p] else Idle
  }

  function At(s: State, p: Pid, pc: Pc): State {
    s.(procs := s.procs[p := pc])
  }

  function LiveContent(s: State): Content {
    if s.alias.Some? && s.alias.value in s.gens then s.gens[s.alias.value] else map[]
  }

  // ---- the effect of each call on the shared systems ----

  function Put(s: State, gen: Gen, docs: Content): State {
    if gen in s.gens then s.(gens := s.gens[gen := s.gens[gen] + docs]) else s
  }

  function Cut(s: State, gen: Gen, ids: set<Id>): State {
    if gen in s.gens then s.(gens := s.gens[gen := s.gens[gen] - ids]) else s
  }

  function Part(docs: Content, ids: set<Id>): Content {
    map id | id in docs && id in ids :: docs[id]
  }

  function Store(s: State, next: Position): State {
    if Storable(next) then s.(saved := next) else s
  }

  function Switch(s: State, gen: Gen, cur: Position, walk: Walk): State {
    s.(alias := Some(gen), gap := Open(cur, s.saved), promoted := s.promoted + {gen}, walk := walk, walkEnd := cur)
  }

  function Serve(s: State, next: Position): State {
    s.(served := Later(s.served, next))
  }

  // ---- one call of a process ----

  function SyncCall(s: State, p: Pid, fate: Fate, next: Position): State
    requires var pc := PcOf(s, p);
             pc.SyncHeld? || pc.SyncLoaded? || pc.SyncReady? || pc.SyncPaged? || pc.SyncBulked? || pc.SyncRemoved?
  {
    match PcOf(s, p)
    case SyncHeld =>
      At(s, p, if fate.Done? then SyncLoaded(s.saved) else Releasing)
    case SyncLoaded(cur) =>
      At(s, p, if fate.Done? then SyncReady(s.alias, cur) else Releasing)
    case SyncReady(live, cur) =>
      if fate.Lost? then At(s, p, Releasing)
      else if !Serves(s.source, cur, next) then s
      else At(Serve(s, next), p, SyncPaged(live, cur, PageOf(s.source, cur, next)))
    case SyncPaged(live, cur, page) =>
      if page.upserted == map[] then At(s, p, SyncBulked(live, cur, page))
      else if live.None? || live.value !in s.gens then At(s, p, Releasing)
      else if fate.Done? then At(Put(s, live.value, page.upserted), p, SyncBulked(live, cur, page))
      else At(Put(s, live.value, Part(page.upserted, fate.landed)), p, Releasing)
    case SyncBulked(live, cur, page) =>
      if page.removed == {} then At(s, p, SyncRemoved(live, cur, page))
      else
        var gone := if fate.Done? then page.removed else page.removed * fate.landed;
        var s' := if live.Some? then Cut(s, live.value, gone) else s;
        At(s', p, if fate.Done? then SyncRemoved(live, cur, page) else Releasing)
    case SyncRemoved(live, cur, page) =>
      if fate.Done? && Storable(page.next) then
        At(Store(s, page.next), p, if page.more then SyncReady(live, page.next) else Releasing)
      else
        At(if fate.Lost? && fate.applied then Store(s, page.next) else s, p, Releasing)
  }

  function ReindexCall(s: State, p: Pid, fate: Fate, next: Position): State
    requires var pc := PcOf(s, p);
             pc.Created? || pc.Walking? || pc.Paged? || pc.Walked? || pc.Gated? || pc.ReindexHeld? || pc.Promoted?
  {
    match PcOf(s, p)
    case Created(gen) =>
      if s.countable && fate.Lost? then At(s, p, Idle)
      else
        var counted := if s.countable then Alive(s.source) else {};
        At(s, p, Walking(gen, START, Tally(0, 0, |counted|), Begun(counted)))
    case Walking(gen, cur, tally, walk) =>
      if fate.Lost? then At(s, p, Idle)
      else if !Serves(s.source, cur, next) then s
      else At(Serve(s, next), p, Paged(gen, cur, PageOf(s.source, cur, next), tally, walk))
    case Paged(gen, cur, page, tally, walk) =>
      if page.upserted != map[] && fate.Lost? then
        At(Put(s, gen, Part(page.upserted, fate.landed)), p, Idle)
      else
        At(Put(s, gen, page.upserted), p, Onward(gen, page, tally, walk))
    case Walked(gen, cur, tally, walk) =>
      if fate.Lost? || gen !in s.gens || |s.gens[gen]| < Expected(s.countable, tally) then At(s, p, Idle)
      else At(s, p, Gated(gen, cur, walk))
    case Gated(gen, cur, walk) =>
      if fate.Lost? then At(s, p, Idle)
      else if s.holder.Some? then s
      else At(s.(holder := Some(p)), p, ReindexHeld(gen, cur, walk))
    case ReindexHeld(gen, cur, walk) =>
      if fate.Done? then At(Switch(s, gen, cur, walk), p, Promoted(gen, cur))
      else At(if fate.applied then Switch(s, gen, cur, walk) else s, p, Releasing)
    case Promoted(gen, cur) =>
      if (fate.Done? || fate.applied) && Storable(cur) then At(Store(s, cur).(gap := Closed), p, Releasing)
      else At(s, p, Releasing)
  }

  function Counted(tally: Tally, page: Page): Tally {
    Tally(tally.sent + |page.upserted|, tally.refused + page.refused, tally.total)
  }

  /** Where a walk stands once a page has landed: it counts what was sent and never applies what was removed. */
  function Onward(gen: Gen, page: Page, tally: Tally, walk: Walk): Pc {
    var t' := Counted(tally, page);
    var w' := Extended(walk, page);
    if page.more then Walking(gen, page.next, t', w') else Walked(gen, page.next, t', w')
  }

  function Extended(walk: Walk, page: Page): Walk {
    Walk(walk.counted, walk.built + page.upserted, walk.skipped + page.removed,
         walk.again + walk.built.Keys * page.upserted.Keys)
  }

  /** The count the gate holds the generation to; it can be negative only if the source miscounts. */
  function Expected(countable: bool, tally: Tally): int {
    if countable then tally.total - tally.refused else tally.sent
  }

  function Step(s: State, a: Action): State {
    match a
    case Change(id, record) =>
      if Below(s.served, Position(record.txn, id)) then s.(source := s.source[id := record]) else s
    case StartSync(p, fate) =>
      if !PcOf(s, p).Idle? || fate.Lost? || s.holder.Some? then s
      else At(s.(holder := Some(p)), p, SyncHeld)
    case StartReindex(p, gen, fate) =>
      if !PcOf(s, p).Idle? || gen in s.gens then s
      else if fate.Lost? then (if fate.applied then s.(gens := s.gens[gen := map[]]) else s)
      else At(s.(gens := s.gens[gen := map[]]), p, Created(gen))
    case Call(p, fate, next) =>
      (match PcOf(s, p)
       case Idle => s
       case Releasing => At(Freed(s, p), p, Idle)
       case SyncHeld => SyncCall(s, p, fate, next)
       case SyncLoaded(_) => SyncCall(s, p, fate, next)
       case SyncReady(_, _) => SyncCall(s, p, fate, next)
       case SyncPaged(_, _, _) => SyncCall(s, p, fate, next)
       case SyncBulked(_, _, _) => SyncCall(s, p, fate, next)
       case SyncRemoved(_, _, _) => SyncCall(s, p, fate, next)
       case _ => ReindexCall(s, p, fate, next))
    case Die(p) => At(Freed(s, p), p, Idle)
  }

  function Freed(s: State, p: Pid): State {
    if s.holder == Some(p) then s.(holder := None) else s
  }

  function Exec(s: State, actions: seq<Action>): State
    decreases |actions|
  {
    if |actions| == 0 then s else Step(Exec(s, actions[..|actions| - 1]), actions[|actions| - 1])
  }
}
