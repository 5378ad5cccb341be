/**
 The systems a pass runs against, shared with every other process. Each port call first lets the others act and
 then takes effect, succeeding or failing as the script says; the script is any finite list, so a contract proved
 here holds for every interleaving and every pattern of failures.
 */
module Deployments {
  import opened Options
  import opened Positions
  import opened Protocol
  import opened Safety
  import opened Guarantees
  import opened Calls
  import opened Cursors
  import opened Checkpoints
  import opened Indexes
  import opened Paging
  import opened Sources

  /** What happens around one call: what the others do first, how the call fares, and the clock and watermark it sees. */
  datatype Turn = Turn(others: seq<Action>, fate: Fate, now: Instant, through: Instant)

  /** With nothing left in the script the call fares well and nobody else acts. */
  function Next(script: seq<Turn>): Turn {
    if script == [] then Turn([], Done, 1, 0) else script[0]
  }

  function Rest(script: seq<Turn>): seq<Turn> {
    if script == [] then [] else script[1..]
  }

  /** The state once everybody but `p` has taken the steps of a turn. */
  function Played(s: State, p: Pid, others: seq<Action>): State
    decreases |others|
  {
    if others == [] then s
    else
      var n := |others| - 1;
      var s' := Played(s, p, others[..n]);
      if By(others[n], p) then s' else Step(s', others[n])
  }

  /** How a wait for the lock ends: whether it was granted, in which state, and what is left of the script. */
  function Waited(s: State, p: Pid, script: seq<Turn>): (bool, State, seq<Turn>)
    decreases |script|
  {
    var turn := Next(script);
    var s' := Played(s, p, turn.others);
    if s'.holder.None? && turn.fate.Done? then (true, s', Rest(script))
    else if turn.fate.Lost? || script == [] then (false, s', Rest(script))
    else Waited(s', p, Rest(script))
  }

  /** A wait ends with the lock exactly at the first turn that finds it free, unless the call failed before. */
  lemma {:induction false} AWaitIsGranted(s: State, p: Pid, script: seq<Turn>)
    ensures Waited(s, p, script).0 ==> Waited(s, p, script).1.holder.None?
    ensures s.holder.None? && script == [] ==> Waited(s, p, script) == (true, s, [])
    ensures (exists k | 0 <= k < |script| :: FreeAt(s, p, script, k)) ==> Waited(s, p, script).0
    decreases |script|
  {
    if script != [] {
      var s' := Played(s, p, script[0].others);
      AWaitIsGranted(s', p, script[1..]);
      if k :| 0 <= k < |script| && FreeAt(s, p, script, k) {
        if !(s'.holder.None? && script[0].fate.Done?) {
          assert k > 0 && FreeAt(s', p, script[1..], k - 1);
        }
      }
    }
  }

  /** The k-th turn is reached without a failure and finds the lock free. */
  predicate FreeAt(s: State, p: Pid, script: seq<Turn>, k: nat)
    requires k < |script|
    decreases |script|
  {
    var s' := Played(s, p, script[0].others);
    && script[0].fate.Done?
    && if k == 0 then s'.holder.None? else FreeAt(s', p, script[1..], k - 1)
  }

  class Deployment {
    const countable: bool
    const index: Index
    const checkpoint: Checkpoint
    var source: Table
    var holder: Option<Pid>
    var script: seq<Turn>

    /** The protocol state this deployment is in, and the actions that led to it. */
    var machine: State
    ghost const origin: Table
    ghost var log: seq<Action>

    /** Steps our own processes took, how often they took the lock and how often they let go. */
    ghost var steps: nat
    ghost var held: nat
    ghost var released: nat
    /** Calls our own processes made to Promote or to store a cursor, and calls of theirs that answered an error. */
    ghost var moves: nat
    ghost var failed: nat

    ghost predicate Valid()
      reads this, index, checkpoint
    {
      && machine == Exec(Init(origin, countable), log)
      && machine.countable == countable && machine.source == source && machine.holder == holder
      && machine.gens == index.gens && machine.alias == index.alias
      && machine.saved == Place(Loaded(checkpoint.row).cursor)
    }

    /** The time the checkpoint reports everything as indexed through. */
    function Watermark(): Instant
      reads this, checkpoint
    {
      Loaded(checkpoint.row).cursor.through
    }

    constructor (source: Table, countable: bool, script: seq<Turn>)
      ensures Valid() && this.source == source && this.script == script
      ensures steps == held == released == moves == failed == 0
      ensures fresh(index) && fresh(checkpoint)
    {
      this.countable, this.source, this.script := countable, source, script;
      this.index := new Index();
      this.checkpoint := new Checkpoint();
      holder, machine, origin, log := None, Init(source, countable), source, [];
      steps, held, released, moves, failed := 0, 0, 0, 0, 0;
    }

    /** Records that the machine took the step `a`; the caller has made the same change to the systems. */
    method Record(a: Action)
      requires machine == Exec(Init(origin, countable), log)
      modifies this`machine, this`log, this`steps
      ensures machine == Step(old(machine), a) && machine == Exec(Init(origin, countable), log)
      ensures steps == old(steps) + 1
    {
      machine := Step(machine, a);
      log := log + [a];
      steps := steps + 1;
      assert log[..|log| - 1] == old(log);
    }

    /** Another process takes a step. */
    method Other(a: Action, turn: Turn)
      requires Valid()
      modifies this`machine, this`log, this`steps, this`source, this`holder, index, checkpoint
      ensures Valid() && machine == Step(old(machine), a) && steps == old(steps)
      ensures Watermark() >= old(Watermark())
    {
      Record(a);
      steps := steps - 1;
      source, holder := machine.source, machine.holder;
      index.gens, index.alias := machine.gens, machine.alias;
      StepStores(old(machine), a);
      if machine.saved != Place(Loaded(checkpoint.row).cursor) {
        var _ := checkpoint.Save(Cursor(machine.saved.txn, machine.saved.id, turn.through), turn.now, Done);
      }
    }

    /** The others act while `p` waits for its turn. */
    method Begin(p: Pid) returns (turn: Turn)
      requires Valid()
      modifies this`machine, this`log, this`steps, this`source, this`holder, this`script, index, checkpoint
      ensures Valid() && PcOf(machine, p) == PcOf(old(machine), p)
      ensures steps == old(steps) && Watermark() >= old(Watermark())
      ensures turn == Next(old(script)) && script == Rest(old(script))
      ensures machine == Played(old(machine), p, turn.others)
      ensures old(script) != [] ==> |script| < |old(script)|
      ensures old(script) == [] ==> script == [] && machine == old(machine) && turn.fate.Done?
      ensures old(script) == [] ==> index.gens == old(index.gens) && index.alias == old(index.alias)
                                    && checkpoint.row == old(checkpoint.row)
    {
      hide Exec, Step;
      if script == [] {
        return Turn([], Done, 1, 0);
      }
      turn := script[0];
      script := script[1..];
      var n := 0;
      while n < |turn.others|
        invariant n <= |turn.others| && machine == Played(old(machine), p, turn.others[..n])
        invariant turn == Next(old(script)) && script == Rest(old(script)) && old(script) != []
        invariant Valid() && PcOf(machine, p) == PcOf(old(machine), p)
        invariant steps == old(steps) && Watermark() >= old(Watermark())
      {
        assert turn.others[..n + 1][..n] == turn.others[..n];
        if !By(turn.others[n], p) {
          OthersUnmoved(machine, turn.others[n], p);
          Other(turn.others[n], turn);
        }
        n := n + 1;
      }
      assert turn.others[..n] == turn.others;
    }

    lemma AWalkKeepsItsGeneration(p: Pid)
      requires Valid() && (PcOf(machine, p).Paged? || PcOf(machine, p).Walked?)
      ensures PcOf(machine, p).gen in index.gens
    {
      AWalkHasItsGeneration(origin, countable, log, p);
    }

    /** Whatever the others do, the generation this walk is building stays. */
    method BeginWalking(p: Pid) returns (turn: Turn)
      requires Valid() && (PcOf(machine, p).Paged? || PcOf(machine, p).Walked?)
      modifies this`machine, this`log, this`steps, this`source, this`holder, this`script, index, checkpoint
      ensures Valid() && PcOf(machine, p) == PcOf(old(machine), p)
      ensures PcOf(machine, p).gen in index.gens
      ensures steps == old(steps) && Watermark() >= old(Watermark())
      ensures turn == Next(old(script)) && script == Rest(old(script))
      ensures machine == Played(old(machine), p, turn.others)
      ensures old(script) != [] ==> |script| < |old(script)|
      ensures old(script) == [] ==> script == [] && machine == old(machine) && turn.fate.Done?
      ensures old(script) == [] ==> index.gens == old(index.gens) && index.alias == old(index.alias)
                                    && checkpoint.row == old(checkpoint.row)
    {
      hide Step, Exec, Played;
      turn := Begin(p);
      AWalkKeepsItsGeneration(p);
    }

    /** Everything a port call promises besides its answer: the machine took the same steps. */
    twostate predicate Ran()
      reads this, index, checkpoint
    {
      && Valid() && |script| <= |old(script)| && Watermark() >= old(Watermark())
      && (old(script) == [] ==> script == [] && source == old(source))
    }

    /** A turn of the script was played: first the others acted, then `p` took the step `a`. */
    twostate predicate Took(p: Pid, a: Action)
      reads this
    {
      script == Rest(old(script)) && machine == Step(Played(old(machine), p, Next(old(script)).others), a)
    }

    /** One more call of ours answered an error, if it did. */
    twostate predicate Answered(ok: bool)
      reads this
    {
      failed == old(failed) + (if ok then 0 else 1)
    }

    /** With nothing left in the script nobody else acts, and this is all the call leaves behind. */
    twostate predicate Leaves(gens: map<Gen, Content>, alias: Option<Gen>, saved: Position, holder: Option<Pid>)
      reads this, index, checkpoint
    {
      old(script) == [] ==>
        machine.gens == gens && machine.alias == alias && machine.saved == saved && machine.holder == holder
    }

    twostate predicate LeavesAll()
      reads this, index, checkpoint
    {
      Leaves(old(machine.gens), old(machine.alias), old(machine.saved), old(machine.holder))
    }

    /** Wherever a run stands, all that is missing was written after the walk of an unfinished promotion. */
    lemma Agrees()
      requires Valid()
      ensures forall id :: Missing(machine, id) ==> InGap(machine.gap, Key(machine.source, id))
    {
      forall id | Missing(machine, id) ensures InGap(machine.gap, Key(machine.source, id)) {
        MissingIsInTheGap(origin, countable, log, id);
      }
    }

    lemma Stands()
      requires Valid()
      ensures machine.alias.Some? ==> machine.alias.value in machine.gens
      ensures Storable(machine.saved)
    {
      TheAliasNamesAGeneration(origin, countable, log);
      TheStoredCursorFits(origin, countable, log);
    }

    // ---- search.Lock ----

    /** Waits for the lock; the wait ends without it when the call fails or nobody is left to let go. */
    method Await(p: Pid) returns (free: bool)
      requires Valid()
      modifies this`machine, this`log, this`steps, this`source, this`holder, this`script, index, checkpoint
      ensures Ran() && PcOf(machine, p) == PcOf(old(machine), p)
      ensures steps == old(steps)
      ensures (free, machine, script) == Waited(old(machine), p, old(script))
      ensures free ==> holder.None?
      ensures old(holder.None? && script == []) ==> free && machine == old(machine)
    {
      while true
        invariant Waited(machine, p, script) == Waited(old(machine), p, old(script))
        invariant Ran() && PcOf(machine, p) == PcOf(old(machine), p)
        invariant steps == old(steps)
        invariant old(holder.None? && script == []) ==> machine == old(machine)
        decreases |script|
      {
        var last := script == [];
        var turn := Begin(p);
        if holder.None? && turn.fate.Done? {
          return true;
        }
        if turn.fate.Lost? || last {
          return false;
        }
      }
    }

    method Hold(p: Pid) returns (ok: bool)
      requires Valid() && PcOf(machine, p).Idle?
      modifies this, index, checkpoint
      ensures Ran() && moves == old(moves) && released == old(released) && held == old(held) + (if ok then 1 else 0)
      ensures Answered(ok) && ok == Waited(old(machine), p, old(script)).0
      ensures ok ==> holder == Some(p) && PcOf(machine, p) == SyncHeld
      ensures !ok ==> PcOf(machine, p).Idle? && steps == old(steps)
      ensures old(holder.None? && script == []) ==>
                ok && Leaves(old(machine.gens), old(machine.alias), old(machine.saved), Some(p))
    {
      hide Exec, Played;
      ok := Await(p);
      if ok {
        holder := Some(p);
        Record(StartSync(p, Done));
        held := held + 1;
      } else {
        failed := failed + 1;
      }
    }

    method HoldToPromote(p: Pid) returns (ok: bool)
      requires Valid() && PcOf(machine, p).Gated?
      modifies this, index, checkpoint
      ensures Ran() && moves == old(moves) && released == old(released) && held == old(held) + (if ok then 1 else 0)
      ensures Answered(ok) && ok == Waited(old(machine), p, old(script)).0
      ensures ok ==> holder == Some(p)
                     && var g := old(PcOf(machine, p)); PcOf(machine, p) == ReindexHeld(g.gen, g.cur, g.walk)
      ensures !ok ==> PcOf(machine, p).Idle?
      ensures old(holder.None? && script == []) ==>
                ok && Leaves(old(machine.gens), old(machine.alias), old(machine.saved), Some(p))
    {
      hide Step, Exec, Played, Waited;
      ok := Await(p);
      if ok {
        GatedStep(machine, p, Done);
        holder := Some(p);
        Record(Call(p, Done, START));
        held := held + 1;
      } else {
        GatedStep(machine, p, Lost({}, false));
        Record(Call(p, Lost({}, false), START));
        failed := failed + 1;
      }
    }

    method Release(p: Pid)
      requires Valid() && PcOf(machine, p).Releasing?
      modifies this, index, checkpoint
      ensures Ran() && moves == old(moves) && held == old(held) && released == old(released) + 1
      ensures Took(p, Call(p, Done, START)) && failed == old(failed)
      ensures PcOf(machine, p).Idle? && holder != Some(p)
      ensures Leaves(old(machine.gens), old(machine.alias), old(machine.saved), None)
    {
      hide Step, Exec, Played;
      var _ := Begin(p);
      WhoHoldsTheLock(origin, countable, log, p);
      ReleasingStep(machine, p);
      holder := None;
      Record(Call(p, Done, START));
      released := released + 1;
    }

    /** The call neither took the lock nor let it go. */
    twostate predicate Locked()
      reads this, index, checkpoint
    {
      Ran() && held == old(held) && released == old(released)
    }

    /** The call neither moved the lock nor asked for the alias or the cursor to be moved. */
    twostate predicate Kept()
      reads this, index, checkpoint
    {
      Locked() && moves == old(moves)
    }

    /** The machine's counter moves past a call the code leaves out: nothing to write, nothing to remove, no Counter. */
    method Skip(p: Pid)
      requires Valid()
      requires var pc := PcOf(machine, p);
               || (pc.SyncPaged? && pc.page.upserted == map[])
               || (pc.SyncBulked? && pc.page.removed == {})
               || (pc.Paged? && pc.page.upserted == map[])
               || (pc.Created? && !countable)
      modifies this`machine, this`log, this`steps
      ensures Kept() && LeavesAll() && failed == old(failed)
      ensures var pc := old(PcOf(machine, p));
              PcOf(machine, p) ==
              match pc
              case SyncPaged(live, cur, page) => SyncBulked(live, cur, page)
              case SyncBulked(live, cur, page) => SyncRemoved(live, cur, page)
              case Paged(gen, cur, page, tally, walk) => Onward(gen, page, tally, walk)
              case _ => Walking(pc.gen, START, Tally(0, 0, 0), Begun({}))
    {
      var pc := PcOf(machine, p);
      if pc.Paged? && pc.gen in machine.gens {
        assert machine.gens[pc.gen] + pc.page.upserted == machine.gens[pc.gen];
        assert machine.gens[pc.gen := machine.gens[pc.gen]] == machine.gens;
      }
      Record(Call(p, Done, START));
    }

    // ---- search.Checkpoint ----

    method Load(p: Pid) returns (ok: bool, cur: Cursor)
      requires Valid() && PcOf(machine, p).SyncHeld?
      modifies this, index, checkpoint
      ensures Kept()
      ensures Answered(ok) && Took(p, Call(p, Next(old(script)).fate, START))
      ensures ok <==> Next(old(script)).fate.Done?
      ensures PcOf(machine, p) == if ok then SyncLoaded(Place(cur)) else Releasing
      ensures old(script) == [] ==> ok && Place(cur) == old(machine.saved)
      ensures LeavesAll()
    {
      hide Exec, Played;
      var turn := Begin(p);
      var progress;
      ok, progress := checkpoint.Load(turn.fate);
      cur := progress.cursor;
      Record(Call(p, turn.fate, START));
      failed := failed + (if ok then 0 else 1);
    }

    method Save(p: Pid, c: Cursor) returns (ok: bool)
      requires Valid() && PcOf(machine, p).SyncRemoved? && PcOf(machine, p).page.next == Place(c)
      modifies this, index, checkpoint
      ensures Locked() && moves == old(moves) + 1
      ensures Answered(ok) && Took(p, Call(p, Next(old(script)).fate, START))
      ensures ok <==> Next(old(script)).fate.Done? && Storable(Place(c))
      ensures ok ==> Watermark() >= Micros(c.through)
      ensures var pc := old(PcOf(machine, p));
              PcOf(machine, p) == if ok && pc.page.more then SyncReady(pc.live, pc.page.next) else Releasing
      ensures old(script) == [] ==> (ok <==> Storable(Place(c)))
      ensures Leaves(old(machine.gens), old(machine.alias), if ok then Place(c) else old(machine.saved), old(machine.holder))
    {
      hide Step, Exec, Played, Upserted, Loaded;
      var turn := Begin(p);
      ok := checkpoint.Save(c, turn.now, turn.fate);
      SyncRemovedStep(machine, p, turn.fate);
      Record(Call(p, turn.fate, START));
      moves := moves + 1;
      failed := failed + (if ok then 0 else 1);
    }

    method SaveWalked(p: Pid, c: Cursor) returns (ok: bool)
      requires Valid() && PcOf(machine, p).Promoted? && PcOf(machine, p).cur == Place(c)
      modifies this, index, checkpoint
      ensures Locked() && moves == old(moves) + 1 && PcOf(machine, p).Releasing?
      ensures Answered(ok) && Took(p, Call(p, Next(old(script)).fate, START))
      ensures ok <==> Next(old(script)).fate.Done? && Storable(Place(c))
      ensures ok ==> Watermark() >= Micros(c.through)
      ensures old(script) == [] ==> (ok <==> Storable(Place(c)))
      ensures Leaves(old(machine.gens), old(machine.alias), if ok then Place(c) else old(machine.saved), old(machine.holder))
    {
      hide Step, Exec, Played, Upserted, Loaded;
      var turn := Begin(p);
      ok := checkpoint.Save(c, turn.now, turn.fate);
      PromotedStep(machine, p, turn.fate, START);
      Record(Call(p, turn.fate, START));
      moves := moves + 1;
      failed := failed + (if ok then 0 else 1);
    }

    // ---- search.Index ----

    method Live(p: Pid) returns (ok: bool, live: Option<Gen>)
      requires Valid() && PcOf(machine, p).SyncLoaded?
      modifies this, index, checkpoint
      ensures Kept()
      ensures Answered(ok) && Took(p, Call(p, Next(old(script)).fate, START))
      ensures ok <==> Next(old(script)).fate.Done?
      ensures PcOf(machine, p) == if ok then SyncReady(live, old(PcOf(machine, p)).cur) else Releasing
      ensures old(script) == [] ==> ok && live == old(machine.alias)
      ensures LeavesAll()
    {
      hide Exec, Played;
      var turn := Begin(p);
      ok, live := index.Live(turn.fate);
      Record(Call(p, turn.fate, START));
      failed := failed + (if ok then 0 else 1);
    }

    method Bulk(p: Pid, live: Option<Gen>, docs: seq<Entry>) returns (ok: bool)
      requires Valid() && docs != []
      requires var pc := PcOf(machine, p);
               pc.SyncPaged? && pc.live == live && Imported(docs) == pc.page.upserted && pc.page.upserted != map[]
      modifies this, index, checkpoint
      ensures Kept()
      ensures Answered(ok) && Took(p, Call(p, if ok then Done else Next(old(script)).fate, START))
      ensures var turn := Next(old(script));
              ok <==> live.Some? && live.value in Played(old(machine), p, turn.others).gens && AllTaken(docs, turn.fate)
      ensures var pc := old(PcOf(machine, p));
              PcOf(machine, p) == if ok then SyncBulked(pc.live, pc.cur, pc.page) else Releasing
      ensures old(script) == [] ==> (ok <==> live.Some? && live.value in old(machine.gens))
      ensures Leaves(Filled(old(machine.gens), live, Imported(docs)),
                     old(machine.alias), old(machine.saved), old(machine.holder))
    {
      hide Step, Exec, Filled, Played, Imported;
      var turn := Begin(p);
      ok := Import(p, live, docs, turn.fate);
      failed := failed + (if ok then 0 else 1);
    }

    /** The import of a pass's page, once its turn has come. */
    method Import(p: Pid, live: Option<Gen>, docs: seq<Entry>, fate: Fate) returns (ok: bool)
      requires Valid() && docs != []
      requires var pc := PcOf(machine, p);
               pc.SyncPaged? && pc.live == live && Imported(docs) == pc.page.upserted && pc.page.upserted != map[]
      modifies this`machine, this`log, this`steps, index
      ensures Valid() && (ok <==> live.Some? && live.value in old(machine).gens && AllTaken(docs, fate))
      ensures machine == Step(old(machine), Call(p, if ok then Done else fate, START))
      ensures var pc := old(PcOf(machine, p));
              PcOf(machine, p) == if ok then SyncBulked(pc.live, pc.cur, pc.page) else Releasing
      ensures ok || live.None? || live.value !in old(machine).gens ==>
                machine.gens == Filled(old(machine).gens, live, Imported(docs))
      ensures machine.alias == old(machine.alias) && machine.saved == old(machine.saved)
      ensures machine.holder == old(machine.holder)
    {
      hide Step, Exec;
      ok := index.Bulk(live, docs, fate);
      var answer := if ok then Done else fate;
      SyncPagedStep(machine, p, Lands(docs, answer), answer);
      Record(Call(p, answer, START));
    }

    /** The import of a walk's page, once its turn has come. */
    method Land(p: Pid, gen: Gen, docs: seq<Entry>, fate: Fate) returns (ok: bool)
      requires Valid() && docs != [] && gen in index.gens
      requires var pc := PcOf(machine, p);
               pc.Paged? && pc.gen == gen && Imported(docs) == pc.page.upserted && pc.page.upserted != map[]
      modifies this`machine, this`log, this`steps, index
      ensures Valid() && (ok <==> AllTaken(docs, fate))
      ensures machine == Step(old(machine), Call(p, if ok then Done else fate, START))
      ensures !ok ==> PcOf(machine, p).Idle?
      ensures ok ==> var pc := old(PcOf(machine, p)); PcOf(machine, p) == Onward(gen, pc.page, pc.tally, pc.walk)
      ensures ok ==> machine.gens == Filled(old(machine.gens), Some(gen), Imported(docs))
      ensures machine.alias == old(machine.alias) && machine.saved == old(machine.saved)
      ensures machine.holder == old(machine.holder)
    {
      hide Step, Exec, Played;
      ok := index.Bulk(Some(gen), docs, fate);
      PagedStep(machine, p, Lands(docs, if ok then Done else fate), if ok then Done else fate);
      Record(Call(p, if ok then Done else fate, START));
    }

    method BulkInto(p: Pid, gen: Gen, docs: seq<Entry>) returns (ok: bool)
      requires Valid() && docs != []
      requires var pc := PcOf(machine, p);
               pc.Paged? && pc.gen == gen && Imported(docs) == pc.page.upserted && pc.page.upserted != map[]
      modifies this, index, checkpoint
      ensures Kept()
      ensures Answered(ok) && Took(p, Call(p, if ok then Done else Next(old(script)).fate, START))
      ensures ok <==> AllTaken(docs, Next(old(script)).fate)
      ensures !ok ==> PcOf(machine, p).Idle?
      ensures ok ==> var pc := old(PcOf(machine, p)); PcOf(machine, p) == Onward(gen, pc.page, pc.tally, pc.walk)
      ensures ok || old(script) != []
      ensures Leaves(Filled(old(machine.gens), Some(gen), Imported(docs)),
                     old(machine.alias), old(machine.saved), old(machine.holder))
    {
      hide Step, Exec, Filled, Imported, Played;
      var turn := BeginWalking(p);
      ok := Land(p, gen, docs, turn.fate);
      failed := failed + (if ok then 0 else 1);
    }

    method Remove(p: Pid, live: Option<Gen>, ids: seq<Id>) returns (ok: bool)
      requires Valid()
      requires var pc := PcOf(machine, p);
               pc.SyncBulked? && pc.live == live && Ids(ids) == pc.page.removed && pc.page.removed != {}
      modifies this, index, checkpoint
      ensures Kept()
      ensures Answered(ok)
      ensures var cut := CutAt(ids, Next(old(script)).fate);
              (ok <==> cut == |ids|) && Took(p, Call(p, if ok then Done else Lost(Ids(ids[..cut]), false), START))
      ensures var pc := old(PcOf(machine, p));
              PcOf(machine, p) == if ok then SyncRemoved(pc.live, pc.cur, pc.page) else Releasing
      ensures old(script) == [] ==> ok
      ensures Leaves(Emptied(old(machine.gens), live, Ids(ids)), old(machine.alias), old(machine.saved), old(machine.holder))
    {
      hide Step, Exec, Played, Emptied, Ids, CutAt;
      var turn := Begin(p);
      ok := Delete(p, live, ids, turn.fate);
      NothingLost(ids);
      failed := failed + (if ok then 0 else 1);
    }

    lemma NothingLost(ids: seq<Id>)
      ensures CutAt(ids, Done) == |ids|
    {
      if ids != [] {
        NothingLost(ids[1..]);
      }
    }

    /** The deletions of a pass's page, once their turn has come. */
    method Delete(p: Pid, live: Option<Gen>, ids: seq<Id>, fate: Fate) returns (ok: bool)
      requires Valid()
      requires var pc := PcOf(machine, p);
               pc.SyncBulked? && pc.live == live && Ids(ids) == pc.page.removed && pc.page.removed != {}
      modifies this`machine, this`log, this`steps, index
      ensures Valid() && (ok <==> CutAt(ids, fate) == |ids|)
      ensures var cut := CutAt(ids, fate);
              machine == Step(old(machine), Call(p, if ok then Done else Lost(Ids(ids[..cut]), false), START))
      ensures var pc := old(PcOf(machine, p));
              PcOf(machine, p) == if ok then SyncRemoved(pc.live, pc.cur, pc.page) else Releasing
      ensures ok ==> machine.gens == Emptied(old(machine).gens, live, Ids(ids))
      ensures machine.alias == old(machine.alias) && machine.saved == old(machine.saved)
      ensures machine.holder == old(machine.holder)
    {
      hide Step, Exec, CutAt;
      var cut: nat;
      ok, cut := index.Remove(live, ids, fate);
      ghost var page := PcOf(machine, p).page;
      assert Ids(ids[..cut]) <= Ids(ids);
      assert page.removed * Ids(ids[..cut]) == Ids(ids[..cut]);
      assert ok ==> ids[..cut] == ids;
      SyncBulkedStep(machine, p, Ids(ids[..cut]), if ok then Done else Lost(Ids(ids[..cut]), false));
      Record(Call(p, if ok then Done else Lost(Ids(ids[..cut]), false), START));
    }

    method CreateGeneration(p: Pid, gen: Gen) returns (ok: bool)
      requires Valid() && PcOf(machine, p).Idle?
      modifies this, index, checkpoint
      ensures Kept() && PcOf(machine, p) == if ok then Created(gen) else Idle
      ensures Answered(ok) && Took(p, StartReindex(p, gen, Next(old(script)).fate))
      ensures var turn := Next(old(script));
              ok <==> gen !in Played(old(machine), p, turn.others).gens && turn.fate.Done?
      ensures old(script) == [] ==> (ok <==> gen !in old(machine.gens))
      ensures Leaves(if ok then old(machine.gens)[gen := map[]] else old(machine.gens),
                     old(machine.alias), old(machine.saved), old(machine.holder))
    {
      hide Step, Exec, Played;
      var turn := Begin(p);
      ok := Create(p, gen, turn.fate);
      failed := failed + (if ok then 0 else 1);
    }

    /** The creation, once its turn has come. */
    method Create(p: Pid, gen: Gen, fate: Fate) returns (ok: bool)
      requires Valid() && PcOf(machine, p).Idle?
      modifies this`machine, this`log, this`steps, index
      ensures Valid() && machine == Step(old(machine), StartReindex(p, gen, fate))
      ensures ok <==> gen !in old(machine).gens && fate.Done?
      ensures PcOf(machine, p) == if ok then Created(gen) else Idle
      ensures machine.gens == if gen !in old(machine).gens && (fate.Done? || fate.applied)
                              then old(machine).gens[gen := map[]] else old(machine).gens
      ensures machine.alias == old(machine.alias) && machine.saved == old(machine.saved)
      ensures machine.holder == old(machine.holder)
    {
      hide Step, Exec;
      ok := index.CreateGeneration(gen, fate);
      CreationStep(machine, p, gen, fate);
      Record(StartReindex(p, gen, fate));
    }

    method CountIn(p: Pid, gen: Gen) returns (ok: bool, count: nat)
      requires Valid() && PcOf(machine, p).Walked? && PcOf(machine, p).gen == gen
      modifies this, index, checkpoint
      ensures Kept()
      ensures Answered(ok) && Took(p, Call(p, Next(old(script)).fate, START))
      ensures ok <==> Next(old(script)).fate.Done?
      ensures var pc := old(PcOf(machine, p));
              PcOf(machine, p) ==
              if ok && count >= Expected(countable, pc.tally) then Gated(pc.gen, pc.cur, pc.walk) else Idle
      ensures ok ==> gen in machine.gens && count == |machine.gens[gen]|
      ensures old(script) == [] ==> ok && machine.gens == old(machine.gens)
      ensures LeavesAll()
    {
      hide Step, Exec, Played;
      var turn := BeginWalking(p);
      ok, count := index.CountIn(gen, turn.fate);
      WalkedStep(machine, p, turn.fate);
      Record(Call(p, turn.fate, START));
      failed := failed + (if ok then 0 else 1);
    }

    method Promote(p: Pid, gen: Gen) returns (ok: bool)
      requires Valid() && PcOf(machine, p).ReindexHeld? && PcOf(machine, p).gen == gen
      modifies this, index, checkpoint
      ensures Locked() && moves == old(moves) + 1
      ensures Answered(ok) && Took(p, Call(p, Next(old(script)).fate, START))
      ensures ok <==> Next(old(script)).fate.Done?
      ensures PcOf(machine, p) == if ok then Promoted(gen, old(PcOf(machine, p)).cur) else Releasing
      ensures old(script) == [] ==> ok
      ensures Leaves(old(machine.gens), Some(gen), old(machine.saved), old(machine.holder))
    {
      hide Step, Exec, Played;
      var turn := Begin(p);
      ok := index.Promote(gen, turn.fate);
      ReindexHeldStep(machine, p, turn.fate);
      Record(Call(p, turn.fate, START));
      moves := moves + 1;
      failed := failed + (if ok then 0 else 1);
    }

    // ---- search.Source and search.Counter ----

    method Count(p: Pid) returns (ok: bool, total: nat)
      requires Valid() && PcOf(machine, p).Created? && countable
      modifies this, index, checkpoint
      ensures Kept()
      ensures Answered(ok) && Took(p, Call(p, Next(old(script)).fate, START))
      ensures ok <==> Next(old(script)).fate.Done?
      ensures PcOf(machine, p) ==
              if ok then Walking(old(PcOf(machine, p)).gen, START, Tally(0, 0, total), Begun(Alive(source))) else Idle
      ensures old(script) == [] ==> ok && total == |Alive(old(machine.source))|
      ensures LeavesAll()
    {
      hide Step, Exec, Played;
      var turn := Begin(p);
      ok, total := turn.fate.Done?, |Alive(source)|;
      CreatedStep(machine, p, turn.fate);
      Record(Call(p, turn.fate, START));
      failed := failed + (if ok then 0 else 1);
    }

    method ChangedSince(p: Pid, cur: Cursor, limit: nat) returns (ok: bool, c: Changes<Entry>)
      requires Valid() && limit > 0
      requires var pc := PcOf(machine, p); (pc.SyncReady? || pc.Walking?) && pc.cur == Place(cur)
      modifies this, index, checkpoint
      ensures Kept()
      ensures Answered(ok) && Took(p, Call(p, Next(old(script)).fate, Place(c.next)))
      ensures ok <==> Next(old(script)).fate.Done?
      ensures old(PcOf(machine, p)).SyncReady? ==>
                var pc := old(PcOf(machine, p));
                if ok then PcOf(machine, p).SyncPaged? && PcOf(machine, p) == SyncPaged(pc.live, pc.cur, PcOf(machine, p).page)
                else PcOf(machine, p).Releasing?
      ensures old(PcOf(machine, p)).Walking? ==>
                var pc := old(PcOf(machine, p));
                if ok then PcOf(machine, p).Paged?
                           && PcOf(machine, p) == Paged(pc.gen, pc.cur, PcOf(machine, p).page, pc.tally, pc.walk)
                else PcOf(machine, p).Idle?
      ensures ok ==> Delivers(c, PcOf(machine, p).page)
      ensures old(script) != [] ==> |script| < |old(script)|
      ensures ok ==> c.more ==> Beyond(source, Place(cur)) && |Rows(source, Place(c.next))| < |Rows(source, Place(cur))|
      ensures Place(c.next) == Reached(source, Place(cur), limit) && c.next.through == Next(old(script)).through
      ensures ok ==> PcOf(machine, p).page == PageOf(source, Place(cur), Place(c.next))
      ensures old(script) == [] ==> ok && Place(c.next) == Reached(old(machine.source), Place(cur), limit)
                                    && PcOf(machine, p).page == PageOf(old(machine.source), Place(cur), Place(c.next))
      ensures LeavesAll()
    {
      hide Step, Exec, Played, Delivers, PageOf, Reached, Beyond, Rows, By;
      var turn := Begin(p);
      ok := turn.fate.Done?;
      c := Ask(p, cur, limit, turn);
      failed := failed + (if ok then 0 else 1);
    }

    /** The answer of the source, once its turn has come. */
    method Ask(p: Pid, cur: Cursor, limit: nat, turn: Turn) returns (c: Changes<Entry>)
      requires Valid() && limit > 0
      requires var pc := PcOf(machine, p); (pc.SyncReady? || pc.Walking?) && pc.cur == Place(cur)
      modifies this`machine, this`log, this`steps
      ensures Valid() && Place(c.next) == Reached(source, Place(cur), limit) && c.next.through == turn.through
      ensures machine == Step(old(machine), Call(p, turn.fate, Place(c.next)))
      ensures var s, pc := old(machine), old(PcOf(machine, p));
              var page := PageOf(source, Place(cur), Place(c.next));
              && Delivers(c, page)
              && PcOf(machine, p) == (match pc
                                      case SyncReady(live, at) =>
                                        if turn.fate.Done? then SyncPaged(live, at, page) else Releasing
                                      case Walking(gen, at, tally, walk) =>
                                        if turn.fate.Done? then Paged(gen, at, page, tally, walk) else Idle
                                      case _ => pc)
              && machine.gens == s.gens && machine.alias == s.alias
              && machine.saved == s.saved && machine.holder == s.holder
      ensures c.more ==> Beyond(source, Place(cur)) && |Rows(source, Place(c.next))| < |Rows(source, Place(cur))|
    {
      hide Step, Exec;
      c := Sources.ChangedSince(source, Place(cur), limit, turn.through);
      PagesAdvance(source, Place(cur), limit);
      if c.more {
        MoreMeansMore(source, Place(cur), limit);
        WalkShrinks(source, Place(cur), limit);
      }
      ServedStep(machine, p, turn.fate, Place(c.next));
      Record(Call(p, turn.fate, Place(c.next)));
    }
  }
}
