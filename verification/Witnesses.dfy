/** Concrete runs: everything Guarantees makes an exception of really occurs. */
module Witnesses {
  import opened Positions
  import opened Options
  import opened Protocol
  import opened Safety
  import opened Guarantees
  import opened Moves

  const A := Position(1, "a")
  const ONE: Table := map["a" := Record(1, true, true, "doc")]

  const FROM_NOTHING := Start(map[], false)
  const FROM_ONE := Start(ONE, false)

  lemma OnePages()
    ensures Serves(map[], START, START) && Upserts(map[], START, START) == map[] && !Beyond(map[], START)
    ensures Serves(ONE, START, A) && Upserts(ONE, START, A) == map["a" := "doc"] && !Beyond(ONE, A)
    ensures Removals(ONE, START, A) == {} && Alive(ONE) == {"a"}
  {
    assert Key(ONE, "a") == A && Within(ONE, "a", START, A);
    assert Removals(ONE, START, A) == {};
  }

  /** The one record becomes `r`, which is not wanted, after the cursor has passed its first version. */
  lemma OneBecomes(r: Record, from: Position)
    requires r.txn == 2 && !(r.alive && r.acceptable) && (from == START || from == A)
    ensures var t, end := ONE["a" := r], Position(2, "a");
            && Serves(t, from, end) && Upserts(t, from, end) == map[] && !Beyond(t, end) && Key(t, "a") == end
            && Removals(t, from, end) == if r.alive then {} else {"a"}
  {
    var t, end := ONE["a" := r], Position(2, "a");
    assert Key(t, "a") == end && Within(t, "a", from, end);
  }

  // ---- a record lost between Promote and Save ----

  /** A rebuild that walked before a record was written and dies between Promote and Save leaves it out, with nobody running. */
  lemma AnAbandonedPromotionLosesARecord() returns (actions: seq<Action>)
    ensures var s := Run(FROM_NOTHING, actions);
            Missing(s, "a") && s.holder.None? && forall p: Pid :: PcOf(s, p).Idle?
  {
    hide Run, Upserts, Removals, Serves, Beyond, Refusals, Alive;
    OnePages();
    Starts(FROM_NOTHING);
    actions := Walks(FROM_NOTHING, [], 2, "g2", START);
    actions := Edits(FROM_NOTHING, actions, "a", ONE["a"]);
    actions := Walks(FROM_NOTHING, actions, 1, "g1", A);
    actions := Promotes(FROM_NOTHING, actions, 1);
    actions := Finishes(FROM_NOTHING, actions, 1);
    actions := Promotes(FROM_NOTHING, actions, 2);
    actions := Dies(FROM_NOTHING, actions, 2);
    MissingExactly(map[], false, actions, "a");
  }

  const HUGE := Position(MAX_INT64 + 1, "a")
  const LATE: Table := map["a" := Record(MAX_INT64 + 1, true, true, "doc")]

  lemma LatePage()
    ensures Serves(LATE, START, HUGE) && !Beyond(LATE, HUGE)
  {
    assert Key(LATE, "a") == HUGE;
  }

  /** A cursor too large for its column: every call is answered, the alias has moved and the cursor has not. */
  lemma AnUnstorableCursorMovesTheAlias() returns (actions: seq<Action>)
    ensures var s := Run(Start(LATE, false), actions);
            && Smooth(actions) && s.alias == Some("g") && s.saved == START && s.gap == Open(HUGE, START)
            && s.holder.None? && forall p: Pid :: PcOf(s, p).Idle?
  {
    hide Run, Upserts, Removals, Serves, Beyond;
    LatePage();
    Starts(Start(LATE, false));
    actions := Walks(Start(LATE, false), [], 1, "g", HUGE);
    actions := Promotes(Start(LATE, false), actions, 1);
    actions := Finishes(Start(LATE, false), actions, 1);
  }

  // ---- a record that changes while a walk goes by ----

  const TWO: Table := map["a" := Record(1, true, true, "old"), "b" := Record(2, true, true, "new")]
  const B := Position(2, "b")
  const FROM_TWO := Start(TWO, false)

  function Edited(r: Record): Table {
    TWO["a" := r]
  }

  lemma TwoPages(r: Record)
    requires r.txn == 3
    ensures Serves(TWO, START, A) && PageOf(TWO, START, A) == Page(map["a" := "old"], {}, 0, A, true)
    ensures Serves(TWO, A, B) && PageOf(TWO, A, B) == Page(map["b" := "new"], {}, 0, B, false)
    ensures var t, end := Edited(r), Position(3, "a");
            && Serves(t, A, end) && !Beyond(t, end) && "b" in Upserts(t, A, end)
            && ("a" in Upserts(t, A, end) <==> r.alive && r.acceptable) && ("a" in Removals(t, A, end) <==> !r.alive)
  {
    var t := Edited(r);
    assert Key(TWO, "a") == A && Key(TWO, "b") == B;
    assert Key(t, "a") == Position(3, "a") && Key(t, "b") == B;
    assert Within(TWO, "a", START, A) && !Within(TWO, "b", START, A) && Below(A, Key(TWO, "b"));
    assert Upserts(TWO, START, A) == map["a" := "old"] && Removals(TWO, START, A) == {} && Refusals(TWO, START, A) == {};
    assert !Within(TWO, "a", A, B) && Within(TWO, "b", A, B);
    assert Upserts(TWO, A, B) == map["b" := "new"] && Removals(TWO, A, B) == {} && Refusals(TWO, A, B) == {};
    assert Within(t, "a", A, Position(3, "a")) && Within(t, "b", A, Position(3, "a"));
  }

  lemma HalfWalked() returns (actions: seq<Action>)
    ensures Smooth(actions)
    ensures var s := Run(FROM_TWO, actions);
            && s.source == TWO && s.holder.None? && s.alias.None? && s.saved == START && s.served == A
            && "g" in s.gens
            && PcOf(s, 1) == Walking("g", A, Tally(1, 0, 0), Walk({}, map["a" := "old"], {}, {}))
  {
    hide Run, PageOf, Serves, Onward;
    TwoPages(Record(3, true, true, ""));
    Starts(FROM_TWO);
    actions := Begins(FROM_TWO, [], 1, "g");
    actions := Turns(FROM_TWO, actions, 1, A);
    AfterTheFirstPage("g");
  }

  lemma AfterTheFirstPage(gen: Gen)
    ensures Onward(gen, Page(map["a" := "old"], {}, 0, A, true), Tally(0, 0, 0), Begun({}))
            == Walking(gen, A, Tally(1, 0, 0), Walk({}, map["a" := "old"], {}, {}))
  {
    var docs, none: Content := map["a" := "old"], map[];
    assert |docs| == 1 && none + docs == docs && none.Keys * docs.Keys == {};
  }

  /** A walk over two records, the first of which becomes `r` between the pages. */
  lemma EditedMidWalk(r: Record) returns (actions: seq<Action>)
    requires r.txn == 3
    ensures Smooth(actions)
    ensures var s := Run(FROM_TWO, actions);
            && s.source == Edited(r) && s.holder.None? && s.alias.None? && s.saved == START && PcOf(s, 1).Walked?
            && var pc := PcOf(s, 1);
               && pc.gen == "g" && pc.cur == Position(3, "a")
               && "a" in pc.walk.built && (!(r.alive && r.acceptable) ==> pc.walk.built["a"] == "old")
               && (pc.walk.again == {} <==> !(r.alive && r.acceptable)) && ("a" in pc.walk.skipped <==> !r.alive)
  {
    hide Run, Serves, Upserts, Removals, Refusals, Beyond;
    var end := Position(3, "a");
    actions := HalfWalked();
    TwoPages(r);
    actions := Edits(FROM_TWO, actions, "a", r);
    actions := Turns(FROM_TWO, actions, 1, end);
    AgainIfUpserted(Upserts(Edited(r), A, end));
  }

  lemma AgainIfUpserted(upserted: Content)
    ensures {} + map["a" := "old"].Keys * upserted.Keys == {} <==> "a" !in upserted
  {
    assert map["a" := "old"].Keys == {"a"};
    if "a" in upserted {
      assert "a" in map["a" := "old"].Keys * upserted.Keys;
    }
  }

  /** From the gate to a stored cursor, with nobody in the way. */
  lemma Completes(r: Record) returns (actions: seq<Action>)
    requires r.txn == 3 && !(r.alive && r.acceptable)
    ensures Smooth(actions)
    ensures var s := Run(FROM_TWO, actions);
            && s.source == Edited(r) && s.holder.None? && s.gap.Closed? && s.saved == s.walkEnd == Position(3, "a")
            && "a" in s.walk.built && s.walk.built["a"] == "old"
  {
    hide Run;
    actions := EditedMidWalk(r);
    actions := Gates(FROM_TWO, actions, 1);
    actions := Promotes(FROM_TWO, actions, 1);
    actions := Finishes(FROM_TWO, actions, 1);
  }

  /** A walk that upserts a record and then reads its tombstone promotes a document nothing will remove. */
  lemma AWalkLeavesAGhost() returns (actions: seq<Action>)
    ensures var s := Run(FROM_TWO, actions); Smooth(actions) && Ghost(s, "a") && s.gap.Closed?
  {
    actions := Completes(Record(3, false, true, ""));
    GhostsExactly(TWO, false, actions, "a");
  }

  /** A record that is edited during the walk into one the service refuses keeps its old document in the new generation. */
  lemma ARefusalLeavesItsDocument() returns (actions: seq<Action>)
    ensures var s := Run(FROM_TWO, actions);
            && Smooth(actions) && s.gap.Closed? && "a" in s.source && AtMost(Key(s.source, "a"), s.saved)
            && s.source["a"].alive && !Wanted(s.source, "a") && "a" in LiveContent(s) && LiveContent(s)["a"] == "old"
  {
    actions := Completes(Record(3, true, false, "old"));
    Reachable(TWO, false, actions);
  }

  /** A record edited between two pages is sent twice, and a rebuild in which every call succeeds is refused at the gate. */
  lemma AnEditRefusesTheRebuild() returns (actions: seq<Action>)
    ensures var s := Run(FROM_TWO, actions);
            && Smooth(actions) && PcOf(s, 1).Walked? && PcOf(s, 1).walk.again != {}
            && PcOf(Step(s, Call(1, Done, START)), 1).Idle?
  {
    hide Run, Step;
    actions := EditedMidWalk(Record(3, true, true, "newer"));
    GateDecides(FROM_TWO, actions, 1);
  }

  /** Edited after the last page was served, it is not: the generation gets through with the old version. */
  lemma AnEditTooLateGetsThrough() returns (actions: seq<Action>)
    ensures var s := Run(FROM_TWO, actions);
            && Smooth(actions) && s.source == Edited(Record(3, true, true, "newer"))
            && PcOf(s, 1).Gated? && "a" in PcOf(s, 1).walk.built && PcOf(s, 1).walk.built["a"] == "old"
  {
    hide Run, Serves, PageOf;
    TwoPages(Record(3, true, true, "newer"));
    actions := HalfWalked();
    actions := Asks(FROM_TWO, actions, 1, B);
    actions := Edits(FROM_TWO, actions, "a", Record(3, true, true, "newer"));
    actions := Puts(FROM_TWO, actions, 1);
    AgainIfUpserted(map["b" := "new"]);
    actions := Gates(FROM_TWO, actions, 1);
  }

  // ---- a source that counts ----

  const COUNTING := Start(ONE, true)

  /** A row deleted between the count and its page: the generation is what it should be, and the gate refuses it. */
  lemma ADeletionRefusesTheRebuild() returns (actions: seq<Action>)
    ensures var s := Run(COUNTING, actions);
            && Smooth(actions) && PcOf(s, 1).Walked? && Alive(s.source) == {} && s.gens == map["g" := map[]]
            && PcOf(Step(s, Call(1, Done, START)), 1).Idle?
  {
    hide Run, Step, Serves, PageOf, Alive;
    var r, end := Record(2, false, true, ""), Position(2, "a");
    OnePages();
    OneBecomes(r, START);
    DeletedPage(r, end);
    Starts(COUNTING);
    actions := Begins(COUNTING, [], 1, "g");
    actions := Edits(COUNTING, actions, "a", r);
    actions := Turns(COUNTING, actions, 1, end);
    NothingBuilt({"a"});
    GateDecides(COUNTING, actions, 1);
  }

  lemma NothingBuilt(counted: set<Id>)
    requires |counted| == 1
    ensures var page := Page(map[], counted, 0, START, false);
            !GateOpens(true, Counted(Tally(0, 0, 1), page), Extended(Begun(counted), page))
  {
    var none: Content := map[];
    assert none + none == none && counted - none.Keys == counted;
  }

  lemma DeletedPage(r: Record, end: Position)
    requires r.txn == 2 && !r.alive && end == Position(2, "a")
    ensures PageOf(ONE["a" := r], START, end) == Page(map[], {"a"}, 0, end, false) && Alive(ONE["a" := r]) == {}
  {
    OneBecomes(r, START);
    assert Refusals(ONE["a" := r], START, end) == {};
  }

  // ---- what passes over, with an earlier generation live ----

  /** The one record is live and the cursor stored behind it. */
  lemma OneIsLive(p: Pid, gen: Gen) returns (actions: seq<Action>)
    ensures Smooth(actions)
    ensures Run(FROM_ONE, actions)
            == Init(ONE, false).(gens := map[gen := map["a" := "doc"]], alias := Some(gen), saved := A, served := A,
                                 promoted := {gen}, walk := Walk({}, map["a" := "doc"], {}, {}), walkEnd := A,
                                 procs := map[p := Idle])
  {
    hide Run, Upserts, Removals, Serves, Beyond;
    OnePages();
    Starts(FROM_ONE);
    actions := Walks(FROM_ONE, [], p, gen, A);
    actions := Promotes(FROM_ONE, actions, p);
    actions := Finishes(FROM_ONE, actions, p);
  }

  /** A record that becomes a refused one after the walk: the next pass only logs it, and its old document stays. */
  lemma APassKeepsWhatItRefuses() returns (actions: seq<Action>)
    ensures var s := Run(FROM_ONE, actions);
            && Smooth(actions) && s.gap.Closed? && s.holder.None? && "a" in s.source
            && Below(s.walkEnd, Key(s.source, "a")) && AtMost(Key(s.source, "a"), s.saved)
            && s.source["a"].alive && !Wanted(s.source, "a") && "a" in LiveContent(s)
  {
    hide Run, Upserts, Removals, Serves, Beyond;
    var r := Record(2, true, false, "doc");
    actions := OneIsLive(1, "g");
    OneBecomes(r, A);
    actions := Edits(FROM_ONE, actions, "a", r);
    NothingPruned(Serve(Run(FROM_ONE, actions), Position(2, "a")));
    actions := PassesOver(FROM_ONE, actions, 2, Position(2, "a"));
  }

  /**
   Deleted after the second rebuild's walk, removed from the live generation by a pass, and live again when the second
   rebuild is promoted and dies before its Save.
   */
  lemma AGhostInTheGap() returns (actions: seq<Action>)
    ensures var s := Run(FROM_ONE, actions);
            && Ghost(s, "a") && InGap(s.gap, Key(s.source, "a")) && "a" !in s.walk.skipped
            && s.holder.None? && forall p: Pid :: PcOf(s, p).Idle?
  {
    hide Run, Upserts, Serves, Removals, Beyond;
    var r := Record(2, false, true, "");
    OnePages();
    actions := OneIsLive(2, "g2");
    actions := Walks(FROM_ONE, actions, 1, "g1", A);
    OneBecomes(r, A);
    actions := Edits(FROM_ONE, actions, "a", r);
    actions := PassesOver(FROM_ONE, actions, 2, Position(2, "a"));
    actions := Promotes(FROM_ONE, actions, 1);
    actions := Dies(FROM_ONE, actions, 1);
    GhostsExactly(ONE, false, actions, "a");
  }
}
