/** The engine's collections: internal/typesense/index.go. */
module Indexes {
  import opened Options
  import opened Positions
  import opened Protocol

  datatype Entry = Entry(id: Id, doc: Doc)

  /** What importing the documents in order amounts to. */
  function Imported(docs: seq<Entry>): Content
    decreases |docs|
  {
    if docs == [] then map[]
    else Imported(docs[..|docs| - 1])[docs[|docs| - 1].id := docs[|docs| - 1].doc]
  }

  /** The part of an import that took effect. */
  function Lands(docs: seq<Entry>, fate: Fate): Content {
    if fate.Done? then Imported(docs) else Part(Imported(docs), fate.landed)
  }

  lemma LandsOneMore(docs: seq<Entry>, n: nat, fate: Fate)
    requires n < |docs|
    ensures Lands(docs[..n + 1], fate) ==
            if fate.Done? || docs[n].id in fate.landed
            then Lands(docs[..n], fate)[docs[n].id := docs[n].doc] else Lands(docs[..n], fate)
  {
    ImportedOneMore(docs, n);
  }

  /** The generations once documents have been written to one of them, or taken out of one. */
  function Filled(gens: map<Gen, Content>, gen: Option<Gen>, docs: Content): map<Gen, Content> {
    if gen.Some? && gen.value in gens then gens[gen.value := gens[gen.value] + docs] else gens
  }

  function Emptied(gens: map<Gen, Content>, gen: Option<Gen>, ids: set<Id>): map<Gen, Content> {
    if gen.Some? && gen.value in gens then gens[gen.value := gens[gen.value] - ids] else gens
  }

  lemma NothingFilledOrEmptied(gens: map<Gen, Content>, gen: Option<Gen>)
    ensures Filled(gens, gen, map[]) == gens && Emptied(gens, gen, {}) == gens
  {
    if gen.Some? && gen.value in gens {
      assert gens[gen.value] + map[] == gens[gen.value] && gens[gen.value] - {} == gens[gen.value];
      assert gens[gen.value := gens[gen.value]] == gens;
    }
  }

  function Ids(ids: seq<Id>): set<Id> {
    set id | id in ids
  }

  lemma ImportedOneMore(docs: seq<Entry>, n: nat)
    requires n < |docs|
    ensures Imported(docs[..n + 1]) == Imported(docs[..n])[docs[n].id := docs[n].doc]
  {
    assert docs[..n + 1][..n] == docs[..n];
  }

  lemma {:induction false} ImportedIds(docs: seq<Entry>, n: nat)
    requires n <= |docs|
    ensures Imported(docs[..n]).Keys == set i | 0 <= i < n :: docs[i].id
  {
    if n > 0 {
      ImportedIds(docs, n - 1);
      ImportedOneMore(docs, n - 1);
    }
  }

  lemma AllLanded(docs: seq<Entry>, fate: Fate)
    requires forall n | 0 <= n < |docs| :: fate.Done? || docs[n].id in fate.landed
    ensures Lands(docs, fate) == Imported(docs)
  {
    ImportedIds(docs, |docs|);
    assert docs[..|docs|] == docs;
  }

  /** The engine reports every document of an import as taken. */
  predicate AllTaken(docs: seq<Entry>, fate: Fate) {
    fate.Done? || (!fate.applied && forall d | d in docs :: d.id in fate.landed)
  }

  /** How many deletions go through before one fails. */
  function CutAt(ids: seq<Id>, fate: Fate): (n: nat)
    ensures n <= |ids|
  {
    if ids == [] || (fate.Lost? && ids[0] !in fate.landed) then 0 else 1 + CutAt(ids[1..], fate)
  }

  class Index {
    var gens: map<Gen, Content>
    var alias: Option<Gen>

    constructor ()
      ensures gens == map[] && alias == None
    {
      gens, alias := map[], None;
    }

    /** Creating a collection that exists is refused. */
    method CreateGeneration(gen: Gen, fate: Fate) returns (ok: bool)
      modifies this`gens
      ensures ok <==> gen !in old(gens) && fate.Done?
      ensures gens == if gen !in old(gens) && (fate.Done? || fate.applied) then old(gens)[gen := map[]] else old(gens)
    {
      if gen !in gens && (fate.Done? || fate.applied) {
        gens := gens[gen := map[]];
        ok := fate.Done?;
      } else {
        ok := false;
      }
    }

    /** The engine's import: one result per document, in order. */
    method Import(gen: Gen, docs: seq<Entry>, fate: Fate) returns (results: seq<bool>)
      requires gen in gens
      modifies this`gens
      ensures gens == Filled(old(gens), Some(gen), Lands(docs, fate))
      ensures |results| == |docs|
      ensures forall n | 0 <= n < |docs| :: results[n] <==> (fate.Done? || docs[n].id in fate.landed)
    {
      results := [];
      var content := gens[gen];
      while |results| < |docs|
        invariant |results| <= |docs| && gens == old(gens)
        invariant content == gens[gen] + Lands(docs[..|results|], fate)
        invariant forall n | 0 <= n < |results| :: results[n] <==> (fate.Done? || docs[n].id in fate.landed)
        decreases |docs| - |results|
      {
        var d := docs[|results|];
        var landed := fate.Done? || d.id in fate.landed;
        LandsOneMore(docs, |results|, fate);
        if landed {
          content := content[d.id := d.doc];
        }
        results := results + [landed];
      }
      assert docs[..|docs|] == docs;
      gens := gens[gen := content];
    }

    /** Lost(landed, true): the request itself fails; Lost(landed, false): the engine reports each document's result. */
    method Bulk(gen: Option<Gen>, docs: seq<Entry>, fate: Fate) returns (ok: bool)
      modifies this`gens
      ensures docs == [] ==> ok && gens == old(gens)
      ensures docs != [] ==> (ok <==> gen.Some? && gen.value in old(gens) && AllTaken(docs, fate))
      ensures docs != [] ==> gens == Filled(old(gens), gen, Lands(docs, if ok then Done else fate))
    {
      if docs == [] {
        return true;
      }
      if gen.None? || gen.value !in gens {
        return false;
      }
      var results := Import(gen.value, docs, fate);
      if fate.Lost? && fate.applied {
        return false;
      }
      var n := 0;
      while n < |results|
        invariant 0 <= n <= |results|
        invariant forall m | 0 <= m < n :: results[m]
      {
        if !results[n] {
          assert docs[n] in docs;
          return false;
        }
        n := n + 1;
      }
      AllLanded(docs, fate);
      return true;
    }

    /** A missing document, or a missing collection, is not an error; any other failure stops the loop. */
    method Remove(gen: Option<Gen>, ids: seq<Id>, fate: Fate) returns (ok: bool, cut: nat)
      modifies this`gens
      ensures cut == CutAt(ids, fate) && (ok <==> cut == |ids|)
      ensures !ok ==> fate.Lost?
      ensures gens == Emptied(old(gens), gen, Ids(ids[..cut]))
    {
      var n := 0;
      var found := gen.Some? && gen.value in gens;
      assert found ==> gens[gen.value := gens[gen.value]] == gens;
      while n < |ids|
        invariant 0 <= n <= |ids| && CutAt(ids, fate) == n + CutAt(ids[n..], fate)
        invariant !found ==> gens == old(gens)
        invariant found ==> gen.value in gens && gens == old(gens)[gen.value := gens[gen.value]]
                            && gens[gen.value] == old(gens)[gen.value] - Ids(ids[..n])
      {
        if fate.Lost? && ids[n] !in fate.landed {
          return false, n;
        }
        assert Ids(ids[..n + 1]) == Ids(ids[..n]) + {ids[n]};
        if found && ids[n] in gens[gen.value] {
          gens := gens[gen.value := gens[gen.value] - {ids[n]}];
        }
        n := n + 1;
      }
      return true, n;
    }

    method CountIn(gen: Gen, fate: Fate) returns (ok: bool, count: nat)
      ensures ok <==> gen in gens && fate.Done?
      ensures ok ==> count == |gens[gen]|
    {
      if gen in gens && fate.Done? {
        return true, |gens[gen]|;
      }
      return false, 0;
    }

    method Promote(gen: Gen, fate: Fate) returns (ok: bool)
      modifies this`alias
      ensures ok <==> fate.Done?
      ensures alias == if fate.Done? || fate.applied then Some(gen) else old(alias)
    {
      if fate.Done? || fate.applied {
        alias := Some(gen);
      }
      ok := fate.Done?;
    }

    /** No alias is no generation, and that is not a failure. */
    method Live(fate: Fate) returns (ok: bool, gen: Option<Gen>)
      ensures ok <==> fate.Done?
      ensures ok ==> gen == alias
    {
      if fate.Done? {
        return true, alias;
      }
      return false, None;
    }
  }
}
