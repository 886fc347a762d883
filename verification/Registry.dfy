/** The collection of swap chains: two tables behind separate locks, which must agree although a
    creation or a destruction updates them one after the other. Each context has its own thread. */
module Registry {
  import opened Surfaces
  import S = ChainSpec
  import opened ChainLaws

  type ChainId = nat

  /** `ids` lists the chains of each producer context; `table` maps each chain to its producer. */
  datatype Tables = Tables(ids: map<nat, set<ChainId>>, table: map<ChainId, nat>)
  {
    function IdsOf(c: nat): set<ChainId> {
      if c in ids then ids[c] else {}
    }

    function ChainsOf(c: nat): set<ChainId> {
      set id | id in table && table[id] == c
    }

    /** First half of a creation, under the table lock. */
    function Insert(id: ChainId, c: nat): Tables {
      this.(table := table[id := c])
    }

    /** Second half of a creation, under the ids lock. */
    function Record(id: ChainId, c: nat): Tables {
      this.(ids := ids[c := IdsOf(c) + {id}])
    }

    /** First half of a destruction, under the table lock; the entry goes before the chain has had
        the chance to reject the context. */
    function Remove(id: ChainId): Tables {
      this.(table := table - {id})
    }

    /** Second half of a destruction, under the ids lock. */
    function Forget(id: ChainId, c: nat): Tables {
      if c in ids then this.(ids := ids[c := ids[c] - {id}]) else this
    }
  }

  // ----- threads

  /** How far the thread of a context is in a call. `Iterating` holds the ids lock. */
  datatype Pc =
    | Idle
    | Creating(id: ChainId)
    | Destroying(id: ChainId)
    | Iterating(todo: set<ChainId>, found: map<ChainId, nat>)

  datatype State = State(tables: Tables, pcs: map<nat, Pc>)
  {
    function Pc(c: nat): Pc {
      if c in pcs then pcs[c] else Idle
    }

    function Goto(c: nat, pc: Pc, t: Tables): State {
      State(t, pcs[c := pc])
    }
  }

  /** One step of the thread of context `c`. `succeeds` says whether the chain could be created inside
      the call. `st` is what a destruction finds: the chain in the table, if the id is there, and the
      context and device of the call. */
  datatype Step =
    | Insert(c: nat, id: ChainId, succeeds: bool)
    | Record(c: nat)
    | Remove(c: nat, id: ChainId, st: S.St)
    | Forget(c: nat)
    | IterStart(c: nat)
    | IterNext(c: nat, id: ChainId)
    | IterEnd(c: nat)

  predicate IdsUnlocked(s: State) {
    forall c :: c in s.pcs ==> !s.pcs[c].Iterating?
  }

  /** The thread is at this point of a call and can acquire the lock. */
  predicate Enabled(s: State, step: Step) {
    var pc := s.Pc(step.c);
    match step
    case Insert(_, _, _) => pc.Idle?
    case Record(_) => pc.Creating? && IdsUnlocked(s)
    case Remove(_, id, st) =>
      pc.Idle? && (id in s.tables.table ==> st.chain.contextId == s.tables.table[id] && st.ctx.id == step.c)
    case Forget(_) => pc.Destroying? && IdsUnlocked(s)
    case IterStart(_) => pc.Idle? && IdsUnlocked(s)
    case IterNext(_, id) => pc.Iterating? && id in pc.todo
    case IterEnd(_) => pc.Iterating? && pc.todo == {}
  }

  function Next(s: State, step: Step): State
    requires Enabled(s, step)
  {
    var t, c := s.tables, step.c;
    match step
    case Insert(_, id, succeeds) =>
      if id in t.table || !succeeds then s else s.Goto(c, Creating(id), t.Insert(id, c))
    case Record(_) => s.Goto(c, Idle, t.Record(s.Pc(c).id, c))
    case Remove(_, id, st) =>
      if id in t.table && S.Destroy(st).1 != Ok(()) then
        s.Goto(c, Idle, t.Remove(id))
      else
        s.Goto(c, Destroying(id), t.Remove(id))
    case Forget(_) => s.Goto(c, Idle, t.Forget(s.Pc(c).id, c))
    case IterStart(_) => s.Goto(c, Iterating(t.IdsOf(c), map[]), t)
    case IterNext(_, id) =>
      var pc := s.Pc(c);
      s.Goto(c, Iterating(pc.todo - {id}, if id in t.table then pc.found[id := t.table[id]] else pc.found), t)
    case IterEnd(_) => s.Goto(c, Idle, t)
  }

  const START := State(Tables(map[], map[]), map[])

  function After(steps: seq<Step>): State {
    if steps == [] then START
    else
      var s := After(steps[..|steps| - 1]);
      var step := steps[|steps| - 1];
      if Enabled(s, step) then Next(s, step) else s
  }

  // ----- completeness, whatever callers do

  /** Every chain in the table is listed for its producer, unless the producer is just creating it;
      and a chain that its producer is destroying is not in the table under that producer. */
  ghost predicate Complete(s: State) {
    && (forall id :: id in s.tables.table ==> Listed(s, id, s.tables.table[id]))
    && (forall c :: s.Pc(c).Destroying? ==> s.Pc(c).id !in s.tables.ChainsOf(c))
  }

  predicate Listed(s: State, id: ChainId, c: nat) {
    id in s.tables.IdsOf(c) || s.Pc(c) == Creating(id)
  }

  lemma StepKeepsComplete(s: State, step: Step)
    requires Complete(s) && Enabled(s, step)
    ensures Complete(Next(s, step))
  {
    var s' := Next(s, step);
    forall id | id in s'.tables.table ensures Listed(s', id, s'.tables.table[id]) {
      assert id in s.tables.table ==> Listed(s, id, s.tables.table[id]);
    }
    forall c | s'.Pc(c).Destroying? ensures s'.Pc(c).id !in s'.tables.ChainsOf(c) {
      assert s.Pc(c).Destroying? ==> s.Pc(c).id !in s.tables.ChainsOf(c);
    }
  }

  /** In every run, even one in which chains are destroyed with foreign contexts, a chain in the table
      is in its producer's list or about to be put there. */
  lemma {:induction false} IndexComplete(steps: seq<Step>)
    ensures Complete(After(steps))
  {
    if steps != [] {
      var s, step := After(steps[..|steps| - 1]), steps[|steps| - 1];
      IndexComplete(steps[..|steps| - 1]);
      if Enabled(s, step) {
        StepKeepsComplete(s, step);
      }
    }
  }

  // ----- coherence, if chains are destroyed by their producers

  /** The two tables agree about context `c`, up to the call its thread is in. */
  ghost predicate Coherent(s: State, c: nat) {
    var listed, chains := s.tables.IdsOf(c), s.tables.ChainsOf(c);
    match s.Pc(c)
    case Idle => listed == chains
    case Creating(id) => id in chains && listed == chains - {id}
    case Destroying(id) => id !in chains && listed - {id} == chains
    case Iterating(todo, found) =>
      && listed == chains
      && todo <= listed
      && found.Keys == listed - todo
      && forall id :: id in found ==> found[id] == c
  }

  /** A chain in the table is destroyed by its producer, while its surfaces are in order. */
  predicate ByOwner(s: State, step: Step) {
    step.Remove? && step.id in s.tables.table ==> s.tables.table[step.id] == step.c && Destroyable(step.st)
  }

  lemma StepKeepsCoherent(s: State, step: Step, c: nat)
    requires Coherent(s, c) && Enabled(s, step) && ByOwner(s, step)
    ensures Coherent(Next(s, step), c)
  {
    var s' := Next(s, step);
    if step.Remove? {
      DestroyOkIff(step.st);
    }
    if step.c != c {
      assert s'.Pc(c) == s.Pc(c);
      assert s'.tables.IdsOf(c) == s.tables.IdsOf(c);
      assert s'.tables.ChainsOf(c) == s.tables.ChainsOf(c);
    } else {
      match step
      case Insert(_, id, _) =>
        if s'.Pc(c).Creating? {
          assert s'.tables.ChainsOf(c) == s.tables.ChainsOf(c) + {id};
        }
      case Record(_) =>
        assert s'.tables.ChainsOf(c) == s.tables.ChainsOf(c);
        assert s'.tables.IdsOf(c) == s.tables.IdsOf(c) + {s.Pc(c).id};
      case Remove(_, id, _) => assert s'.tables.ChainsOf(c) == s.tables.ChainsOf(c) - {id};
      case Forget(_) =>
        assert s'.tables.ChainsOf(c) == s.tables.ChainsOf(c);
        assert s'.tables.IdsOf(c) == s.tables.IdsOf(c) - {s.Pc(c).id};
      case IterNext(_, id) =>
        assert id in s.tables.ChainsOf(c);
        assert s'.Pc(c).found.Keys == s.Pc(c).found.Keys + {id};
      case _ =>
    }
  }

  predicate OwnerRun(steps: seq<Step>) {
    steps == [] ||
    var before := steps[..|steps| - 1];
    OwnerRun(before) && ByOwner(After(before), steps[|steps| - 1])
  }

  lemma {:induction false} IndexCoherent(steps: seq<Step>, c: nat)
    requires OwnerRun(steps)
    ensures Coherent(After(steps), c)
  {
    if steps == [] {
      assert After(steps).tables.ChainsOf(c) == {};
    } else {
      var s, step := After(steps[..|steps| - 1]), steps[|steps| - 1];
      IndexCoherent(steps[..|steps| - 1], c);
      if Enabled(s, step) {
        StepKeepsCoherent(s, step, c);
      }
    }
  }

  /** When an iteration by the thread of `c` has no ids left, it has found exactly the chains that `c`
      produced, although it looked each one up separately while other threads worked on the table. */
  lemma IterationExact(steps: seq<Step>, c: nat)
    requires OwnerRun(steps) && After(steps).Pc(c).Iterating? && After(steps).Pc(c).todo == {}
    ensures var s := After(steps); s.Pc(c).found == map id | id in s.tables.ChainsOf(c) :: c
  {
    IndexCoherent(steps, c);
  }

  /** Exactly when the first half of a destruction keeps the tables coherent for the producer of the
      chain: it is the producer that destroys, and the chain can be destroyed. Otherwise the list keeps
      an id that is no longer in the table. */
  lemma RemoveKeepsCoherentIff(s: State, c: nat, id: ChainId, st: S.St, owner: nat)
    requires Enabled(s, Remove(c, id, st)) && Coherent(s, owner)
    requires id in s.tables.ChainsOf(owner) && s.Pc(owner).Idle?
    ensures Coherent(Next(s, Remove(c, id, st)), owner) <==> owner == c && Destroyable(st)
    ensures !(owner == c && Destroyable(st)) ==>
              var s' := Next(s, Remove(c, id, st)); id in s'.tables.IdsOf(owner) && id !in s'.tables.table
  {
    var s' := Next(s, Remove(c, id, st));
    DestroyOkIff(st);
    assert s'.tables.ChainsOf(owner) == s.tables.ChainsOf(owner) - {id};
    assert s'.tables.IdsOf(owner) == s.tables.IdsOf(owner);
  }
}
