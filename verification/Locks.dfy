/** The locks that swap-chain calls take, in the order they take and release them, and why no set of
    calls in progress can wait for each other for ever. */
module Locks {
  import opened Surfaces

  datatype Lock = Ids | Table | Chain(k: nat)

  datatype Op = Acquire(lock: Lock) | Release(lock: Lock)

  /** The calls, by the locks they use. `ChainCall` is any call on one chain; a `Destroy` with a chain
      found it in the table, and `rejected` if the chain returned an error; `Iter` looks up `n` ids. */
  datatype Call =
    | ChainCall(k: nat)
    | TakeAttachment(k: nat, j: nat)
    | Create(succeeds: bool)
    | Destroy(chain: Option<nat>, rejected: bool)
    | Iter(n: nat)
    | Get

  function Section(lock: Lock): seq<Op> {
    [Acquire(lock), Release(lock)]
  }

  function Lookups(n: nat): seq<Op> {
    if n == 0 then [Release(Ids)] else Section(Table) + Lookups(n - 1)
  }

  function Program(call: Call): seq<Op> {
    match call
    case ChainCall(k) => Section(Chain(k))
    case TakeAttachment(k, j) => [Acquire(Chain(k)), Acquire(Chain(j)), Release(Chain(j)), Release(Chain(k))]
    case Create(succeeds) => Section(Table) + if succeeds then Section(Ids) else []
    case Destroy(None, _) => Section(Table) + Section(Ids)
    case Destroy(Some(k), rejected) =>
      [Acquire(Table)] + Section(Chain(k)) + [Release(Table)] + if rejected then [] else Section(Ids)
    case Iter(n) => [Acquire(Ids)] + Lookups(n)
    case Get => Section(Table)
  }

  // ----- threads

  datatype Thread = Thread(held: set<Lock>, todo: seq<Op>)

  type Threads = map<nat, Thread>

  datatype Step = Start(t: nat, call: Call) | Advance(t: nat)

  function At(s: Threads, t: nat): Thread {
    if t in s then s[t] else Thread({}, [])
  }

  ghost predicate Holds(s: Threads, t: nat, lock: Lock) {
    t in s && lock in s[t].held
  }

  predicate Free(s: Threads, lock: Lock) {
    forall u :: u in s ==> lock !in s[u].held
  }

  /** `producer` gives the thread that drives the context of each chain. Only that thread moves the
      attachment of the chain, and it names two distinct chains. */
  predicate Allowed(producer: nat -> nat, t: nat, call: Call) {
    call.TakeAttachment? ==> call.k != call.j && producer(call.k) == t && producer(call.j) == t
  }

  predicate Enabled(s: Threads, producer: nat -> nat, step: Step) {
    match step
    case Start(t, call) => At(s, t).todo == [] && Allowed(producer, t, call)
    case Advance(t) => t in s && s[t].todo != [] && (s[t].todo[0].Acquire? ==> Free(s, s[t].todo[0].lock))
  }

  function Executed(thread: Thread): Thread
    requires thread.todo != []
  {
    match thread.todo[0]
    case Acquire(l) => Thread(thread.held + {l}, thread.todo[1..])
    case Release(l) => Thread(thread.held - {l}, thread.todo[1..])
  }

  function Next(s: Threads, producer: nat -> nat, step: Step): Threads
    requires Enabled(s, producer, step)
  {
    match step
    case Start(t, call) => s[t := Thread({}, Program(call))]
    case Advance(t) => s[t := Executed(s[t])]
  }

  function After(producer: nat -> nat, steps: seq<Step>): Threads {
    if steps == [] then map[]
    else
      var s := After(producer, steps[..|steps| - 1]);
      var step := steps[|steps| - 1];
      if Enabled(s, producer, step) then Next(s, producer, step) else s
  }

  // ----- the order of acquisition

  function Rank(lock: Lock): nat {
    match lock
    case Ids => 0
    case Table => 1
    case Chain(_) => 2
  }

  /** Thread `t` may acquire `l` while it holds `h`. */
  predicate Below(producer: nat -> nat, t: nat, h: Lock, l: Lock) {
    || Rank(h) < Rank(l)
    || (h.Chain? && l.Chain? && h != l && producer(h.k) == t && producer(l.k) == t)
  }

  ghost predicate Ordered(producer: nat -> nat, t: nat, held: set<Lock>, todo: seq<Op>)
    decreases |todo|
  {
    if todo == [] then held == {}
    else
      var l := todo[0].lock;
      if todo[0].Acquire? then
        && (forall h :: h in held ==> Below(producer, t, h, l))
        && Ordered(producer, t, held + {l}, todo[1..])
      else
        l in held && Ordered(producer, t, held - {l}, todo[1..])
  }

  lemma {:induction false} LookupsOrdered(producer: nat -> nat, t: nat, n: nat)
    ensures Ordered(producer, t, {Ids}, Lookups(n))
  {
    if n > 0 {
      LookupsOrdered(producer, t, n - 1);
      assert Lookups(n)[1..] == [Release(Table)] + Lookups(n - 1);
      assert Lookups(n)[1..][1..] == Lookups(n - 1);
      assert {Ids} + {Table} - {Table} == {Ids};
    } else {
      assert {Ids} - {Ids} == {};
      assert Lookups(n)[1..] == [];
    }
  }

  lemma SectionOrdered(producer: nat -> nat, t: nat, held: set<Lock>, lock: Lock, rest: seq<Op>)
    requires forall h :: h in held ==> Below(producer, t, h, lock)
    requires Ordered(producer, t, held, rest)
    ensures Ordered(producer, t, held, Section(lock) + rest)
  {
    var todo := Section(lock) + rest;
    assert todo[1..] == [Release(lock)] + rest;
    assert todo[1..][1..] == rest;
    assert !Below(producer, t, lock, lock);
    assert held + {lock} - {lock} == held;
  }

  lemma ProgramOrdered(producer: nat -> nat, t: nat, call: Call)
    requires Allowed(producer, t, call)
    ensures Ordered(producer, t, {}, Program(call))
  {
    match call
    case ChainCall(k) =>
      SectionOrdered(producer, t, {}, Chain(k), []);
      assert Section(Chain(k)) + [] == Section(Chain(k));
    case TakeAttachment(k, j) =>
      var p := Program(call);
      assert p[1..] == [Acquire(Chain(j)), Release(Chain(j)), Release(Chain(k))];
      assert p[1..] == Section(Chain(j)) + [Release(Chain(k))];
      assert {Chain(k)} - {Chain(k)} == {};
      assert Ordered(producer, t, {Chain(k)}, [Release(Chain(k))]);
      SectionOrdered(producer, t, {Chain(k)}, Chain(j), [Release(Chain(k))]);
      assert {} + {Chain(k)} == {Chain(k)};
    case Create(succeeds) =>
      SectionOrdered(producer, t, {}, Ids, []);
      assert Section(Ids) + [] == Section(Ids);
      SectionOrdered(producer, t, {}, Table, if succeeds then Section(Ids) else []);
    case Destroy(None, _) =>
      SectionOrdered(producer, t, {}, Ids, []);
      assert Section(Ids) + [] == Section(Ids);
      SectionOrdered(producer, t, {}, Table, Section(Ids));
    case Destroy(Some(k), rejected) =>
      SectionOrdered(producer, t, {}, Ids, []);
      assert Section(Ids) + [] == Section(Ids);
      var tail := if rejected then [] else Section(Ids);
      var rest := [Release(Table)] + tail;
      assert rest[1..] == tail;
      assert {Table} - {Table} == {};
      SectionOrdered(producer, t, {Table}, Chain(k), rest);
      assert Program(call)[1..] == Section(Chain(k)) + rest;
      assert {} + {Table} == {Table};
    case Iter(n) =>
      LookupsOrdered(producer, t, n);
      assert Program(call)[1..] == Lookups(n);
      assert {} + {Ids} == {Ids};
    case Get =>
      SectionOrdered(producer, t, {}, Table, []);
      assert Section(Table) + [] == Section(Table);
  }

  ghost predicate AllOrdered(producer: nat -> nat, s: Threads) {
    forall t :: t in s ==> Ordered(producer, t, s[t].held, s[t].todo)
  }

  lemma {:induction false} RunOrdered(producer: nat -> nat, steps: seq<Step>)
    ensures AllOrdered(producer, After(producer, steps))
  {
    if steps != [] {
      RunOrdered(producer, steps[..|steps| - 1]);
      var step := steps[|steps| - 1];
      if step.Start? && Allowed(producer, step.t, step.call) {
        ProgramOrdered(producer, step.t, step.call);
      }
    }
  }

  /** What the order says about a thread's next step. */
  ghost predicate Careful(producer: nat -> nat, t: nat, thread: Thread) {
    if thread.todo == [] then thread.held == {}
    else thread.todo[0].Acquire? ==>
           forall h :: h in thread.held ==> Below(producer, t, h, thread.todo[0].lock)
  }

  ghost predicate AllCareful(producer: nat -> nat, s: Threads) {
    forall t :: t in s ==> Careful(producer, t, s[t])
  }

  lemma RunCareful(producer: nat -> nat, steps: seq<Step>)
    ensures AllCareful(producer, After(producer, steps))
  {
    RunOrdered(producer, steps);
  }

  // ----- which locks a call takes, and which it holds together

  /** The locks that a call takes at some point. */
  predicate Touches(call: Call, lock: Lock) {
    match call
    case ChainCall(k) => lock == Chain(k)
    case TakeAttachment(k, j) => lock == Chain(k) || lock == Chain(j)
    case Create(succeeds) => lock == Table || (succeeds && lock == Ids)
    case Destroy(chain, rejected) =>
      || lock == Table
      || (chain.Some? && lock == Chain(chain.value))
      || (lock == Ids && !(chain.Some? && rejected))
    case Iter(n) => lock == Ids || (n > 0 && lock == Table)
    case Get => lock == Table
  }

  /** Both locks are held at once at some point: the two chains of an exchange, the table and the chain
      that is destroyed, and the ids while each is looked up. */
  predicate Nests(call: Call, outer: Lock, inner: Lock) {
    match call
    case TakeAttachment(k, j) => outer == Chain(k) && inner == Chain(j)
    case Destroy(chain, _) => outer == Table && chain.Some? && inner == Chain(chain.value)
    case Iter(n) => n > 0 && outer == Ids && inner == Table
    case _ => false
  }

  function Do(held: set<Lock>, op: Op): set<Lock> {
    match op
    case Acquire(l) => held + {l}
    case Release(l) => held - {l}
  }

  predicate EverHeld(held: set<Lock>, todo: seq<Op>, h: Lock, l: Lock)
    decreases |todo|
  {
    (h in held && l in held) || (todo != [] && EverHeld(Do(held, todo[0]), todo[1..], h, l))
  }

  lemma EverHeldStep(held: set<Lock>, op: Op, rest: seq<Op>, h: Lock, l: Lock)
    ensures EverHeld(held, [op] + rest, h, l) <==> (h in held && l in held) || EverHeld(Do(held, op), rest, h, l)
  {
    assert ([op] + rest)[1..] == rest;
  }

  lemma EverHeldSection(held: set<Lock>, lock: Lock, rest: seq<Op>, h: Lock, l: Lock)
    requires lock !in held
    ensures EverHeld(held, Section(lock) + rest, h, l)
       <==> (h in held + {lock} && l in held + {lock}) || EverHeld(held, rest, h, l)
  {
    assert Section(lock) + rest == [Acquire(lock)] + ([Release(lock)] + rest);
    EverHeldStep(held, Acquire(lock), [Release(lock)] + rest, h, l);
    EverHeldStep(held + {lock}, Release(lock), rest, h, l);
    assert held + {lock} - {lock} == held;
  }

  lemma {:induction false} EverHeldLookups(n: nat, h: Lock, l: Lock)
    ensures EverHeld({Ids}, Lookups(n), h, l)
       <==> (h == Ids && l == Ids) || (n > 0 && h in {Ids, Table} && l in {Ids, Table})
  {
    if n > 0 {
      EverHeldLookups(n - 1, h, l);
      EverHeldSection({Ids}, Table, Lookups(n - 1), h, l);
      assert {Ids} + {Table} == {Ids, Table};
    } else {
      EverHeldStep({Ids}, Release(Ids), [], h, l);
      assert [Release(Ids)] + [] == [Release(Ids)];
      assert {Ids} - {Ids} == {};
    }
  }

  /** Every call takes exactly the locks it needs, and holds two at once exactly where it nests them. */
  lemma HoldsTogetherIff(call: Call, h: Lock, l: Lock)
    requires call.TakeAttachment? ==> call.k != call.j
    ensures EverHeld({}, Program(call), h, l)
       <==> if h == l then Touches(call, h) else Nests(call, h, l) || Nests(call, l, h)
  {
    match call
    case ChainCall(k) => EverHeldOnly(Chain(k), h, l);
    case Get => EverHeldOnly(Table, h, l);
    case Create(succeeds) =>
      EverHeldOnly(Ids, h, l);
      EverHeldSection({}, Table, if succeeds then Section(Ids) else [], h, l);
    case TakeAttachment(k, j) =>
      assert Program(call) == [Acquire(Chain(k))] + (Section(Chain(j)) + [Release(Chain(k))]);
      EverHeldStep({}, Acquire(Chain(k)), Section(Chain(j)) + [Release(Chain(k))], h, l);
      assert {} + {Chain(k)} == {Chain(k)};
      EverHeldSection({Chain(k)}, Chain(j), [Release(Chain(k))], h, l);
      EverHeldLast(Chain(k), [], h, l);
    case Destroy(None, _) =>
      EverHeldOnly(Ids, h, l);
      EverHeldSection({}, Table, Section(Ids), h, l);
    case Destroy(Some(k), rejected) =>
      var tail := if rejected then [] else Section(Ids);
      EverHeldOnly(Ids, h, l);
      assert Program(call) == [Acquire(Table)] + (Section(Chain(k)) + ([Release(Table)] + tail));
      EverHeldStep({}, Acquire(Table), Section(Chain(k)) + ([Release(Table)] + tail), h, l);
      assert {} + {Table} == {Table};
      EverHeldSection({Table}, Chain(k), [Release(Table)] + tail, h, l);
      EverHeldLast(Table, tail, h, l);
    case Iter(n) =>
      EverHeldStep({}, Acquire(Ids), Lookups(n), h, l);
      assert {} + {Ids} == {Ids};
      EverHeldLookups(n, h, l);
  }

  lemma EverHeldOnly(lock: Lock, h: Lock, l: Lock)
    ensures EverHeld({}, Section(lock), h, l) <==> h == lock && l == lock
  {
    EverHeldSection({}, lock, [], h, l);
    assert Section(lock) + [] == Section(lock);
  }

  lemma EverHeldLast(lock: Lock, rest: seq<Op>, h: Lock, l: Lock)
    ensures EverHeld({lock}, [Release(lock)] + rest, h, l) <==> (h == lock && l == lock) || EverHeld({}, rest, h, l)
  {
    EverHeldStep({lock}, Release(lock), rest, h, l);
    assert {lock} - {lock} == {};
  }

  // ----- deadlock

  /** The lock that a thread is about to acquire, if any. */
  function Wanted(s: Threads, t: nat): Option<Lock> {
    if At(s, t).todo != [] && At(s, t).todo[0].Acquire? then Some(At(s, t).todo[0].lock) else None
  }

  ghost predicate HeldWithin(s: Threads, waiting: set<nat>, lock: Lock) {
    exists u :: u in waiting && Holds(s, u, lock)
  }

  ghost predicate WaitsWithin(s: Threads, waiting: set<nat>, t: nat) {
    Wanted(s, t).Some? && HeldWithin(s, waiting, Wanted(s, t).value)
  }

  /** Each of these threads waits for a lock held by one of them. */
  ghost predicate Deadlocked(s: Threads, waiting: set<nat>) {
    waiting != {} && forall t {:trigger WaitsWithin(s, waiting, t)} :: t in waiting ==> WaitsWithin(s, waiting, t)
  }

  /** If a deadlocked thread wants a lock, another deadlocked thread holds it and wants a further
      one, which it may acquire then. */
  lemma Follow(producer: nat -> nat, s: Threads, waiting: set<nat>, t: nat) returns (u: nat)
    requires AllCareful(producer, s) && Deadlocked(s, waiting) && t in waiting
    ensures Wanted(s, t).Some?
    ensures u in waiting && Holds(s, u, Wanted(s, t).value) && Wanted(s, u).Some?
    ensures forall h :: Holds(s, u, h) ==> Below(producer, u, h, Wanted(s, u).value)
  {
    assert WaitsWithin(s, waiting, t);
    u :| u in waiting && Holds(s, u, Wanted(s, t).value);
    assert WaitsWithin(s, waiting, u);
    assert Careful(producer, u, s[u]);
  }

  lemma NoneWantsChain(producer: nat -> nat, s: Threads, waiting: set<nat>, t: nat)
    requires AllCareful(producer, s) && Deadlocked(s, waiting) && t in waiting
    ensures Wanted(s, t).Some? && !Wanted(s, t).value.Chain?
  {
    var u := Follow(producer, s, waiting, t);
    var v := Follow(producer, s, waiting, u);
    assert Below(producer, u, Wanted(s, t).value, Wanted(s, u).value);
    assert Below(producer, v, Wanted(s, u).value, Wanted(s, v).value);
    // Had `t` wanted a chain, `u` and `v` would both be the thread that drives it.
    assert v == u ==> Below(producer, u, Wanted(s, u).value, Wanted(s, u).value);
  }

  lemma CarefulNotDeadlocked(producer: nat -> nat, s: Threads, waiting: set<nat>)
    requires AllCareful(producer, s)
    ensures !Deadlocked(s, waiting)
  {
    if Deadlocked(s, waiting) {
      var t :| t in waiting;
      NoneWantsChain(producer, s, waiting, t);
      var u := Follow(producer, s, waiting, t);
      NoneWantsChain(producer, s, waiting, u);
      var v := Follow(producer, s, waiting, u);
      NoneWantsChain(producer, s, waiting, v);
      // Each of the three would want a lock of higher rank than the one before, and none a chain.
    }
  }

  /** No reachable state has a set of threads that wait for each other. */
  lemma NoDeadlock(producer: nat -> nat, steps: seq<Step>, waiting: set<nat>)
    ensures !Deadlocked(After(producer, steps), waiting)
  {
    RunCareful(producer, steps);
    CarefulNotDeadlocked(producer, After(producer, steps), waiting);
  }

  /** As long as a call is in progress, some call in progress can take its next step. */
  lemma SomeCallAdvances(producer: nat -> nat, steps: seq<Step>, t: nat)
    requires At(After(producer, steps), t).todo != []
    ensures exists u :: Enabled(After(producer, steps), producer, Advance(u))
  {
    var s := After(producer, steps);
    RunCareful(producer, steps);
    var busy := set u | u in s && s[u].todo != [];
    assert t in busy;
    CarefulNotDeadlocked(producer, s, busy);
    var u :| u in busy && !WaitsWithin(s, busy, u);
    if Wanted(s, u).Some? {
      var l := Wanted(s, u).value;
      assert forall v :: v in s && l in s[v].held ==> v in busy && Holds(s, v, l);
    }
    assert Enabled(s, producer, Advance(u));
  }

  // ----- both conditions on moving the attachment are needed

  /** A thread that names one chain twice waits for itself. */
  lemma SameChainDeadlocks(k: nat)
    ensures var s := map[0 := Executed(Thread({}, Program(TakeAttachment(k, k))))];
            Deadlocked(s, {0})
  {
    var s := map[0 := Executed(Thread({}, Program(TakeAttachment(k, k))))];
    assert Wanted(s, 0) == Some(Chain(k)) && Holds(s, 0, Chain(k));
  }

  /** Two threads that move the attachment between the same chains in opposite directions can wait
      for each other. */
  lemma TwoProducersDeadlock(k: nat, j: nat)
    requires k != j
    ensures var s := map[0 := Executed(Thread({}, Program(TakeAttachment(k, j)))),
                         1 := Executed(Thread({}, Program(TakeAttachment(j, k))))];
            Deadlocked(s, {0, 1})
  {
    var s := map[0 := Executed(Thread({}, Program(TakeAttachment(k, j)))),
                 1 := Executed(Thread({}, Program(TakeAttachment(j, k))))];
    assert Wanted(s, 0) == Some(Chain(j)) && Holds(s, 1, Chain(j));
    assert Wanted(s, 1) == Some(Chain(k)) && Holds(s, 0, Chain(k));
  }
}
