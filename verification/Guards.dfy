/** Scopes in which another context is temporarily current, nested to any depth. */
module Guards {
  import opened EglSpec

  /** What can happen to the current binding. A scope saves it, makes `target` current, runs its body
      and drops the guard. */
  datatype Cmd =
    | MakeCurrent(target: Binding)
    | MakeNoneCurrent
    | DestroyWindow(id: nat)
    | DestroyPbuffer(id: nat)
    | DestroyContext(id: nat)
    | Scope(target: Binding, body: seq<Cmd>)

  function Exec(d: Driver, cmd: Cmd): Driver
    decreases cmd
  {
    match cmd
    case MakeCurrent(target) => d.MakeCurrent(target)
    case MakeNoneCurrent => d.MakeNoneCurrent()
    case DestroyWindow(id) => d.(deadWindows := d.deadWindows + {id})
    case DestroyPbuffer(id) => d.(deadPbuffers := d.deadPbuffers + {id})
    case DestroyContext(id) => d.(deadContexts := d.deadContexts + {id})
    case Scope(target, body) => ExecAll(d.MakeCurrent(target), body).DropGuard(d.current)
  }

  function ExecAll(d: Driver, cmds: seq<Cmd>): Driver
    decreases cmds
  {
    if cmds == [] then d else ExecAll(Exec(d, cmds[0]), cmds[1..])
  }

  predicate Restorable(before: Driver, inner: Driver) {
    if before.current.None? then inner.current.None?
    else inner.current == before.current || inner.CanBind(before.current.value)
  }

  /** Exactly when a scope restores the binding. With nothing current before, nothing is restored, so
      the body must have ended with nothing current; otherwise the saved handles must still be alive. */
  lemma ScopeRestoresIff(d: Driver, target: Binding, body: seq<Cmd>)
    ensures Exec(d, Scope(target, body)).current == d.current
       <==> Restorable(d, ExecAll(d.MakeCurrent(target), body))
  {
  }

  /** Nothing that is dead comes to life. */
  lemma {:induction false} DeadStaysDead(d: Driver, cmd: Cmd)
    ensures var d' := Exec(d, cmd);
            && d.deadWindows <= d'.deadWindows && d.deadPbuffers <= d'.deadPbuffers
            && d.deadContexts <= d'.deadContexts
    decreases cmd
  {
    if cmd.Scope? {
      AllDeadStayDead(d.MakeCurrent(cmd.target), cmd.body);
    }
  }

  lemma {:induction false} AllDeadStayDead(d: Driver, cmds: seq<Cmd>)
    ensures var d' := ExecAll(d, cmds);
            && d.deadWindows <= d'.deadWindows && d.deadPbuffers <= d'.deadPbuffers
            && d.deadContexts <= d'.deadContexts
    decreases cmds
  {
    if cmds != [] {
      DeadStaysDead(d, cmds[0]);
      AllDeadStayDead(Exec(d, cmds[0]), cmds[1..]);
    }
  }

  /** Any number of scopes, with anything inside and nested to any depth, leave what was current as it
      was, if what was current is not destroyed in the course of it. */
  lemma {:induction false} ScopesRestore(d: Driver, scopes: seq<Cmd>)
    requires forall i :: 0 <= i < |scopes| ==> scopes[i].Scope?
    requires d.current.Some? && ExecAll(d, scopes).CanBind(d.current.value)
    ensures ExecAll(d, scopes).current == d.current
    decreases |scopes|
  {
    if scopes != [] {
      var d' := Exec(d, scopes[0]);
      AllDeadStayDead(d', scopes[1..]);
      assert d'.CanBind(d.current.value);
      AllDeadStayDead(d.MakeCurrent(scopes[0].target), scopes[0].body);
      ScopeRestoresIff(d, scopes[0].target, scopes[0].body);
      ScopesRestore(d', scopes[1..]);
    }
  }
}
