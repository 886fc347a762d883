/** The keyed mutexes over all interleavings of binding, unbinding, and making and destroying
    textures, by any number of contexts. */
module AngleLaws {
  import opened Surfaces
  import Api = DeviceApi
  import opened A = AngleSpec

  /** Who has a surface: its client, a context, a texture, or nobody any more. */
  datatype Place = Free | InContext(c: nat) | InTexture(texture: SurfaceTexture) | Destroyed

  /** Surfaces are numbered in the order of their creation, contexts too. */
  datatype State = State(mutexes: Mutexes, ctxs: seq<Context>, surfaces: seq<A.Surface>, places: seq<Place>)

  datatype Action =
    | NewContext(external: bool)
    | NewSurface(c: nat, objects: Win32Objects)
    | Bind(c: nat, id: nat)
    | Unbind(c: nat)
    | CreateTexture(id: nat, driver: Driver)
    | DestroyTexture(id: nat)
    | DestroySurface(c: nat, id: nat)

  const START := State(Mutexes({}, 0), [], [], [])

  predicate IsFree(s: State, id: nat) {
    id < |s.surfaces| && id < |s.places| && s.places[id].Free?
  }

  /** The caller of an operation on a surface has that surface. */
  predicate InScope(s: State, a: Action) {
    match a
    case NewContext(_) => true
    case NewSurface(c, _) => c < |s.ctxs|
    case Bind(c, id) => c < |s.ctxs| && IsFree(s, id)
    case Unbind(c) => c < |s.ctxs|
    case CreateTexture(id, _) => IsFree(s, id)
    case DestroyTexture(id) => id < |s.places| && s.places[id].InTexture?
    case DestroySurface(c, id) => c < |s.ctxs| && IsFree(s, id)
  }

  function Move(s: State, id: nat, place: Place): State {
    if id < |s.places| then s.(places := s.places[id := place]) else s
  }

  function Apply(s: State, a: Action): State
    requires InScope(s, a)
  {
    match a
    case NewContext(external) =>
      s.(ctxs := s.ctxs + [Context(|s.ctxs|, if external then External else NoFramebuffer)])
    case NewSurface(c, objects) =>
      s.(surfaces := s.surfaces + [A.Surface(|s.surfaces|, s.ctxs[c].id, objects)], places := s.places + [Free])
    case Bind(c, id) =>
      var (m, ctx, r) := BindSurface(s.mutexes, s.ctxs[c], s.surfaces[id]);
      var s' := s.(mutexes := m, ctxs := s.ctxs[c := ctx]);
      if r.Ok? then Move(s', id, InContext(c)) else s'
    case Unbind(c) =>
      var (m, ctx, r) := UnbindSurface(s.mutexes, s.ctxs[c]);
      var s' := s.(mutexes := m, ctxs := s.ctxs[c := ctx]);
      if r.Ok? && r.value.Some? then Move(s', r.value.value.id, Free) else s'
    case CreateTexture(id, driver) =>
      var (m, r) := A.CreateTexture(s.mutexes, s.surfaces[id], driver);
      var s' := s.(mutexes := m);
      if r.Ok? then Move(s', id, InTexture(r.value)) else s'
    case DestroyTexture(id) =>
      var (m, surface) := A.DestroyTexture(s.mutexes, s.places[id].texture);
      Move(s.(mutexes := m), surface.id, Free)
    case DestroySurface(c, id) =>
      if s.ctxs[c].id == s.surfaces[id].contextId then Move(s, id, Destroyed) else s
  }

  /** The driver finds a mutex on the imported surface iff the surface has one, and binding it to a
      texture succeeds. */
  predicate Obliging(s: State, a: Action) {
    InScope(s, a) && (a.CreateTexture? ==> a.driver.keyed == s.surfaces[a.id].Keyed() && a.driver.binds)
  }

  /** Whether a surface is bound or wrapped in a texture. */
  predicate InUse(place: Place) {
    place.InContext? || place.InTexture?
  }

  ghost predicate SurfaceOk(s: State, id: nat)
    requires id < |s.surfaces| && |s.places| == |s.surfaces|
  {
    var x := s.surfaces[id];
    && x.id == id
    && (id in s.mutexes.held <==> x.Keyed() && InUse(s.places[id]))
    && (s.places[id].InTexture? ==> s.places[id].texture == SurfaceTexture(x, x.Keyed()))
    && (s.places[id].InContext? ==>
          s.places[id].c < |s.ctxs| && s.ctxs[s.places[id].c].framebuffer == Bound(x))
  }

  ghost predicate CtxOk(s: State, c: nat)
    requires c < |s.ctxs|
  {
    s.ctxs[c].framebuffer.Bound? ==>
      var x := s.ctxs[c].framebuffer.surface;
      x.id < |s.surfaces| && x.id < |s.places| && s.surfaces[x.id] == x && s.places[x.id] == InContext(c)
  }

  ghost predicate Inv(s: State) {
    && |s.places| == |s.surfaces|
    && (forall id :: 0 <= id < |s.surfaces| ==> SurfaceOk(s, id))
    && (forall c :: 0 <= c < |s.ctxs| ==> CtxOk(s, c))
    && (forall id :: id in s.mutexes.held ==> id < |s.surfaces|)
    && s.mutexes.faults == 0
  }

  /** The invariant at the surface and the context that an action is about. */
  lemma AtAction(s: State, a: Action)
    requires Inv(s) && InScope(s, a)
    ensures !a.NewContext? && !a.NewSurface? && !a.Unbind? ==> SurfaceOk(s, a.id)
    ensures a.Bind? || a.Unbind? ==> CtxOk(s, a.c)
    ensures a.Unbind? && s.ctxs[a.c].framebuffer.Bound? ==> SurfaceOk(s, s.ctxs[a.c].framebuffer.surface.id)
  {
    if a.Unbind? && s.ctxs[a.c].framebuffer.Bound? {
      assert CtxOk(s, a.c);
    }
  }

  lemma SurfaceStaysOk(s: State, a: Action, id: nat)
    requires Inv(s) && Obliging(s, a) && id < |Apply(s, a).surfaces| && |Apply(s, a).places| == |Apply(s, a).surfaces|
    ensures SurfaceOk(Apply(s, a), id)
  {
    AtAction(s, a);
    assert id < |s.surfaces| ==> SurfaceOk(s, id);
  }

  lemma CtxStaysOk(s: State, a: Action, c: nat)
    requires Inv(s) && Obliging(s, a) && c < |Apply(s, a).ctxs|
    ensures CtxOk(Apply(s, a), c)
  {
    AtAction(s, a);
    assert c < |s.ctxs| ==> CtxOk(s, c);
  }

  lemma ApplyKeepsInv(s: State, a: Action)
    requires Inv(s) && Obliging(s, a)
    ensures Inv(Apply(s, a))
  {
    AtAction(s, a);
    forall id | 0 <= id < |Apply(s, a).surfaces| ensures SurfaceOk(Apply(s, a), id) {
      SurfaceStaysOk(s, a, id);
    }
    forall c | 0 <= c < |Apply(s, a).ctxs| ensures CtxOk(Apply(s, a), c) {
      CtxStaysOk(s, a, c);
    }
  }

  /** Acquiring a mutex and releasing it leaves all as it was; doing either twice is a fault. */
  lemma MisuseIsNoticed(m: Mutexes, id: nat)
    ensures id !in m.held ==> m.Acquire(id).Release(id) == m
    ensures id in m.held ==> m.Release(id).Acquire(id) == m
    ensures m.Acquire(id).Acquire(id).faults > m.faults && m.Release(id).Release(id).faults > m.faults
  {
  }

  // ----- results

  /** The part of a context that does not depend on the backend. */
  function Abstract(ctx: Context): Api.Ctx {
    Api.Ctx(ctx.id, match ctx.framebuffer
                    case NoFramebuffer => NoFramebuffer
                    case External => External
                    case Bound(s) => Bound(AbstractSurface(s)))
  }

  function AbstractSurface(s: A.Surface): Surfaces.Surface {
    Surfaces.Surface(s.id, Size(0, 0), s.contextId, if s.objects.WindowObjects? then Widget else Generic)
  }

  /** Binding and unbinding return what they return on every backend and change the context in the same
      way. The mutex of a keyed surface changes hands exactly when the surface does. */
  lemma BindsAsEverywhere(m: Mutexes, ctx: Context, s: A.Surface)
    ensures var (m', ctx', r) := BindSurface(m, ctx, s);
            && (Abstract(ctx'), r) == Api.BindSurface(Abstract(ctx), AbstractSurface(s))
            && m' == (if r == Ok(()) && s.Keyed() then m.Acquire(s.id) else m)
            && (r == Ok(()) ==> ctx'.framebuffer == Bound(s))
    ensures var (m', ctx', r) := UnbindSurface(m, ctx);
            && (r.Ok? ==> r.value == if ctx.framebuffer.Bound? then Some(ctx.framebuffer.surface) else None)
            && Abstract(ctx') == Api.UnbindSurface(Abstract(ctx)).0
            && Plain(r) == Plain(Api.UnbindSurface(Abstract(ctx)).1)
            && m' == (if r.Ok? && r.value.Some? && r.value.value.Keyed() then m.Release(r.value.value.id) else m)
  {
  }

  /** Making a texture takes the mutex if the imported surface has one, whatever the surface was created
      with; exactly then the texture gives it back. */
  lemma TexturesAsDriven(m: Mutexes, s: A.Surface, driver: Driver)
    ensures var (m', r) := A.CreateTexture(m, s, driver);
            && Plain(r) == (if s.objects.WindowObjects? then Err(WidgetAttached)
                            else if !driver.imports then Err(SurfaceImportFailed)
                            else if !driver.binds then Err(SurfaceTextureCreationFailed)
                            else Ok(()))
            && m' == (if s.objects.Pbuffer? && driver.imports && driver.keyed then m.Acquire(s.id) else m)
            && (r.Ok? && s.id !in m.held ==> A.DestroyTexture(m', r.value) == (m, s))
  {
  }

  // ----- every run

  function After(actions: seq<Action>): State {
    if actions == [] then START
    else
      var s := After(actions[..|actions| - 1]);
      var a := actions[|actions| - 1];
      if InScope(s, a) then Apply(s, a) else s
  }

  predicate ObligingRun(actions: seq<Action>) {
    actions == [] ||
    var before := actions[..|actions| - 1];
    ObligingRun(before) && Obliging(After(before), actions[|actions| - 1])
  }

  lemma {:induction false} RunKeepsInv(actions: seq<Action>)
    requires ObligingRun(actions)
    ensures Inv(After(actions))
  {
    if actions != [] {
      RunKeepsInv(actions[..|actions| - 1]);
      ApplyKeepsInv(After(actions[..|actions| - 1]), actions[|actions| - 1]);
    }
  }

  /** The mutex of a surface is held iff the surface has one and is bound or wrapped in a texture; no
      acquisition ever met a held mutex, and no release one that was not held. */
  lemma MutexFollowsOwner(actions: seq<Action>, id: nat)
    requires ObligingRun(actions)
    ensures var s := After(actions);
            && s.mutexes.faults == 0
            && |s.places| == |s.surfaces|
            && (id in s.mutexes.held <==> id < |s.surfaces| && s.surfaces[id].Keyed() && InUse(s.places[id]))
  {
    RunKeepsInv(actions);
    if id < |After(actions).surfaces| {
      assert SurfaceOk(After(actions), id);
    }
  }

  /** Exactly when making a texture of a keyed surface breaks this: when the surface was imported but
      could not be bound to a texture. Its mutex then stays held, and binding the surface to its
      context waits for ever. */
  lemma CreateTextureKeepsInvIff(s: State, id: nat, driver: Driver)
    requires Inv(s) && InScope(s, CreateTexture(id, driver)) && s.surfaces[id].Keyed() && driver.keyed
    ensures Inv(Apply(s, CreateTexture(id, driver))) <==> !driver.imports || driver.binds
    ensures driver.imports && !driver.binds ==>
              var after := Apply(s, CreateTexture(id, driver));
              && IsFree(after, id) && id in after.mutexes.held
              && forall ctx: Context :: ctx.id == s.surfaces[id].contextId && ctx.framebuffer.NoFramebuffer? ==>
                   BindSurface(after.mutexes, ctx, s.surfaces[id]).0.faults > 0
  {
    assert SurfaceOk(s, id);
    if driver.binds {
      ApplyKeepsInv(s, CreateTexture(id, driver));
    } else if driver.imports {
      assert !SurfaceOk(Apply(s, CreateTexture(id, driver)), id);
    } else {
      assert Apply(s, CreateTexture(id, driver)) == s;
    }
  }
}
