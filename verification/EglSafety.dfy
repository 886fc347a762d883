/** What is current on a thread over whole runs of device calls: never a window surface that has been
    destroyed or that belongs to no context. */
module EglSafety {
  import opened Surfaces
  import Api = DeviceApi
  import S = EglSpec
  import opened EglSpec

  /** A thread with its contexts and the surfaces its client holds unbound. `born` counts surfaces. */
  datatype State = State(driver: Driver, ctxs: seq<Ctx>, loose: seq<Surface>, born: nat)

  datatype Action =
    | NewContext(display: nat, hasPbuffer: bool)
    | AdoptContext(display: nat, draw: nat, read: nat)
    | MakeCurrent(c: nat)
    | MakeNoneCurrent
    | NewWindow(c: nat, size: Size)
    | NewGeneric(c: nat, size: Size)
    | WrapTexture(c: nat)
    | Bind(c: nat, i: nat)
    | Unbind(c: nat)
    | PresentBound(c: nat, swaps: bool)
    | Present(c: nat, i: nat, swaps: bool)
    | DestroySurface(c: nat, i: nat)
    | DestroyContext(c: nat)

  const START := State(Driver(None, {}, {}, {}), [], [], 0)

  predicate InScope(s: State, a: Action) {
    && (a.NewContext? || a.AdoptContext? || a.MakeNoneCurrent? || (a.c < |s.ctxs| && !s.ctxs[a.c].destroyed))
    && (a.Bind? || a.Present? || a.DestroySurface? ==> a.i < |s.loose|)
  }

  function Without(s: seq<Surface>, i: nat): seq<Surface>
    requires i < |s|
  {
    s[..i] + s[i + 1..]
  }

  function Apply(s: State, a: Action): State
    requires InScope(s, a)
  {
    match a
    case NewContext(display, hasPbuffer) =>
      // The device makes a new context current.
      var id := |s.ctxs|;
      var ctx := Ctx(Api.Ctx(id, NoFramebuffer), display, if hasPbuffer then Pbuffer(id) else NoSurface,
                     NoSurface, NoSurface, true, false);
      s.(driver := s.driver.MakeCurrent(ctx.Target()), ctxs := s.ctxs + [ctx])
    case AdoptContext(display, draw, read) =>
      s.(ctxs := s.ctxs + [Ctx(Api.Ctx(|s.ctxs|, External), display, NoSurface, Foreign(draw), Foreign(read),
                               false, false)])
    case MakeCurrent(c) => s.(driver := s.driver.MakeCurrent(s.ctxs[c].Target()))
    case MakeNoneCurrent => s.(driver := s.driver.MakeNoneCurrent())
    case NewWindow(c, size) => s.(loose := s.loose + [Surface(s.born, size, c, Widget)], born := s.born + 1)
    case NewGeneric(c, size) =>
      s.(driver := WithCurrent(s.driver, s.ctxs[c]),
         loose := s.loose + [Surface(s.born, size, c, Generic)], born := s.born + 1)
    case WrapTexture(c) => s.(driver := WithCurrent(s.driver, s.ctxs[c]))
    case Bind(c, i) =>
      var (d, ctx, r) := BindSurface(s.driver, s.ctxs[c], s.loose[i]);
      s.(driver := d, ctxs := s.ctxs[c := ctx], loose := if r.Ok? then Without(s.loose, i) else s.loose)
    case Unbind(c) =>
      var (d, ctx, r) := UnbindSurface(s.driver, s.ctxs[c]);
      s.(driver := d, ctxs := s.ctxs[c := ctx],
         loose := if r.Ok? && r.value.Some? then s.loose + [r.value.value] else s.loose)
    case PresentBound(c, swaps) =>
      s.(driver := S.PresentBound(s.driver, s.ctxs[c], swaps).0)
    case Present(c, i, swaps) => s.(driver := S.Present(s.driver, s.ctxs[c], s.loose[i], swaps).0)
    case DestroySurface(c, i) =>
      var (d, r) := S.DestroySurface(s.driver, s.ctxs[c], s.loose[i]);
      s.(driver := d, loose := if r.Ok? then Without(s.loose, i) else s.loose)
    case DestroyContext(c) =>
      // The device first unbinds and destroys a bound surface.
      var (d, ctx, r) := UnbindSurface(s.driver, s.ctxs[c]);
      var d' := if r.Ok? && r.value.Some? then S.DestroySurface(d, ctx, r.value.value).0 else d;
      var (d'', ctx') := S.DestroyContext(d', ctx);
      s.(driver := d'', ctxs := s.ctxs[c := ctx'])
  }

  /** Clients present an unbound surface only while some context is current. */
  predicate Legal(s: State, a: Action) {
    InScope(s, a) && (a.Present? ==> s.driver.current.Some?)
  }

  // ----- invariant

  ghost predicate CtxOk(s: State, c: nat)
    requires c < |s.ctxs|
  {
    var ctx := s.ctxs[c];
    && ctx.core.id == c
    && (ctx.core.framebuffer.Bound? ==>
          !ctx.destroyed && ctx.core.framebuffer.surface.contextId == c && LiveSurface(s, ctx.core.framebuffer.surface))
    && (ctx.pbuffer == NoSurface || ctx.pbuffer == Pbuffer(c))
    && (c in s.driver.deadContexts ==> ctx.destroyed)
    && (c in s.driver.deadPbuffers ==> ctx.destroyed)
    && (!ctx.core.framebuffer.External? ==> ctx.draw == NoSurface && ctx.read == NoSurface)
    && (ctx.core.framebuffer.External? ==> ctx.draw.Foreign? && ctx.read.Foreign?)
  }

  ghost predicate LiveSurface(s: State, x: Surface) {
    x.id < s.born && x.id !in s.driver.deadWindows
  }

  /** Serial numbers of surfaces in the client's hands or bound are all different. */
  ghost predicate Distinct(s: State) {
    && (forall i, j :: 0 <= i < |s.loose| && 0 <= j < |s.loose| && s.loose[i].id == s.loose[j].id ==> i == j)
    && (forall i, c :: 0 <= i < |s.loose| && 0 <= c < |s.ctxs| && s.ctxs[c].core.framebuffer.Bound? ==>
          s.loose[i].id != s.ctxs[c].core.framebuffer.surface.id)
    && (forall b, c ::
          (&& 0 <= b < |s.ctxs| && s.ctxs[b].core.framebuffer.Bound?
           && 0 <= c < |s.ctxs| && s.ctxs[c].core.framebuffer.Bound?
           && b != c)
          ==> s.ctxs[b].core.framebuffer.surface.id != s.ctxs[c].core.framebuffer.surface.id)
  }

  /** If a context is current, it is a living one of this thread. With a bound surface it is current
      with that; otherwise with no surface or with its own pbuffer. */
  ghost predicate CurrentOk(s: State) {
    s.driver.current.Some? ==>
      var b := s.driver.current.value;
      && b.context < |s.ctxs| && !s.ctxs[b.context].destroyed
      && s.driver.CanBind(b)
      && (b == s.ctxs[b.context].Target()
          || (b == s.ctxs[b.context].Surfaceless() && !s.ctxs[b.context].core.framebuffer.Bound?))
  }

  ghost predicate Inv(s: State) {
    && (forall c :: 0 <= c < |s.ctxs| ==> CtxOk(s, c))
    && (forall i :: 0 <= i < |s.loose| ==> LiveSurface(s, s.loose[i]) && s.loose[i].contextId < |s.ctxs|)
    && (forall id :: id in s.driver.deadWindows ==> id < s.born)
    && (forall c :: c in s.driver.deadContexts || c in s.driver.deadPbuffers ==> c < |s.ctxs|)
    && Distinct(s)
    && CurrentOk(s)
  }

  lemma TargetCanBind(s: State, c: nat)
    requires Inv(s) && c < |s.ctxs| && !s.ctxs[c].destroyed
    ensures s.driver.CanBind(s.ctxs[c].Target()) && s.driver.CanBind(s.ctxs[c].Surfaceless())
  {
    assert CtxOk(s, c);
  }

  /** Work under a guard leaves the binding as it was if something was current, and otherwise leaves
      the context current that the work was done with. */
  lemma GuardedWork(s: State, c: nat)
    requires Inv(s) && c < |s.ctxs| && !s.ctxs[c].destroyed
    ensures WithCurrent(s.driver, s.ctxs[c])
         == if s.driver.current.Some? then s.driver else s.driver.MakeCurrent(s.ctxs[c].Target())
  {
    TargetCanBind(s, c);
  }

  // ----- the ways in which a state changes

  /** No surface in the client's hands or bound to a context has this number. */
  ghost predicate Unused(s: State, id: nat) {
    && (forall i :: 0 <= i < |s.loose| ==> s.loose[i].id != id)
    && (forall c :: 0 <= c < |s.ctxs| && s.ctxs[c].core.framebuffer.Bound? ==>
          s.ctxs[c].core.framebuffer.surface.id != id)
  }

  ghost predicate CtxsOk(s: State) {
    forall c :: 0 <= c < |s.ctxs| ==> CtxOk(s, c)
  }

  /** Contexts stay in order when surfaces are numbered on or change hands. */
  lemma CtxsStayOk(s: State, s': State)
    requires CtxsOk(s) && s'.ctxs == s.ctxs && s'.born >= s.born
    requires s'.driver.deadWindows == s.driver.deadWindows
    requires s'.driver.deadContexts == s.driver.deadContexts && s'.driver.deadPbuffers == s.driver.deadPbuffers
    ensures CtxsOk(s')
  {
    forall c | 0 <= c < |s'.ctxs| ensures CtxOk(s', c) {
      assert CtxOk(s, c);
    }
  }

  lemma GiveUpKeepsInv(s: State, i: nat)
    requires Inv(s) && i < |s.loose|
    ensures Inv(s.(loose := Without(s.loose, i))) && Unused(s.(loose := Without(s.loose, i)), s.loose[i].id)
  {
    var s' := s.(loose := Without(s.loose, i));
    assert forall j :: 0 <= j < |s'.loose| ==> s'.loose[j] == s.loose[if j < i then j else j + 1];
    CtxsStayOk(s, s');
  }

  lemma ReceiveKeepsInv(s: State, x: Surface)
    requires Inv(s) && Unused(s, x.id) && LiveSurface(s, x) && x.contextId < |s.ctxs|
    ensures Inv(s.(loose := s.loose + [x]))
  {
    CtxsStayOk(s, s.(loose := s.loose + [x]));
  }

  lemma KillWindowKeepsInv(s: State, id: nat)
    requires Inv(s) && Unused(s, id) && id < s.born
    ensures Inv(s.(driver := s.driver.(deadWindows := s.driver.deadWindows + {id})))
  {
    var s' := s.(driver := s.driver.(deadWindows := s.driver.deadWindows + {id}));
    forall c | 0 <= c < |s'.ctxs| ensures CtxOk(s', c) {
      assert CtxOk(s, c);
    }
    if s.driver.current.Some? {
      assert CtxOk(s, s.driver.current.value.context);
    }
  }

  /** Context `c` gets a new framebuffer, and is switched to it if it is current. */
  function Switched(s: State, c: nat, framebuffer: Framebuffer<Surface>, b: Binding): State
    requires c < |s.ctxs|
  {
    var ctx := s.ctxs[c].(core := s.ctxs[c].core.(framebuffer := framebuffer));
    s.(driver := if s.driver.IsCurrent(c) then s.driver.MakeCurrent(b) else s.driver, ctxs := s.ctxs[c := ctx])
  }

  lemma SwitchedCtxsOk(s: State, c: nat, framebuffer: Framebuffer<Surface>, b: Binding)
    requires CtxsOk(s) && c < |s.ctxs| && !s.ctxs[c].core.framebuffer.External? && !framebuffer.External?
    requires framebuffer.Bound? ==> !s.ctxs[c].destroyed && framebuffer.surface.contextId == c
                                    && LiveSurface(s, framebuffer.surface)
    ensures CtxsOk(Switched(s, c, framebuffer, b))
  {
    var s' := Switched(s, c, framebuffer, b);
    forall j | 0 <= j < |s'.ctxs| ensures CtxOk(s', j) {
      assert CtxOk(s, j);
    }
  }

  lemma AttachKeepsInv(s: State, c: nat, x: Surface)
    requires Inv(s) && c < |s.ctxs| && !s.ctxs[c].destroyed && s.ctxs[c].core.framebuffer.NoFramebuffer?
    requires Unused(s, x.id) && LiveSurface(s, x) && x.contextId == c
    ensures Inv(Switched(s, c, Bound(x), Binding(s.ctxs[c].display, SurfaceHandle(x), SurfaceHandle(x), c)))
  {
    assert CtxOk(s, c);
    SwitchedCtxsOk(s, c, Bound(x), Binding(s.ctxs[c].display, SurfaceHandle(x), SurfaceHandle(x), c));
  }

  lemma DetachKeepsInv(s: State, c: nat)
    requires Inv(s) && c < |s.ctxs| && !s.ctxs[c].destroyed && s.ctxs[c].core.framebuffer.Bound?
    ensures var x, s' := s.ctxs[c].core.framebuffer.surface, Switched(s, c, NoFramebuffer, s.ctxs[c].Surfaceless());
            Inv(s') && Unused(s', x.id) && LiveSurface(s', x) && x.contextId == c
  {
    assert CtxOk(s, c);
    SwitchedCtxsOk(s, c, NoFramebuffer, s.ctxs[c].Surfaceless());
  }

  // ----- every action

  lemma MakeCurrentKeepsInv(s: State, c: nat)
    requires Inv(s) && c < |s.ctxs| && !s.ctxs[c].destroyed
    ensures Inv(Apply(s, MakeCurrent(c)))
  {
    TargetCanBind(s, c);
    assert CtxOk(s, c);
    CtxsStayOk(s, Apply(s, MakeCurrent(c)));
  }

  lemma AddContextKeepsInv(s: State, ctx: Ctx, current: bool)
    requires Inv(s) && ctx.core.id == |s.ctxs| && !ctx.core.framebuffer.Bound? && !ctx.destroyed
    requires ctx.pbuffer == NoSurface || ctx.pbuffer == Pbuffer(|s.ctxs|)
    requires if ctx.core.framebuffer.External? then ctx.draw.Foreign? && ctx.read.Foreign?
             else ctx.draw == NoSurface && ctx.read == NoSurface
    ensures Inv(s.(driver := if current then s.driver.MakeCurrent(ctx.Target()) else s.driver, ctxs := s.ctxs + [ctx]))
  {
    var s' := s.(driver := if current then s.driver.MakeCurrent(ctx.Target()) else s.driver, ctxs := s.ctxs + [ctx]);
    forall c | 0 <= c < |s'.ctxs| ensures CtxOk(s', c) {
      assert c < |s.ctxs| ==> CtxOk(s, c);
    }
  }

  lemma CreateKeepsInv(s: State, a: Action)
    requires Inv(s) && Legal(s, a)
    requires a.NewContext? || a.AdoptContext? || a.MakeNoneCurrent?
    ensures Inv(Apply(s, a))
  {
    var s' := Apply(s, a);
    if a.MakeNoneCurrent? {
      CtxsStayOk(s, s');
    } else {
      AddContextKeepsInv(s, s'.ctxs[|s.ctxs|], a.NewContext?);
    }
  }

  lemma NewSurfaceKeepsInv(s: State, c: nat, size: Size, kind: Kind)
    requires Inv(s) && c < |s.ctxs| && !s.ctxs[c].destroyed
    ensures Inv(s.(loose := s.loose + [Surface(s.born, size, c, kind)], born := s.born + 1))
  {
    var s' := s.(born := s.born + 1);
    CtxsStayOk(s, s');
    forall j | 0 <= j < |s.ctxs| && s.ctxs[j].core.framebuffer.Bound?
      ensures s.ctxs[j].core.framebuffer.surface.id != s.born
    {
      assert CtxOk(s, j);
    }
    ReceiveKeepsInv(s', Surface(s.born, size, c, kind));
  }

  lemma GuardedKeepsInv(s: State, a: Action)
    requires Inv(s) && Legal(s, a) && (a.NewGeneric? || a.WrapTexture?)
    ensures Inv(Apply(s, a))
  {
    GuardedWork(s, a.c);
    MakeCurrentKeepsInv(s, a.c);
    var made := s.(driver := WithCurrent(s.driver, s.ctxs[a.c]));
    assert Inv(made);
    if a.NewGeneric? {
      NewSurfaceKeepsInv(made, a.c, a.size, Generic);
    }
  }

  lemma BindKeepsInv(s: State, c: nat, i: nat)
    requires Inv(s) && Legal(s, Bind(c, i))
    ensures Inv(Apply(s, Bind(c, i)))
  {
    var x := s.loose[i];
    assert CtxOk(s, c);
    if BindSurface(s.driver, s.ctxs[c], x).2.Ok? {
      GiveUpKeepsInv(s, i);
      AttachKeepsInv(s.(loose := Without(s.loose, i)), c, x);
    } else {
      assert Apply(s, Bind(c, i)) == s;
    }
  }

  lemma UnbindKeepsInv(s: State, c: nat)
    requires Inv(s) && c < |s.ctxs| && !s.ctxs[c].destroyed
    ensures Inv(Apply(s, Unbind(c)))
  {
    assert CtxOk(s, c);
    if s.ctxs[c].core.framebuffer.Bound? {
      DetachKeepsInv(s, c);
      ReceiveKeepsInv(Switched(s, c, NoFramebuffer, s.ctxs[c].Surfaceless()), s.ctxs[c].core.framebuffer.surface);
    } else {
      assert Apply(s, Unbind(c)) == s;
    }
  }

  lemma PresentKeepsInv(s: State, a: Action)
    requires Inv(s) && Legal(s, a) && (a.PresentBound? || a.Present?)
    ensures Inv(Apply(s, a))
  {
    assert CtxOk(s, a.c);
    if s.driver.current.Some? {
      assert Apply(s, a) == s;
    } else if s.ctxs[a.c].core.framebuffer.Bound? && s.ctxs[a.c].core.framebuffer.surface.kind == Widget {
      assert Apply(s, a) == Apply(s, MakeCurrent(a.c));
      MakeCurrentKeepsInv(s, a.c);
    }
  }

  lemma DestroySurfaceKeepsInv(s: State, c: nat, i: nat)
    requires Inv(s) && Legal(s, DestroySurface(c, i))
    ensures Inv(Apply(s, DestroySurface(c, i)))
  {
    assert CtxOk(s, c);
    if s.loose[i].contextId == c {
      GiveUpKeepsInv(s, i);
      KillWindowKeepsInv(s.(loose := Without(s.loose, i)), s.loose[i].id);
    } else {
      assert Apply(s, DestroySurface(c, i)) == s;
    }
  }

  /** Nothing is bound to the context, and nothing is current afterwards. */
  lemma EndContextKeepsInv(s: State, c: nat)
    requires Inv(s) && c < |s.ctxs| && !s.ctxs[c].destroyed && !s.ctxs[c].core.framebuffer.Bound?
    ensures var (d, ctx) := S.DestroyContext(s.driver, s.ctxs[c]); Inv(s.(driver := d, ctxs := s.ctxs[c := ctx]))
  {
    var (d, ctx) := S.DestroyContext(s.driver, s.ctxs[c]);
    var s' := s.(driver := d, ctxs := s.ctxs[c := ctx]);
    forall j | 0 <= j < |s'.ctxs| ensures CtxOk(s', j) {
      assert CtxOk(s, j) && CtxOk(s, c);
    }
  }

  lemma ReleaseKeepsInv(s: State, c: nat)
    requires Inv(s) && c < |s.ctxs| && !s.ctxs[c].destroyed && s.ctxs[c].core.framebuffer.Bound?
    ensures var s' := Switched(s, c, NoFramebuffer, s.ctxs[c].Surfaceless());
            Inv(s'.(driver := S.DestroySurface(s'.driver, s'.ctxs[c], s.ctxs[c].core.framebuffer.surface).0))
  {
    assert CtxOk(s, c);
    DetachKeepsInv(s, c);
    var x, s' := s.ctxs[c].core.framebuffer.surface, Switched(s, c, NoFramebuffer, s.ctxs[c].Surfaceless());
    if x.kind == Widget {
      KillWindowKeepsInv(s', x.id);
    }
  }

  lemma DestroyContextKeepsInv(s: State, c: nat)
    requires Inv(s) && Legal(s, DestroyContext(c))
    ensures Inv(Apply(s, DestroyContext(c)))
  {
    assert CtxOk(s, c);
    if s.ctxs[c].core.framebuffer.Bound? {
      ReleaseKeepsInv(s, c);
      var s1 := Switched(s, c, NoFramebuffer, s.ctxs[c].Surfaceless());
      var d := S.DestroySurface(s1.driver, s1.ctxs[c], s.ctxs[c].core.framebuffer.surface).0;
      EndContextKeepsInv(s1.(driver := d), c);
      var ctx := S.DestroyContext(d, s1.ctxs[c]).1;
      assert s1.ctxs[c := ctx] == s.ctxs[c := ctx];
    } else {
      EndContextKeepsInv(s, c);
    }
  }

  lemma ApplyKeepsInv(s: State, a: Action)
    requires Inv(s) && Legal(s, a)
    ensures Inv(Apply(s, a))
  {
    match a
    case MakeCurrent(c) => MakeCurrentKeepsInv(s, c);
    case NewWindow(c, size) => NewSurfaceKeepsInv(s, c, size, Widget);
    case NewGeneric(_, _) => GuardedKeepsInv(s, a);
    case WrapTexture(_) => GuardedKeepsInv(s, a);
    case Bind(c, i) => BindKeepsInv(s, c, i);
    case Unbind(c) => UnbindKeepsInv(s, c);
    case PresentBound(_, _) => PresentKeepsInv(s, a);
    case Present(_, _, _) => PresentKeepsInv(s, a);
    case DestroySurface(c, i) => DestroySurfaceKeepsInv(s, c, i);
    case DestroyContext(c) => DestroyContextKeepsInv(s, c);
    case _ => CreateKeepsInv(s, a);
  }

  // ----- every run

  function After(actions: seq<Action>): State {
    if actions == [] then START
    else
      var s := After(actions[..|actions| - 1]);
      var a := actions[|actions| - 1];
      if InScope(s, a) then Apply(s, a) else s
  }

  predicate LegalRun(actions: seq<Action>) {
    actions == [] ||
    var before := actions[..|actions| - 1];
    LegalRun(before) && Legal(After(before), actions[|actions| - 1])
  }

  lemma {:induction false} RunKeepsInv(actions: seq<Action>)
    requires LegalRun(actions)
    ensures Inv(After(actions))
  {
    if actions != [] {
      RunKeepsInv(actions[..|actions| - 1]);
      ApplyKeepsInv(After(actions[..|actions| - 1]), actions[|actions| - 1]);
    }
  }

  /** In every legal run: if a window surface is current, it has not been destroyed and it is the one
      bound to the current context; if a pbuffer is, it is the current context's own. */
  lemma CurrentSurfaceIsOwn(actions: seq<Action>)
    requires LegalRun(actions) && After(actions).driver.current.Some?
    ensures var s := After(actions);
            var b := s.driver.current.value;
            && b.context < |s.ctxs| && !s.ctxs[b.context].destroyed && b.context !in s.driver.deadContexts
            && (b.draw == b.read || s.ctxs[b.context].core.framebuffer.External?)
    ensures var s := After(actions);
            var b := s.driver.current.value;
            && (b.draw.Window? ==>
                  && b.draw.id !in s.driver.deadWindows
                  && s.ctxs[b.context].core.framebuffer.Bound?
                  && s.ctxs[b.context].core.framebuffer.surface.kind == Widget
                  && s.ctxs[b.context].core.framebuffer.surface.id == b.draw.id)
            && (b.draw.Pbuffer? ==> b.draw == Pbuffer(b.context) && b.context !in s.driver.deadPbuffers)
  {
    RunKeepsInv(actions);
    var s := After(actions);
    assert CtxOk(s, s.driver.current.value.context);
  }

  /** Exactly when presenting an unbound window surface keeps the invariant: when some context was
      current before. Otherwise that surface stays current, and destroying it leaves a destroyed
      surface current. */
  lemma PresentKeepsInvIff(s: State, c: nat, i: nat, swaps: bool)
    requires Inv(s) && InScope(s, Present(c, i, swaps)) && s.loose[i].kind == Widget
    ensures Inv(Apply(s, Present(c, i, swaps))) <==> s.driver.current.Some?
    ensures s.driver.current.None? ==>
              var after := Apply(s, Present(c, i, swaps));
              && after.driver.current == Some(Binding(s.ctxs[c].display, Window(s.loose[i].id), Window(s.loose[i].id), c))
              && (s.loose[i].contextId == c ==>
                    var end := Apply(after, DestroySurface(c, i)).driver;
                    end.current == after.driver.current && s.loose[i].id in end.deadWindows)
  {
    assert CtxOk(s, c);
    if s.driver.current.Some? {
      PresentKeepsInv(s, Present(c, i, swaps));
    }
  }
}
