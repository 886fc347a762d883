/** Contexts backed by EGL: what a context, its surfaces and its guards do to the current binding of
    the calling thread. */
module EglSpec {
  import opened Surfaces
  import Api = DeviceApi

  /** An EGL surface. A widget surface has a window surface named after it; a generic surface has
      none, as it is drawn to through a framebuffer object. */
  datatype Handle = NoSurface | Pbuffer(context: nat) | Window(id: nat) | Foreign(id: nat)

  /** What is current on a thread: the display, the two surfaces and the context. */
  datatype Binding = Binding(display: nat, draw: Handle, read: Handle, context: nat)

  /** The driver as one thread sees it. A handle is dead once it has been destroyed. */
  datatype Driver = Driver(
    current: Option<Binding>,
    deadWindows: set<nat>,
    deadPbuffers: set<nat>,
    deadContexts: set<nat>)
  {
    predicate Alive(h: Handle) {
      match h
      case Window(id) => id !in deadWindows
      case Pbuffer(c) => c !in deadPbuffers
      case _ => true
    }

    predicate CanBind(b: Binding) {
      Alive(b.draw) && Alive(b.read) && b.context !in deadContexts
    }

    /** Fails without effect on a dead handle. */
    function MakeCurrent(b: Binding): Driver {
      if CanBind(b) then this.(current := Some(b)) else this
    }

    function MakeNoneCurrent(): Driver {
      this.(current := None)
    }

    predicate IsCurrent(context: nat) {
      current.Some? && current.value.context == context
    }

    /** The end of a guard that was created when `saved` was current. Nothing is restored if nothing
        was current then. */
    function DropGuard(saved: Option<Binding>): Driver {
      if saved.None? || current == saved then this else MakeCurrent(saved.value)
    }
  }

  /** `core` is the part of a context that swap chains see; its id also names the EGL context. `draw`
      and `read` are the surfaces of an externally managed context. */
  datatype Ctx = Ctx(
    core: Api.Ctx,
    display: nat,
    pbuffer: Handle,
    draw: Handle,
    read: Handle,
    owned: bool,
    destroyed: bool)
  {
    /** What becomes current with this context. */
    function Target(): Binding {
      match core.framebuffer
      case Bound(s) => Binding(display, SurfaceHandle(s), SurfaceHandle(s), core.id)
      case External => Binding(display, draw, read, core.id)
      case NoFramebuffer => Binding(display, pbuffer, pbuffer, core.id)
    }

    /** Current, with no surface attached. */
    function Surfaceless(): Binding {
      Binding(display, NoSurface, NoSurface, core.id)
    }
  }

  function SurfaceHandle(s: Surface): Handle {
    if s.kind == Widget then Window(s.id) else NoSurface
  }

  // ----- operations

  function BindSurface(d: Driver, ctx: Ctx, s: Surface): (Driver, Ctx, Outcome<()>) {
    var (core, r) := Api.BindSurface(ctx.core, s);
    var ctx' := ctx.(core := core);
    (if r.Ok? && d.IsCurrent(core.id) then d.MakeCurrent(ctx'.Target()) else d, ctx', r)
  }

  function UnbindSurface(d: Driver, ctx: Ctx): (Driver, Ctx, Outcome<Option<Surface>>) {
    var (core, r) := Api.UnbindSurface(ctx.core);
    var d' := if r.Ok? && r.value.Some? && d.IsCurrent(core.id) then d.MakeCurrent(ctx.Surfaceless()) else d;
    (d', ctx.(core := core), r)
  }

  /** Presents a surface through context `ctx`, under a guard; `swaps` says whether the buffer swap
      itself succeeds. */
  function Present(d: Driver, ctx: Ctx, s: Surface, swaps: bool): (Driver, Outcome<()>) {
    if s.kind == Generic then
      (d, Err(NoWidgetAttached))
    else
      var b := Binding(ctx.display, Window(s.id), Window(s.id), ctx.core.id);
      (d.MakeCurrent(b).DropGuard(d.current),
       if !d.CanBind(b) then Err(MakeCurrentFailed) else if swaps then Ok(()) else Err(PresentFailed))
  }

  /** Presents the bound surface, if there is one. */
  function PresentBound(d: Driver, ctx: Ctx, swaps: bool): (Driver, Outcome<()>) {
    if ctx.core.framebuffer.Bound? then Present(d, ctx, ctx.core.framebuffer.surface, swaps) else (d, Ok(()))
  }

  /** Work done with the context current, such as creating a surface or a texture. */
  function WithCurrent(d: Driver, ctx: Ctx): Driver {
    d.MakeCurrent(ctx.Target()).DropGuard(d.current)
  }

  function DestroySurface(d: Driver, ctx: Ctx, s: Surface): (Driver, Outcome<()>) {
    if ctx.core.id != s.contextId then
      (d, Err(IncompatibleSurface))
    else
      (if s.kind == Widget then d.(deadWindows := d.deadWindows + {s.id}) else d, Ok(()))
  }

  function DestroyContext(d: Driver, ctx: Ctx): (Driver, Ctx) {
    var d1 := if ctx.pbuffer.Pbuffer? then d.(deadPbuffers := d.deadPbuffers + {ctx.pbuffer.context}) else d;
    var d2 := d1.MakeNoneCurrent();
    var d3 := if ctx.owned then d2.(deadContexts := d2.deadContexts + {ctx.core.id}) else d2;
    (d3, ctx.(pbuffer := NoSurface, destroyed := true))
  }
}
