/** The device operations that swap chains rely on: what each one does to a context and to the
    device's bookkeeping, and exactly when it fails. */
module DeviceApi {
  import opened Surfaces

  datatype Ctx = Ctx(id: nat, framebuffer: Framebuffer<Surface>)

  /** A framebuffer blit from `source` to `target`, each with its own full rectangle. */
  datatype Blit = Blit(source: Surface, target: Surface)

  /** The bookkeeping of a device. `born` lists every surface ever created, in order of creation.
      `destroyed` holds those given to `destroy_surface`, and `dropped` those whose owner went out
      of scope without destroying them. `fallbacks` counts how often a chain fell back to destroying
      a surface that it could not bind. */
  datatype Dev = Dev(
    born: seq<Surface>,
    destroyed: multiset<Surface>,
    dropped: multiset<Surface>,
    blits: seq<Blit>,
    fallbacks: nat)
  {
    function Drop(s: multiset<Surface>): Dev {
      this.(dropped := dropped + s)
    }

    function Destroy(s: Surface): Dev {
      this.(destroyed := destroyed + multiset{s})
    }

    /** Destroys a surface on behalf of context `id`, and drops it where that is refused. */
    function DestroyOrDrop(id: nat, s: Surface): Dev {
      if s.contextId == id then Destroy(s) else Drop(multiset{s})
    }
  }

  function Create(dev: Dev, ctx: Ctx, size: Size, kind: Kind, creates: bool): (Dev, Outcome<Surface>) {
    if creates then
      var s := Surface(|dev.born|, size, ctx.id, kind);
      (dev.(born := dev.born + [s]), Ok(s))
    else
      (dev, Err(SurfaceCreationFailed))
  }

  /** On an error the surface stays with the caller. */
  function BindSurface(ctx: Ctx, s: Surface): (Ctx, Outcome<()>) {
    if ctx.id != s.contextId then
      (ctx, Err(IncompatibleSurface))
    else
      match ctx.framebuffer
      case NoFramebuffer => (ctx.(framebuffer := Bound(s)), Ok(()))
      case External => (ctx, Err(ExternalRenderTarget))
      case Bound(_) => (ctx, Err(SurfaceAlreadyBound))
  }

  function UnbindSurface(ctx: Ctx): (r: (Ctx, Outcome<Option<Surface>>))
    ensures !r.1.Panic?
  {
    match ctx.framebuffer
    case NoFramebuffer => (ctx, Ok(None))
    case External => (ctx, Err(ExternalRenderTarget))
    case Bound(s) => (ctx.(framebuffer := NoFramebuffer), Ok(Some(s)))
  }

  /** Whether wrapping `s` in a texture succeeds; `current` says whether the context could be made
      current. On an error the surface stays with the caller. */
  function MakeTexture(s: Surface, current: bool): (r: Outcome<()>)
    ensures !r.Panic?
  {
    if !current then Err(MakeCurrentFailed)
    else if s.kind == Widget then Err(WidgetAttached)
    else Ok(())
  }

  class Context {
    const id: nat
    var framebuffer: Framebuffer<Surface>

    constructor (id: nat, framebuffer: Framebuffer<Surface>)
      ensures Value() == Ctx(id, framebuffer)
    {
      this.id := id;
      this.framebuffer := framebuffer;
    }

    function Value(): Ctx
      reads this
    {
      Ctx(id, framebuffer)
    }

    method Bind(s: Surface) returns (r: Outcome<()>)
      modifies this
      ensures (Value(), r) == BindSurface(old(Value()), s)
    {
      if id != s.contextId {
        return Err(IncompatibleSurface);
      }
      match framebuffer {
        case NoFramebuffer => framebuffer := Bound(s);
        case External => return Err(ExternalRenderTarget);
        case Bound(_) => return Err(SurfaceAlreadyBound);
      }
      return Ok(());
    }

    method Unbind() returns (r: Outcome<Option<Surface>>)
      modifies this
      ensures (Value(), r) == UnbindSurface(old(Value()))
    {
      match framebuffer {
        case NoFramebuffer => return Ok(None);
        case External => return Err(ExternalRenderTarget);
        case Bound(surface) =>
          framebuffer := NoFramebuffer;
          return Ok(Some(surface));
      }
    }
  }

  class Device {
    var born: seq<Surface>
    var destroyed: multiset<Surface>
    var dropped: multiset<Surface>
    var blits: seq<Blit>
    var fallbacks: nat

    constructor ()
      ensures Value() == Dev([], multiset{}, multiset{}, [], 0)
    {
      born, destroyed, dropped, blits, fallbacks := [], multiset{}, multiset{}, [], 0;
    }

    function Value(): Dev
      reads this
    {
      Dev(born, destroyed, dropped, blits, fallbacks)
    }

    method CreateSurface(context: Context, size: Size, kind: Kind, creates: bool)
      returns (r: Outcome<Surface>)
      modifies this
      ensures (Value(), r) == Create(old(Value()), context.Value(), size, kind, creates)
    {
      if !creates {
        return Err(SurfaceCreationFailed);
      }
      var s := Surface(|born|, size, context.id, kind);
      born := born + [s];
      return Ok(s);
    }

    /** On an error nothing happens and the surface stays with the caller. */
    method DestroySurface(context: Context, s: Surface) returns (r: Outcome<()>)
      modifies this
      ensures s.contextId == context.id ==> r == Ok(()) && Value() == old(Value()).Destroy(s)
      ensures s.contextId != context.id ==> r == Err(IncompatibleSurface) && Value() == old(Value())
    {
      if s.contextId != context.id {
        return Err(IncompatibleSurface);
      }
      destroyed := destroyed + multiset{s};
      return Ok(());
    }

    /** Lets a surface go out of scope. */
    method Drop(s: Surface)
      modifies this
      ensures Value() == old(Value()).Drop(multiset{s})
    {
      dropped := dropped + multiset{s};
    }

    method DestroyOrDrop(context: Context, s: Surface)
      modifies this
      ensures Value() == old(Value()).DestroyOrDrop(context.id, s)
    {
      var r := DestroySurface(context, s);
      if !r.Ok? {
        Drop(s);
      }
    }
  }
}
