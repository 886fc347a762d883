/** Surfaces on ANGLE: the keyed mutex that synchronizes a pbuffer surface between contexts is
    acquired when the surface is bound or wrapped in a texture, and released when it is not. */
module AngleSpec {
  import opened Surfaces

  datatype Synchronization = KeyedMutex | GLFinish | Unsynchronized

  datatype Win32Objects = WindowObjects | Pbuffer(sync: Synchronization)

  datatype Surface = Surface(id: nat, contextId: nat, objects: Win32Objects)
  {
    predicate Keyed() {
      objects == Pbuffer(KeyedMutex)
    }
  }

  datatype Context = Context(id: nat, framebuffer: Framebuffer<Surface>)

  /** `local` says whether the texture holds the mutex of its surface. */
  datatype SurfaceTexture = SurfaceTexture(surface: Surface, local: bool)

  /** The mutexes that are held, by surface. `faults` counts acquisitions of a mutex that was held
      already, which would wait for ever, and releases of one that was not, which would panic. */
  datatype Mutexes = Mutexes(held: set<nat>, faults: nat)
  {
    function Acquire(id: nat): Mutexes {
      if id in held then this.(faults := faults + 1) else this.(held := held + {id})
    }

    function Release(id: nat): Mutexes {
      if id in held then this.(held := held - {id}) else this.(faults := faults + 1)
    }
  }

  function BindSurface(m: Mutexes, ctx: Context, s: Surface): (Mutexes, Context, Outcome<()>) {
    if ctx.id != s.contextId then
      (m, ctx, Err(IncompatibleSurface))
    else
      match ctx.framebuffer
      case External => (m, ctx, Err(ExternalRenderTarget))
      case Bound(_) => (m, ctx, Err(SurfaceAlreadyBound))
      case NoFramebuffer => (if s.Keyed() then m.Acquire(s.id) else m, ctx.(framebuffer := Bound(s)), Ok(()))
  }

  function UnbindSurface(m: Mutexes, ctx: Context): (Mutexes, Context, Outcome<Option<Surface>>) {
    match ctx.framebuffer
    case NoFramebuffer => (m, ctx, Ok(None))
    case External => (m, ctx, Err(ExternalRenderTarget))
    case Bound(s) => (if s.Keyed() then m.Release(s.id) else m, ctx.(framebuffer := NoFramebuffer), Ok(Some(s)))
  }

  /** What the driver answers while a texture is made: whether the surface can be imported, whether
      the imported surface has a keyed mutex, and whether it can be bound to a texture. */
  datatype Driver = Driver(imports: bool, keyed: bool, binds: bool)

  /** On an error the surface stays with the caller; the mutex is not released again. */
  function CreateTexture(m: Mutexes, s: Surface, driver: Driver): (Mutexes, Outcome<SurfaceTexture>) {
    if s.objects.WindowObjects? then
      (m, Err(WidgetAttached))
    else if !driver.imports then
      (m, Err(SurfaceImportFailed))
    else
      var m' := if driver.keyed then m.Acquire(s.id) else m;
      (m', if driver.binds then Ok(SurfaceTexture(s, driver.keyed)) else Err(SurfaceTextureCreationFailed))
  }

  function DestroyTexture(m: Mutexes, texture: SurfaceTexture): (Mutexes, Surface) {
    (if texture.local then m.Release(texture.surface.id) else m, texture.surface)
  }
}
