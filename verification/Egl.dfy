/** EGL-backed contexts as objects, each method proved against `EglSpec`. */
module Egl {
  import opened Surfaces
  import Api = DeviceApi
  import S = EglSpec
  import opened EglSpec

  class Thread {
    var state: Driver

    method MakeCurrent(b: Binding) returns (ok: bool)
      modifies this
      ensures state == old(state).MakeCurrent(b) && ok == old(state).CanBind(b)
    {
      ok := state.CanBind(b);
      if ok {
        state := state.(current := Some(b));
      }
    }

    method DestroyWindow(s: Surface)
      modifies this
      ensures state == old(state).(deadWindows := old(state).deadWindows + {s.id})
    {
      state := state.(deadWindows := state.deadWindows + {s.id});
    }
  }

  /** Saves the current binding when it is created and restores it when it is dropped. */
  class CurrentContextGuard {
    const saved: Option<Binding>

    constructor (thread: Thread)
      ensures saved == thread.state.current
    {
      saved := thread.state.current;
    }

    method Drop(thread: Thread)
      modifies thread
      ensures thread.state == old(thread.state).DropGuard(saved)
    {
      if saved.None? {
        return;
      }
      if thread.state.current == saved {
        return;
      }
      var _ := thread.MakeCurrent(saved.value);
    }
  }

  class EGLBackedContext {
    const id: nat
    const display: nat
    const draw: Handle
    const read: Handle
    const owned: bool
    var framebuffer: Framebuffer<Surface>
    var pbuffer: Handle
    var destroyed: bool

    /** A new context has nothing bound; its dummy pbuffer may fail to be created. */
    constructor New(id: nat, display: nat, hasPbuffer: bool)
      ensures Value() == Ctx(Api.Ctx(id, NoFramebuffer), display,
                             if hasPbuffer then Pbuffer(id) else NoSurface, NoSurface, NoSurface, true, false)
    {
      this.id, this.display, draw, read, owned := id, display, NoSurface, NoSurface, true;
      framebuffer, pbuffer, destroyed := NoFramebuffer, if hasPbuffer then Pbuffer(id) else NoSurface, false;
    }

    constructor FromNativeContext(id: nat, display: nat, draw: Handle, read: Handle)
      ensures Value() == Ctx(Api.Ctx(id, External), display, NoSurface, draw, read, false, false)
    {
      this.id, this.display, this.draw, this.read, owned := id, display, draw, read, false;
      framebuffer, pbuffer, destroyed := External, NoSurface, false;
    }

    function Value(): Ctx
      reads this
    {
      Ctx(Api.Ctx(id, framebuffer), display, pbuffer, draw, read, owned, destroyed)
    }

    method MakeCurrent(thread: Thread) returns (ok: bool)
      modifies thread
      ensures thread.state == old(thread.state).MakeCurrent(Value().Target())
      ensures ok == old(thread.state).CanBind(Value().Target())
    {
      var drawSurface, readSurface := pbuffer, pbuffer;
      match framebuffer {
        case Bound(s) => drawSurface, readSurface := SurfaceHandle(s), SurfaceHandle(s);
        case External => drawSurface, readSurface := draw, read;
        case NoFramebuffer =>
      }
      ok := thread.MakeCurrent(Binding(display, drawSurface, readSurface, id));
    }

    method BindSurface(thread: Thread, surface: Surface) returns (r: Outcome<()>)
      modifies this, thread
      ensures (thread.state, Value(), r) == S.BindSurface(old(thread.state), old(Value()), surface)
    {
      if id != surface.contextId {
        return Err(IncompatibleSurface);
      }
      match framebuffer {
        case NoFramebuffer => framebuffer := Bound(surface);
        case External => return Err(ExternalRenderTarget);
        case Bound(_) => return Err(SurfaceAlreadyBound);
      }
      // A current context starts to render to the surface at once.
      if thread.state.IsCurrent(id) {
        var _ := MakeCurrent(thread);
      }
      return Ok(());
    }

    method UnbindSurface(thread: Thread) returns (r: Outcome<Option<Surface>>)
      modifies this, thread
      ensures (thread.state, Value(), r) == S.UnbindSurface(old(thread.state), old(Value()))
    {
      match framebuffer {
        case NoFramebuffer => return Ok(None);
        case External => return Err(ExternalRenderTarget);
        case Bound(surface) =>
          framebuffer := NoFramebuffer;
          // The context remains the current one, without a surface.
          if thread.state.IsCurrent(id) {
            var _ := thread.MakeCurrent(Binding(display, NoSurface, NoSurface, id));
          }
          return Ok(Some(surface));
      }
    }

    method Present(thread: Thread, surface: Surface, swaps: bool) returns (r: Outcome<()>)
      modifies thread
      ensures (thread.state, r) == S.Present(old(thread.state), Value(), surface, swaps)
    {
      if surface.kind == Generic {
        return Err(NoWidgetAttached);
      }
      var guard := new CurrentContextGuard(thread);
      var ok := thread.MakeCurrent(Binding(display, Window(surface.id), Window(surface.id), id));
      r := if !ok then Err(MakeCurrentFailed) else if swaps then Ok(()) else Err(PresentFailed);
      guard.Drop(thread);
    }

    method PresentBoundSurface(thread: Thread, swaps: bool) returns (r: Outcome<()>)
      modifies thread
      ensures (thread.state, r) == S.PresentBound(old(thread.state), Value(), swaps)
    {
      if !framebuffer.Bound? {
        return Ok(());
      }
      r := Present(thread, framebuffer.surface, swaps);
    }

    method DestroySurface(thread: Thread, surface: Surface) returns (r: Outcome<()>)
      modifies thread
      ensures (thread.state, r) == S.DestroySurface(old(thread.state), Value(), surface)
    {
      if id != surface.contextId {
        return Err(IncompatibleSurface);
      }
      if surface.kind == Widget {
        thread.DestroyWindow(surface);
      }
      return Ok(());
    }

    method Destroy(thread: Thread)
      modifies this, thread
      ensures (thread.state, Value()) == DestroyContext(old(thread.state), old(Value()))
    {
      if pbuffer.Pbuffer? {
        thread.state := thread.state.(deadPbuffers := thread.state.deadPbuffers + {pbuffer.context});
      }
      pbuffer := NoSurface;
      thread.state := thread.state.(current := None);
      if owned {
        thread.state := thread.state.(deadContexts := thread.state.deadContexts + {id});
      }
      destroyed := true;
    }
  }
}
