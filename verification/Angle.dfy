/** ANGLE contexts and keyed mutexes as objects, each method proved against `AngleSpec`. */
module Angle {
  import opened Surfaces
  import A = AngleSpec

  class KeyedMutexes {
    var state: A.Mutexes

    method AcquireSync(id: nat)
      modifies this
      ensures state == old(state).Acquire(id)
    {
      if id in state.held {
        state := state.(faults := state.faults + 1);
      } else {
        state := state.(held := state.held + {id});
      }
    }

    method ReleaseSync(id: nat)
      modifies this
      ensures state == old(state).Release(id)
    {
      if id in state.held {
        state := state.(held := state.held - {id});
      } else {
        state := state.(faults := state.faults + 1);
      }
    }
  }

  class AngleContext {
    const id: nat
    var framebuffer: Framebuffer<A.Surface>

    function Value(): A.Context
      reads this
    {
      A.Context(id, framebuffer)
    }

    method BindSurface(mutexes: KeyedMutexes, surface: A.Surface) returns (r: Outcome<()>)
      modifies this, mutexes
      ensures (mutexes.state, Value(), r) == A.BindSurface(old(mutexes.state), old(Value()), surface)
    {
      if id != surface.contextId {
        return Err(IncompatibleSurface);
      }
      match framebuffer {
        case NoFramebuffer =>
        case External => return Err(ExternalRenderTarget);
        case Bound(_) => return Err(SurfaceAlreadyBound);
      }
      match surface.objects {
        case Pbuffer(KeyedMutex) => mutexes.AcquireSync(surface.id);
        case _ =>
      }
      framebuffer := Bound(surface);
      return Ok(());
    }

    method UnbindSurface(mutexes: KeyedMutexes) returns (r: Outcome<Option<A.Surface>>)
      modifies this, mutexes
      ensures (mutexes.state, Value(), r) == A.UnbindSurface(old(mutexes.state), old(Value()))
    {
      match framebuffer {
        case NoFramebuffer => return Ok(None);
        case External => return Err(ExternalRenderTarget);
        case Bound(surface) =>
          framebuffer := NoFramebuffer;
          match surface.objects {
            case Pbuffer(KeyedMutex) => mutexes.ReleaseSync(surface.id);
            case _ =>
          }
          return Ok(Some(surface));
      }
    }
  }

  method CreateSurfaceTexture(mutexes: KeyedMutexes, surface: A.Surface, driver: A.Driver)
    returns (r: Outcome<A.SurfaceTexture>)
    modifies mutexes
    ensures (mutexes.state, r) == A.CreateTexture(old(mutexes.state), surface, driver)
  {
    if surface.objects.WindowObjects? {
      return Err(WidgetAttached);
    }
    if !driver.imports {
      return Err(SurfaceImportFailed);
    }
    var local := false;
    if driver.keyed {
      mutexes.AcquireSync(surface.id);
      local := true;
    }
    if !driver.binds {
      return Err(SurfaceTextureCreationFailed);
    }
    return Ok(A.SurfaceTexture(surface, local));
  }

  method DestroySurfaceTexture(mutexes: KeyedMutexes, texture: A.SurfaceTexture) returns (surface: A.Surface)
    modifies mutexes
    ensures (mutexes.state, surface) == A.DestroyTexture(old(mutexes.state), texture)
  {
    if texture.local {
      mutexes.ReleaseSync(texture.surface.id);
    }
    surface := texture.surface;
  }
}
