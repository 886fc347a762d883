/** Surfaces and their renderbuffers as objects, each method proved against `LedgerSpec`. */
module Ledger {
  import opened Surfaces
  import S = LedgerSpec
  import opened LedgerSpec

  /** OpenGL and EGL as one thread uses them. The driver's choice of names is a parameter. */
  class GlTables {
    var state: Tables

    method MakeCurrent(c: nat)
      modifies this
      ensures state == old(state).MakeCurrent(c)
    {
      state := state.(current := Some(c));
    }

    method DropGuard(saved: Option<nat>)
      modifies this
      ensures state == old(state).DropGuard(saved)
    {
      if saved.Some? {
        state := state.(current := saved);
      }
    }

    method CreateObject(kind: LedgerSpec.Kind, name: nat)
      modifies this
      ensures state == old(state).GlCreate(kind, name)
    {
      if state.current.Some? {
        state := state.(live := state.live + {state.Named(kind, state.current.value, name)});
      }
    }

    method DeleteObject(kind: LedgerSpec.Kind, name: nat)
      modifies this
      ensures state == old(state).GlDelete(kind, name)
    {
      if state.current.Some? && state.Named(kind, state.current.value, name) in state.live {
        state := state.(live := state.live - {state.Named(kind, state.current.value, name)});
      } else {
        state := state.(misdeletions := state.misdeletions + 1);
      }
    }

    /** Images and window surfaces need no current context. */
    method CreateDisplayObject(kind: LedgerSpec.Kind, name: nat)
      modifies this
      ensures state == old(state).Add(Object(kind, Display, name))
    {
      state := state.(live := state.live + {Object(kind, Display, name)});
    }

    method DeleteDisplayObject(kind: LedgerSpec.Kind, name: nat)
      modifies this
      ensures state == old(state).Delete(Object(kind, Display, name))
    {
      if Object(kind, Display, name) in state.live {
        state := state.(live := state.live - {Object(kind, Display, name)});
      } else {
        state := state.(misdeletions := state.misdeletions + 1);
      }
    }

    method BindFramebuffer(fbo: Option<nat>)
      modifies this
      ensures state == old(state).GlBindFramebuffer(fbo)
    {
      if state.current.Some? {
        var c := state.current.value;
        if fbo.None? {
          state := state.(drawFbo := state.drawFbo - {c}, readFbo := state.readFbo - {c});
        } else {
          state := state.(drawFbo := state.drawFbo[c := fbo.value], readFbo := state.readFbo[c := fbo.value]);
        }
      }
    }

    method CreateAndBindFramebuffer(name: nat)
      modifies this
      ensures state == old(state).GlCreate(Framebuffer, name).GlBindFramebuffer(Some(name))
    {
      CreateObject(Framebuffer, name);
      BindFramebuffer(Some(name));
    }

    method UnbindFramebufferIfNecessary(fbo: nat)
      modifies this
      ensures state == old(state).GlUnbindIfNecessary(fbo)
    {
      if state.current.None? {
        return;
      }
      var c := state.current.value;
      var draw := if c in state.drawFbo then Some(state.drawFbo[c]) else None;
      var read := if c in state.readFbo then Some(state.readFbo[c]) else None;
      if draw == Some(fbo) {
        state := state.(drawFbo := state.drawFbo - {c});
      }
      if read == Some(fbo) {
        state := state.(readFbo := state.readFbo - {c});
      }
    }

    method DestroyFramebuffer(fbo: nat)
      modifies this
      ensures state == old(state).GlDestroyFramebuffer(fbo)
    {
      UnbindFramebufferIfNecessary(fbo);
      DeleteObject(Framebuffer, fbo);
    }
  }

  class Renderbuffers {
    var attachments: Attachments

    constructor (gl: GlTables, depth: bool, stencil: bool, name: nat)
      modifies gl
      ensures (gl.state, attachments) == NewAttachments(old(gl.state), depth, stencil, name)
    {
      var depthBuffer, stencilBuffer := None, None;
      if depth && stencil {
        gl.CreateObject(Renderbuffer, name);
      } else {
        if depth {
          gl.CreateObject(Renderbuffer, name);
          depthBuffer := Some(name);
        }
        if stencil {
          gl.CreateObject(Renderbuffer, name);
          stencilBuffer := Some(name);
        }
      }
      attachments := if depth && stencil then Combined(Some(name)) else Individual(depthBuffer, stencilBuffer);
    }

    method Destroy(gl: GlTables)
      modifies this, gl
      ensures (gl.state, attachments) == DestroyAttachments(old(gl.state), old(attachments))
      ensures attachments.Droppable()
    {
      match attachments {
        case Combined(both) =>
          attachments := Combined(None);
          if both.Some? {
            gl.DeleteObject(Renderbuffer, both.value);
          }
        case Individual(depth, stencil) =>
          attachments := Individual(depth, None);
          if stencil.Some? {
            gl.DeleteObject(Renderbuffer, stencil.value);
          }
          attachments := Individual(None, None);
          if depth.Some? {
            gl.DeleteObject(Renderbuffer, depth.value);
          }
      }
    }
  }

  class EGLBackedSurface {
    const contextId: nat
    var image: Option<nat>
    var framebuffer: Option<nat>
    var texture: Option<nat>
    var window: Option<nat>
    /** Null for a window surface. */
    const renderbuffers: Renderbuffers?
    var destroyed: bool

    function Value(): GlSurface
      reads this, renderbuffers
    {
      GlSurface(contextId,
                if renderbuffers == null then WindowObjects(window)
                else TextureImage(image, framebuffer, texture, renderbuffers.attachments),
                destroyed)
    }

    constructor NewGeneric(gl: GlTables, contextId: nat, depth: bool, stencil: bool, names: Names)
      modifies gl
      ensures renderbuffers != null && fresh(renderbuffers)
      ensures (gl.state, Value()) == S.NewGeneric(old(gl.state), contextId, depth, stencil, names)
    {
      gl.CreateObject(Texture, names.texture);
      gl.CreateDisplayObject(Image, names.image);
      gl.CreateAndBindFramebuffer(names.framebuffer);
      var buffers := new Renderbuffers(gl, depth, stencil, names.renderbuffer);
      this.contextId, renderbuffers, destroyed := contextId, buffers, false;
      image, framebuffer, texture, window := Some(names.image), Some(names.framebuffer), Some(names.texture), None;
    }

    constructor NewWindow(gl: GlTables, contextId: nat, name: nat)
      modifies gl
      ensures renderbuffers == null
      ensures (gl.state, Value()) == S.NewWindow(old(gl.state), contextId, name)
    {
      gl.CreateDisplayObject(WindowSurface, name);
      this.contextId, renderbuffers, destroyed := contextId, null, false;
      image, framebuffer, texture, window := None, None, None, Some(name);
    }

    /** The deletions go to whatever context is current. */
    method Destroy(gl: GlTables, contextId: nat) returns (r: Outcome<()>)
      modifies this, gl, if renderbuffers == null then {} else {renderbuffers}
      ensures (gl.state, Value(), r) == S.Destroy(old(gl.state), contextId, old(Value()))
    {
      if contextId != this.contextId {
        return Err(IncompatibleSurface);
      }
      if renderbuffers != null {
        gl.BindFramebuffer(None);
        if framebuffer.Some? {
          gl.DeleteObject(Framebuffer, framebuffer.value);
        }
        framebuffer := None;
        renderbuffers.Destroy(gl);
        if image.None? {
          return Panic;
        }
        gl.DeleteDisplayObject(Image, image.value);
        image := None;
        if texture.Some? {
          gl.DeleteObject(Texture, texture.value);
        }
        texture := None;
      } else {
        if window.Some? {
          gl.DeleteDisplayObject(WindowSurface, window.value);
        }
        window := None;
      }
      destroyed := true;
      return Ok(());
    }

    /** The value is the name of the new texture, which samples from the surface's image. */
    method ToSurfaceTexture(gl: GlTables, name: nat) returns (r: Outcome<nat>)
      modifies gl
      ensures (gl.state, r) == S.ToSurfaceTexture(old(gl.state), Value(), name)
    {
      if renderbuffers == null {
        return Err(WidgetAttached);
      }
      gl.CreateObject(Texture, name);
      return Ok(name);
    }
  }

  // ----- the device, which makes a context current for some of these

  method CreateGenericSurface(gl: GlTables, contextId: nat, depth: bool, stencil: bool, names: Names)
    returns (surface: EGLBackedSurface)
    modifies gl
    ensures fresh(surface)
    ensures (gl.state, surface.Value()) == S.CreateGeneric(old(gl.state), contextId, depth, stencil, names)
  {
    var saved := gl.state.current;
    gl.MakeCurrent(contextId);
    surface := new EGLBackedSurface.NewGeneric(gl, contextId, depth, stencil, names);
    gl.DropGuard(saved);
  }

  method CreateSurfaceTexture(gl: GlTables, c: nat, surface: EGLBackedSurface, name: nat) returns (r: Outcome<nat>)
    modifies gl
    ensures (gl.state, r) == S.CreateTexture(old(gl.state), c, surface.Value(), name)
  {
    var saved := gl.state.current;
    gl.MakeCurrent(c);
    r := surface.ToSurfaceTexture(gl, name);
    gl.DropGuard(saved);
  }

  method DestroySurfaceTexture(gl: GlTables, c: nat, texture: nat)
    modifies gl
    ensures gl.state == S.DestroyTexture(old(gl.state), c, texture)
  {
    var saved := gl.state.current;
    gl.MakeCurrent(c);
    gl.DeleteObject(Texture, texture);
    gl.DropGuard(saved);
  }
}
