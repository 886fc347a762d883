/** The part of the OpenGL state that the producer's calls save, change and restore. The context of
    this state is the producer's, and it is current. */
module Gl {
  import opened Surfaces

  datatype Color = Color(r: real, g: real, b: real, a: real)

  datatype ColorMask = ColorMask(r: bool, g: bool, b: bool, a: bool)

  const ALL_CHANNELS := ColorMask(true, true, true, true)
  const ALL_STENCIL_BITS := 0xFFFF_FFFF

  /** One `glClear` of all three buffers: the framebuffer object it went to, or none for the default
      framebuffer, and the state it ran under. */
  datatype Clear = Clear(fbo: Option<nat>, bound: Surface, state: State)

  datatype State = State(
    drawFbo: Option<nat>,
    readFbo: Option<nat>,
    clearColor: Color,
    clearDepth: real,
    clearStencil: int,
    colorMask: ColorMask,
    depthMask: bool,
    frontStencilMask: nat,
    backStencilMask: nat,
    scissorTest: bool,
    rasterizerDiscard: bool)
  {
    /** Unbinds a framebuffer object from both targets. */
    function Unbound(fbo: Option<nat>): State {
      if fbo.None? then this
      else this.(drawFbo := if drawFbo == fbo then None else drawFbo,
                 readFbo := if readFbo == fbo then None else readFbo)
    }
  }

  /** The framebuffer object of a surface; a widget surface is drawn to through the default one. */
  function Fbo(s: Surface): Option<nat> {
    if s.kind == Generic then Some(s.id) else None
  }

  class GlContext {
    var state: State
    var clears: seq<Clear>

    method UnbindFramebufferIfNecessary(fbo: Option<nat>)
      modifies this`state
      ensures state == old(state).Unbound(fbo)
    {
      if fbo.Some? {
        var draw, read := state.drawFbo, state.readFbo;
        if draw == fbo {
          state := state.(drawFbo := None);
        }
        if read == fbo {
          state := state.(readFbo := None);
        }
      }
    }

    method BindFramebuffer(fbo: Option<nat>)
      modifies this`state
      ensures state == old(state).(drawFbo := fbo, readFbo := fbo)
    {
      state := state.(drawFbo := fbo, readFbo := fbo);
    }

    method SetStencilMask(mask: nat)
      modifies this`state
      ensures state == old(state).(frontStencilMask := mask, backStencilMask := mask)
    {
      state := state.(frontStencilMask := mask, backStencilMask := mask);
    }
  }
}
