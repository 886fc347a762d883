/** The record behind a swap chain's lock. Every method runs with the lock held, so it is one atomic
    step of the protocol; each is proved to have exactly the effect and result of its counterpart in
    `ChainSpec`. */
module Chains {
  import opened Surfaces
  import opened DeviceApi
  import S = ChainSpec
  import opened ChainSpec
  import opened Clearing
  import opened Gl

  class SwapChainData {
    var size: Size
    const contextId: nat
    var backBuffer: BackBuffer
    var pendingSurface: Option<Surface>
    var recycledSurfaces: seq<Surface>

    constructor (size: Size, contextId: nat, backBuffer: BackBuffer)
      ensures Value() == Chain(size, contextId, backBuffer, None, [])
    {
      this.size, this.contextId, this.backBuffer := size, contextId, backBuffer;
      pendingSurface, recycledSurfaces := None, [];
    }

    function Value(): Chain
      reads this
    {
      Chain(size, contextId, backBuffer, pendingSurface, recycledSurfaces)
    }

    function State(device: Device, context: Context): St
      reads this, device, context
    {
      St(Value(), context.Value(), device.Value())
    }

    method TakeBack(device: Device, context: Context) returns (r: Outcome<Surface>)
      modifies this, context
      ensures (State(device, context), r) == S.TakeBack(old(State(device, context)))
    {
      match backBuffer {
        case Attached =>
          backBuffer := TakenAttached;
          var unbound := context.Unbind();
          match unbound {
            case Ok(surface) =>
              if surface.None? {
                return Panic;
              }
              return Ok(surface.value);
            case Err(e) => return Err(e);
            case Panic => return Panic;
          }
        case Detached(surface) =>
          backBuffer := TakenDetached;
          return Ok(surface);
        case TakenAttached => return Err(Failed);
        case TakenDetached => return Err(Failed);
      }
    }

    method ReplaceBack(device: Device, context: Context, surface: Surface) returns (r: Outcome<()>)
      modifies this, device, context
      ensures (State(device, context), r) == S.ReplaceBack(old(State(device, context)), surface)
    {
      match backBuffer {
        case TakenAttached =>
          r := context.Bind(surface);
          if !r.Ok? {
            device.DestroyOrDrop(context, surface);
            device.fallbacks := device.fallbacks + 1;
            return r;
          }
          backBuffer := Attached;
        case TakenDetached =>
          backBuffer := Detached(surface);
        case _ =>
          device.Drop(surface);
          return Err(Failed);
      }
      return Ok(());
    }

    /** Linear search for a recycled surface of the chain's size. */
    method Position() returns (i: nat)
      ensures i == FirstOfSize(recycledSurfaces, size)
    {
      i := 0;
      while i < |recycledSurfaces| && recycledSurfaces[i].size != size
        invariant i <= |recycledSurfaces|
        invariant forall j :: 0 <= j < i ==> recycledSurfaces[j].size != size
      {
        i := i + 1;
      }
    }

    method Fetch(device: Device, context: Context, creates: bool) returns (r: Outcome<Surface>)
      modifies this, device
      ensures (State(device, context), r) == S.Fetch(old(State(device, context)), creates)
    {
      var i := Position();
      if i < |recycledSurfaces| {
        r := Ok(recycledSurfaces[i]);
        recycledSurfaces := SwapRemove(recycledSurfaces, i);
      } else {
        r := device.CreateSurface(context, size, Generic, creates);
      }
    }

    method RenewBack(device: Device, context: Context, back: Surface) returns (r: Outcome<Surface>)
      modifies this, device, context
      ensures (State(device, context), r) == S.RenewBack(old(State(device, context)), back)
    {
      r := TakeBack(device, context);
      if !r.Ok? {
        device.Drop(back);
        return;
      }
      var replaced := ReplaceBack(device, context, back);
      if !replaced.Ok? {
        device.Drop(r.value);
        return if replaced.Err? then Err(replaced.error) else Panic;
      }
    }

    method SwapBuffers(device: Device, context: Context, preserve: bool, creates: bool)
      returns (r: Outcome<()>)
      modifies this, device, context
      ensures (State(device, context), r) == S.SwapBuffers(old(State(device, context)), preserve, creates)
    {
      if contextId != context.id {
        return Err(IncompatibleContext);
      }
      // A frame that nobody took becomes available for drawing again.
      if pendingSurface.Some? {
        recycledSurfaces := recycledSurfaces + [pendingSurface.value];
        pendingSurface := None;
      }
      var next := Fetch(device, context, creates);
      if !next.Ok? {
        return if next.Err? then Err(next.error) else Panic;
      }
      var front := RenewBack(device, context, next.value);
      if !front.Ok? {
        return if front.Err? then Err(front.error) else Panic;
      }
      if preserve {
        device.blits := device.blits + [Blit(front.value, next.value)];
      }
      pendingSurface := Some(front.value);
      return Ok(());
    }

    method TakeAttachmentFrom(device: Device, context: Context, other: SwapChainData)
      returns (r: Outcome<()>)
      requires other != this
      modifies this, other, device, context
      ensures S.Pair(Value(), other.Value(), context.Value(), device.Value(), r)
           == S.TakeAttachment(old(Value()), old(other.Value()), old(context.Value()), old(device.Value()))
    {
      if contextId != context.id || other.contextId != context.id {
        return Err(IncompatibleContext);
      }
      var ours := TakeBack(device, context);
      if !ours.Ok? {
        return if ours.Err? then Err(ours.error) else Panic;
      }
      var theirs := other.TakeBack(device, context);
      if !theirs.Ok? {
        device.Drop(ours.value);
        return if theirs.Err? then Err(theirs.error) else Panic;
      }
      backBuffer, other.backBuffer := other.backBuffer, backBuffer;
      r := ReplaceBack(device, context, ours.value);
      if !r.Ok? {
        device.Drop(theirs.value);
        return;
      }
      r := other.ReplaceBack(device, context, theirs.value);
    }

    method DestroyEach(device: Device, context: Context, surfaces: seq<Surface>) returns (r: Outcome<()>)
      modifies device
      ensures (device.Value(), r) == S.DestroyAll(old(device.Value()), context.id, surfaces)
    {
      var i := 0;
      while i < |surfaces|
        invariant 0 <= i <= |surfaces|
        invariant S.DestroyAll(device.Value(), context.id, surfaces[i..])
               == S.DestroyAll(old(device.Value()), context.id, surfaces)
      {
        r := device.DestroySurface(context, surfaces[i]);
        if !r.Ok? {
          device.dropped := device.dropped + multiset(surfaces[i..]);
          return;
        }
        i := i + 1;
      }
      return Ok(());
    }

    method Resize(device: Device, context: Context, newSize: Size, creates: bool)
      returns (r: Outcome<()>)
      modifies this, device, context
      ensures (State(device, context), r) == S.Resize(old(State(device, context)), newSize, creates)
    {
      if contextId != context.id {
        return Err(IncompatibleContext);
      }
      if newSize.width < 1 || newSize.height < 1 {
        return Err(Failed);
      }
      var next := device.CreateSurface(context, newSize, Generic, creates);
      if !next.Ok? {
        return if next.Err? then Err(next.error) else Panic;
      }
      var previous := RenewBack(device, context, next.value);
      if !previous.Ok? {
        return if previous.Err? then Err(previous.error) else Panic;
      }
      r := device.DestroySurface(context, previous.value);
      if !r.Ok? {
        device.Drop(previous.value);
        return;
      }
      var drained := recycledSurfaces;
      recycledSurfaces := [];
      r := DestroyEach(device, context, drained);
      if !r.Ok? {
        return;
      }
      size := newSize;
    }

    method TakeSurfaceTexture(device: Device, context: Context, current: bool)
      returns (r: Outcome<Surface>)
      modifies this, device, context
      ensures (State(device, context), r) == S.TakeTexture(old(State(device, context)), current)
    {
      if contextId != context.id {
        return Err(IncompatibleContext);
      }
      r := TakeBack(device, context);
      if r.Ok? {
        var texture := MakeTexture(r.value, current);
        if texture.Err? {
          var _ := ReplaceBack(device, context, r.value);
          return Err(texture.error);
        }
      }
    }

    /** `surface` is the surface inside the texture handed over. */
    method RecycleSurfaceTexture(device: Device, context: Context, surface: Surface, current: bool)
      returns (r: Outcome<()>)
      modifies this, device, context
      ensures (State(device, context), r) == S.RecycleTexture(old(State(device, context)), surface, current)
    {
      if contextId != context.id {
        device.Drop(surface);
        return Err(IncompatibleContext);
      }
      if !current {
        device.Drop(surface);
        return Err(MakeCurrentFailed);
      }
      r := ReplaceBack(device, context, surface);
    }

    method TakeSurface() returns (r: Option<Surface>)
      modifies this
      ensures (Value(), r) == S.TakeSurface(old(Value()))
    {
      r := pendingSurface;
      pendingSurface := None;
      if r.None? && recycledSurfaces != [] {
        var last := |recycledSurfaces| - 1;
        r := Some(recycledSurfaces[last]);
        recycledSurfaces := recycledSurfaces[..last];
      }
    }

    method TakePendingSurface() returns (r: Option<Surface>)
      modifies this
      ensures (Value(), r) == S.TakePending(old(Value()))
    {
      r := pendingSurface;
      pendingSurface := None;
    }

    method RecycleSurface(surface: Surface)
      modifies this
      ensures Value() == S.Recycle(old(Value()), surface)
    {
      recycledSurfaces := recycledSurfaces + [surface];
    }

    method EnterClear(device: Device, context: Context, gl: GlContext)
      returns (r: Outcome<Option<Surface>>)
      modifies this, device, context, gl`state
      ensures (State(device, context), r) == S.EnterClear(old(State(device, context)))
      ensures gl.state == old(gl.state.Unbound(Displaced(State(device, context))))
    {
      if backBuffer.IsAttached() {
        return Ok(None);
      }
      var back := TakeBack(device, context);
      if !back.Ok? {
        return if back.Err? then Err(back.error) else Panic;
      }
      r := BindForClear(device, context, gl, back.value);
    }

    method Abandon(device: Device, context: Context, surface: Surface, other: Option<Surface>)
      modifies device
      ensures device.Value() == S.Abandon(old(device.Value()), context.id, surface, other)
    {
      device.DestroyOrDrop(context, surface);
      if other.Some? {
        device.DestroyOrDrop(context, other.value);
      }
      device.fallbacks := device.fallbacks + 1;
    }

    method BindForClear(device: Device, context: Context, gl: GlContext, surface: Surface)
      returns (r: Outcome<Option<Surface>>)
      modifies device, context, gl`state
      ensures (State(device, context), r) == S.BindForClear(old(State(device, context)), surface)
      ensures gl.state == if old(context.framebuffer.Bound?)
                          then old(gl.state.Unbound(Fbo(context.framebuffer.surface))) else old(gl.state)
    {
      r := context.Unbind();
      if !r.Ok? {
        device.Drop(surface);
        return;
      }
      if r.value.Some? {
        gl.UnbindFramebufferIfNecessary(Fbo(r.value.value));
      }
      var bound := context.Bind(surface);
      if !bound.Ok? {
        Abandon(device, context, surface, r.value);
        return if bound.Err? then Err(bound.error) else Panic;
      }
    }

    method LeaveClear(device: Device, context: Context, gl: GlContext, reattach: Option<Surface>)
      returns (r: Outcome<()>)
      requires context.framebuffer.Bound?
      modifies this, device, context, gl`state
      ensures (State(device, context), r) == S.LeaveClear(old(State(device, context)), reattach)
      ensures gl.state == if reattach.Some? then old(gl.state.Unbound(Fbo(context.framebuffer.surface)))
                          else old(gl.state)
    {
      if reattach.None? {
        return Ok(());
      }
      var cleared := context.framebuffer.surface;
      var unbound := context.Unbind();
      assert unbound == Ok(Some(cleared));
      gl.UnbindFramebufferIfNecessary(Fbo(cleared));
      r := context.Bind(reattach.value);
      if !r.Ok? {
        Abandon(device, context, reattach.value, Some(cleared));
        return;
      }
      r := ReplaceBack(device, context, cleared);
    }

    method ClearSurface(device: Device, context: Context, gl: GlContext, color: Color)
      returns (r: Outcome<()>)
      modifies this, device, context, gl
      ensures Clearing.Cleared(State(device, context), gl.state, gl.clears, r)
           == ClearBack(old(State(device, context)), old(gl.state), old(gl.clears), color)
    {
      if contextId != context.id {
        return Err(IncompatibleContext);
      }
      var saved := gl.state;
      var entered := EnterClear(device, context, gl);
      if !entered.Ok? {
        return if entered.Err? then Err(entered.error) else Panic;
      }
      var reattach := entered.value;

      // Only a bound surface can be cleared.
      if !context.framebuffer.Bound? {
        if reattach.Some? {
          device.Drop(reattach.value);
        }
        return Panic;
      }
      var bound := context.framebuffer.surface;
      gl.BindFramebuffer(Fbo(bound));
      gl.state := gl.state.(clearColor := color, clearDepth := 1.0, clearStencil := 0);
      gl.state := gl.state.(scissorTest := false, rasterizerDiscard := false, depthMask := true);
      gl.SetStencilMask(ALL_STENCIL_BITS);
      gl.state := gl.state.(colorMask := ALL_CHANNELS);
      gl.clears := gl.clears + [Clear(gl.state.drawFbo, bound, gl.state)];

      r := LeaveClear(device, context, gl, reattach);
      if !r.Ok? {
        return;
      }

      // The back stencil mask was not saved.
      gl.state := gl.state.(drawFbo := saved.drawFbo, readFbo := saved.readFbo);
      gl.state := gl.state.(clearColor := saved.clearColor, colorMask := saved.colorMask);
      gl.state := gl.state.(clearDepth := saved.clearDepth, clearStencil := saved.clearStencil);
      gl.state := gl.state.(depthMask := saved.depthMask);
      gl.SetStencilMask(saved.frontStencilMask);
      if saved.scissorTest {
        gl.state := gl.state.(scissorTest := true);
      }
      if saved.rasterizerDiscard {
        gl.state := gl.state.(rasterizerDiscard := true);
      }
    }

    method Destroy(device: Device, context: Context) returns (r: Outcome<()>)
      modifies this, device, context
      ensures (State(device, context), r) == S.Destroy(old(State(device, context)))
    {
      if contextId != context.id {
        return Err(IncompatibleContext);
      }
      var surfaces := if pendingSurface.Some? then [pendingSurface.value] else [];
      pendingSurface := None;
      var back := TakeBack(device, context);
      if back.Panic? {
        device.dropped := device.dropped + multiset(surfaces);
        return Panic;
      }
      var middle := if back.Ok? then [back.value] else [];
      surfaces := surfaces + middle + recycledSurfaces;
      recycledSurfaces := [];
      r := DestroyEach(device, context, surfaces);
    }
  }

  method CreateAttached(context: Context) returns (r: Outcome<SwapChainData>)
    ensures S.CreateAttached(context.Value()).Panic? <==> r.Panic?
    ensures !r.Err?
    ensures r.Ok? ==> fresh(r.value) && S.CreateAttached(context.Value()) == Ok(r.value.Value())
  {
    if !context.framebuffer.Bound? {
      return Panic;
    }
    var chain := new SwapChainData(context.framebuffer.surface.size, context.id, Attached);
    return Ok(chain);
  }

  method CreateDetached(device: Device, context: Context, size: Size, creates: bool)
    returns (r: Outcome<SwapChainData>)
    modifies device
    ensures device.Value() == S.CreateDetached(old(device.Value()), context.Value(), size, creates).0
    ensures match S.CreateDetached(old(device.Value()), context.Value(), size, creates).1
            case Ok(chain) => r.Ok? && fresh(r.value) && r.value.Value() == chain
            case Err(e) => r == Err(e)
            case Panic => r == Panic
  {
    var created := device.CreateSurface(context, size, Generic, creates);
    if !created.Ok? {
      return if created.Err? then Err(created.error) else Panic;
    }
    var chain := new SwapChainData(size, context.id, Detached(created.value));
    return Ok(chain);
  }
}
