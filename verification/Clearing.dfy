/** Clearing the back buffer of a chain: its effect on the chain, on the context and on the OpenGL
    state, which it promises to leave as it was. */
module Clearing {
  import opened Surfaces
  import opened DeviceApi
  import S = ChainSpec
  import opened ChainSpec
  import opened ChainLaws
  import opened Gl

  datatype Cleared = Cleared(st: St, state: State, clears: seq<Clear>, result: Outcome<()>)

  /** The framebuffer object that the first part unbinds from the context, if any. */
  function Displaced(st: St): Option<nat> {
    if st.chain.back.Detached? && st.ctx.framebuffer.Bound? then Fbo(st.ctx.framebuffer.surface) else None
  }

  /** The state for a clear of everything in `fbo` to `color`. */
  function ClearState(state: State, fbo: Option<nat>, color: Color): State {
    state.(drawFbo := fbo, readFbo := fbo, clearColor := color, clearDepth := 1.0, clearStencil := 0,
           colorMask := ALL_CHANNELS, depthMask := true,
           frontStencilMask := ALL_STENCIL_BITS, backStencilMask := ALL_STENCIL_BITS,
           scissorTest := false, rasterizerDiscard := false)
  }

  /** What was saved and is restored. Only the front stencil mask is saved, and it is restored for
      both faces. */
  function Restored(saved: State, state: State): State {
    State(saved.drawFbo, saved.readFbo, saved.clearColor, saved.clearDepth, saved.clearStencil,
          saved.colorMask, saved.depthMask, saved.frontStencilMask, saved.frontStencilMask,
          saved.scissorTest || state.scissorTest, saved.rasterizerDiscard || state.rasterizerDiscard)
  }

  function ClearBack(st: St, state: State, clears: seq<Clear>, color: Color): Cleared {
    if !st.Valid() then
      Cleared(st, state, clears, Err(IncompatibleContext))
    else
      var (entered, r) := EnterClear(st);
      var displaced := state.Unbound(Displaced(st));
      match r
      case Err(e) => Cleared(entered, displaced, clears, Err(e))
      case Panic => Cleared(entered, displaced, clears, Panic)
      case Ok(reattach) =>
        if !entered.ctx.framebuffer.Bound? then
          Cleared(entered.Drop(OptionOwned(reattach)), displaced, clears, Panic)
        else
          var bound := entered.ctx.framebuffer.surface;
          var during := ClearState(displaced, Fbo(bound), color);
          var (left, r') := LeaveClear(entered, reattach);
          var after := if reattach.Some? then during.Unbound(Fbo(bound)) else during;
          Cleared(left, if r'.Ok? then Restored(state, after) else after,
                  clears + [Clear(Fbo(bound), bound, during)], r')
  }

  lemma ClearBackEffect(st: St, state: State, clears: seq<Clear>, color: Color)
    ensures var c := ClearBack(st, state, clears, color); (c.st, c.result) == S.ClearSurface(st)
  {
  }

  /** The clear reaches every pixel of every buffer of `s`, and nothing else. */
  ghost predicate Whole(c: Clear, s: Surface, color: Color) {
    && c.bound == s && c.fbo == Fbo(s) && c.state.drawFbo == Fbo(s)
    && c.state.clearColor == color && c.state.clearDepth == 1.0 && c.state.clearStencil == 0
    && c.state.colorMask == ALL_CHANNELS && c.state.depthMask
    && c.state.frontStencilMask == c.state.backStencilMask == ALL_STENCIL_BITS
    && !c.state.scissorTest && !c.state.rasterizerDiscard
  }

  /** On a chain that is in place, with a surface bound to its context, attached or not: exactly the
      chain's back buffer is cleared, once, chain and context end up as they were, and so does the
      OpenGL state if and only if the two stencil masks were equal. */
  lemma ClearsBackBufferOnly(st: St, state: State, clears: seq<Clear>, color: Color)
    requires Ready(st) && st.ctx.framebuffer.Bound?
    ensures var c := ClearBack(st, state, clears, color);
            && c.result == Ok(()) && c.st == st
            && |c.clears| == |clears| + 1 && c.clears[..|clears|] == clears
            && Whole(c.clears[|clears|], Back(st.chain, st.ctx), color)
            && c.state == state.(backStencilMask := state.frontStencilMask)
            && (c.state == state <==> state.frontStencilMask == state.backStencilMask)
  {
  }

  /** The surface that a clear reaches: the back buffer of a detached chain, and otherwise whatever is
      bound to the context. */
  function ClearTarget(st: St): Surface
    requires st.chain.back.Detached? || st.ctx.framebuffer.Bound?
  {
    if st.chain.back.Detached? then st.chain.back.surface else st.ctx.framebuffer.surface
  }

  /** Every clear that returns `Ok` clears one surface entirely and, but for the back stencil mask,
      leaves the OpenGL state as it was. Exactly on a chain whose attached back buffer is out, that
      surface is not the chain's: it is another one that has been bound meanwhile. */
  lemma ClearReaches(st: St, state: State, clears: seq<Clear>, color: Color)
    requires Orderly(st) && ClearBack(st, state, clears, color).result == Ok(())
    ensures st.chain.back.Detached? || st.ctx.framebuffer.Bound?
    ensures var c := ClearBack(st, state, clears, color);
            && |c.clears| == |clears| + 1 && c.clears[..|clears|] == clears
            && Whole(c.clears[|clears|], ClearTarget(st), color)
            && c.state == state.(backStencilMask := state.frontStencilMask)
    ensures !st.chain.back.TakenDetached?
    ensures if st.chain.back.TakenAttached? then ClearBack(st, state, clears, color).st == st
            else ClearTarget(st) == Back(st.chain, st.ctx)
  {
    if st.chain.back.TakenAttached? {
      ClearBackEffect(st, state, clears, color);
      ClearSurfaceLaw(st);
    }
  }

  /** A clear that does not return `Ok` restores nothing. On a chain and context in order it has not
      changed anything either, so the OpenGL state is as it was. */
  lemma FailedClearIsClean(st: St, state: State, clears: seq<Clear>, color: Color)
    requires Orderly(st) && ClearBack(st, state, clears, color).result != Ok(())
    ensures var c := ClearBack(st, state, clears, color); c.state == state && c.clears == clears
  {
  }

  /** With surfaces of other contexts about, it may have cleared the back buffer before it failed; then
      all that the clear set stays set, except that the cleared framebuffer is unbound. */
  lemma FailedClearStaysSet(st: St, state: State, clears: seq<Clear>, color: Color)
    requires st.Valid() && st.chain.back.Detached? && st.chain.back.surface.contextId == st.ctx.id
    requires st.ctx.framebuffer.Bound? && st.ctx.framebuffer.surface.contextId != st.ctx.id
    ensures var s := st.chain.back.surface;
            var c := ClearBack(st, state, clears, color);
            && c.result == Err(IncompatibleSurface)
            && |c.clears| == |clears| + 1 && Whole(c.clears[|clears|], s, color)
            && c.state == c.clears[|clears|].state.(drawFbo := None, readFbo := None)
  {
  }

  /** If the back buffer itself cannot be bound, nothing has been cleared, and of the OpenGL state only
      the bindings of the surface bound before are gone. */
  lemma RefusedClearOnlyUnbinds(st: St, state: State, clears: seq<Clear>, color: Color)
    requires st.Valid() && st.chain.back.Detached? && st.chain.back.surface.contextId != st.ctx.id
    requires st.ctx.framebuffer.Bound?
    ensures var c := ClearBack(st, state, clears, color);
            var fbo := Fbo(st.ctx.framebuffer.surface);
            && c.result == Err(IncompatibleSurface) && c.clears == clears
            && c.state == state.(drawFbo := c.state.drawFbo, readFbo := c.state.readFbo)
            && c.state.drawFbo == (if state.drawFbo == fbo then None else state.drawFbo)
            && c.state.readFbo == (if state.readFbo == fbo then None else state.readFbo)
  {
  }

  /** Unbinding a framebuffer object undoes its bindings, for drawing and reading each by itself, and no
      other. */
  lemma UnboundExactly(state: State, fbo: nat)
    ensures var after := state.Unbound(Some(fbo));
            && after == state.(drawFbo := after.drawFbo, readFbo := after.readFbo)
            && after.drawFbo != Some(fbo) && (state.drawFbo != Some(fbo) ==> after.drawFbo == state.drawFbo)
            && after.readFbo != Some(fbo) && (state.readFbo != Some(fbo) ==> after.readFbo == state.readFbo)
            && (state.drawFbo == Some(fbo) ==> after.drawFbo == None)
            && (state.readFbo == Some(fbo) ==> after.readFbo == None)
  {
  }
}
