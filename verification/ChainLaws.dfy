/** What each call on one chain amounts to when the chain and its context are in order. */
module ChainLaws {
  import opened Surfaces
  import opened DeviceApi
  import opened ChainSpec

  /** All surfaces belong to the producer context, and a detached back buffer has the chain's size. */
  ghost predicate ChainOk(chain: Chain) {
    && (chain.pending.Some? ==> chain.pending.value.contextId == chain.contextId)
    && (forall i :: 0 <= i < |chain.recycled| ==> chain.recycled[i].contextId == chain.contextId)
    && (chain.back.Detached? ==>
          chain.back.surface.contextId == chain.contextId && chain.back.surface.size == chain.size)
  }

  /** The context's bound surface is its own, and it is the back buffer of an attached chain. */
  ghost predicate CtxOk(chain: Chain, ctx: Ctx) {
    && (ctx.framebuffer.Bound? ==> ctx.framebuffer.surface.contextId == ctx.id)
    && (chain.back.Attached? ==> ctx.framebuffer.Bound? && ctx.framebuffer.surface.size == chain.size)
  }

  /** The producer calls with its own context on a chain whose back buffer is in place. */
  ghost predicate Ready(st: St) {
    && st.Valid()
    && !st.chain.back.Taken()
    && ChainOk(st.chain)
    && CtxOk(st.chain, st.ctx)
  }

  /** The surface that the producer draws to. */
  function Back(chain: Chain, ctx: Ctx): Surface
    requires !chain.back.Taken() && (chain.back.Attached? ==> ctx.framebuffer.Bound?)
  {
    if chain.back.Attached? then ctx.framebuffer.surface else chain.back.surface
  }

  /** Replaces the back buffer, whichever way the chain holds it. */
  function WithBack(st: St, s: Surface): St {
    if st.chain.back.Attached? then
      st.(ctx := st.ctx.(framebuffer := Bound(s)))
    else
      st.(chain := st.chain.(back := Detached(s)))
  }

  lemma RenewBackLaw(st: St, next: Surface)
    requires Ready(st) && next.contextId == st.ctx.id
    ensures RenewBack(st, next) == (WithBack(st, next), Ok(Back(st.chain, st.ctx)))
  {
  }

  /** The surface that a swap finds for the next back buffer, and where it leaves the others. */
  function NextBack(st: St): (Surface, seq<Surface>, Dev) {
    var pool := RecyclePending(st.chain).recycled;
    var i := FirstOfSize(pool, st.chain.size);
    if i < |pool| then
      (pool[i], SwapRemove(pool, i), st.dev)
    else
      var s := Surface(|st.dev.born|, st.chain.size, st.ctx.id, Generic);
      (s, pool, st.dev.(born := st.dev.born + [s]))
  }

  /** A swap needs a new surface only if none that was presented has the chain's size. */
  predicate CanSwap(chain: Chain, creates: bool) {
    var pool := RecyclePending(chain).recycled;
    creates || FirstOfSize(pool, chain.size) < |pool|
  }

  /** A swap presents the old back buffer, and fails only for want of a surface. */
  lemma SwapBuffersLaw(st: St, preserve: bool, creates: bool)
    requires Ready(st)
    ensures !CanSwap(st.chain, creates) ==>
              SwapBuffers(st, preserve, creates) == (st.(chain := RecyclePending(st.chain)), Err(SurfaceCreationFailed))
    ensures CanSwap(st.chain, creates) ==>
              var (next, rest, dev) := NextBack(st);
              var shown := Back(st.chain, st.ctx);
              && next.size == st.chain.size && next.contextId == st.ctx.id
              && SwapBuffers(st, preserve, creates)
              == (WithBack(St(st.chain.(pending := Some(shown), recycled := rest),
                              st.ctx,
                              if preserve then dev.(blits := dev.blits + [Blit(shown, next)]) else dev), next),
                  Ok(()))
  {
    if CanSwap(st.chain, creates) {
      var (next, rest, dev) := NextBack(st);
      var fetched := St(st.chain.(pending := None, recycled := rest), st.ctx, dev);
      var start := st.(chain := RecyclePending(st.chain));
      assert Fetch(start, creates) == (fetched, Ok(next));
      SwapRemoveKeeps(start.chain);
      RenewBackLaw(fetched, next);
    }
  }

  lemma SwapRemoveKeeps(chain: Chain)
    requires ChainOk(chain)
    ensures var i := FirstOfSize(chain.recycled, chain.size);
            i < |chain.recycled| ==> ChainOk(chain.(recycled := SwapRemove(chain.recycled, i)))
  {
  }

  lemma {:induction false} DestroyAllLaw(dev: Dev, contextId: nat, surfaces: seq<Surface>)
    requires forall i :: 0 <= i < |surfaces| ==> surfaces[i].contextId == contextId
    ensures DestroyAll(dev, contextId, surfaces)
         == (dev.(destroyed := dev.destroyed + multiset(surfaces)), Ok(()))
    decreases |surfaces|
  {
    if surfaces == [] {
      assert dev.destroyed + multiset(surfaces) == dev.destroyed;
    } else {
      var rest := surfaces[1..];
      DestroyAllLaw(dev.Destroy(surfaces[0]), contextId, rest);
      assert surfaces == [surfaces[0]] + rest;
      assert dev.destroyed + multiset{surfaces[0]} + multiset(rest) == dev.destroyed + multiset(surfaces);
    }
  }

  /** A resize destroys the old back buffer and everything recycled, and nothing else. */
  lemma ResizeLaw(st: St, size: Size, creates: bool)
    requires Ready(st)
    ensures size.width < 1 || size.height < 1 ==> Resize(st, size, creates) == (st, Err(Failed))
    ensures size.width >= 1 && size.height >= 1 && !creates ==>
              Resize(st, size, creates) == (st, Err(SurfaceCreationFailed))
    ensures size.width >= 1 && size.height >= 1 && creates ==>
              var next := Surface(|st.dev.born|, size, st.ctx.id, Generic);
              var gone := st.dev.destroyed + multiset{Back(st.chain, st.ctx)} + multiset(st.chain.recycled);
              Resize(st, size, creates)
              == (WithBack(St(st.chain.(recycled := [], size := size), st.ctx,
                              st.dev.(born := st.dev.born + [next], destroyed := gone)), next),
                  Ok(()))
  {
    if size.width >= 1 && size.height >= 1 && creates {
      var next := Surface(|st.dev.born|, size, st.ctx.id, Generic);
      var created := st.(dev := st.dev.(born := st.dev.born + [next]));
      RenewBackLaw(created, next);
      var oldBack := Back(st.chain, st.ctx);
      DestroyAllLaw(created.dev.Destroy(oldBack), st.ctx.id, st.chain.recycled);
    }
  }

  /** The chain and context while the back buffer is out. */
  function Lent(st: St): St {
    if st.chain.back.Attached? then
      st.SetBack(TakenAttached).(ctx := st.ctx.(framebuffer := NoFramebuffer))
    else
      st.SetBack(TakenDetached)
  }

  /** Taking the back buffer as a texture succeeds unless it belongs to a widget. */
  lemma TakeTextureLaw(st: St)
    requires Ready(st) && Back(st.chain, st.ctx).kind == Generic
    ensures TakeTexture(st, true) == (Lent(st), Ok(Back(st.chain, st.ctx)))
  {
  }

  /** Taking the back buffer as a texture and putting it back is the identity, from both states of
      the chain. */
  lemma TextureRoundTrip(st: St)
    requires Ready(st) && Back(st.chain, st.ctx).kind == Generic
    ensures var (taken, r) := TakeTexture(st, true);
            && r == Ok(Back(st.chain, st.ctx))
            && RecycleTexture(taken, r.value, true) == (st, Ok(()))
  {
  }

  /** A texture that cannot be made leaves everything as it was. */
  lemma TextureRollback(st: St, current: bool)
    requires Ready(st)
    requires !current || Back(st.chain, st.ctx).kind == Widget
    ensures TakeTexture(st, current) == (st, Err(if current then WidgetAttached else MakeCurrentFailed))
  {
  }

  /** The context is foreign to the chain, or both are in order. */
  ghost predicate Orderly(st: St) {
    st.Valid() ==> ChainOk(st.chain) && CtxOk(st.chain, st.ctx)
  }

  /** The result of a clear in every state, in terms of what the caller can see before the call. */
  function ClearResult(st: St): Outcome<()> {
    if !st.Valid() then Err(IncompatibleContext)
    else if st.chain.back.TakenDetached? then Err(Failed)
    else if st.chain.back.Detached? && st.ctx.framebuffer.External? then Err(ExternalRenderTarget)
    else if st.chain.back.TakenAttached? && !st.ctx.framebuffer.Bound? then Panic
    else Ok(())
  }

  /** Exactly when a clear leaves chain, context and device as they were: unless the chain is detached
      and its context has no bound surface to put back. */
  lemma ClearSurfaceLaw(st: St)
    requires Orderly(st)
    ensures ClearSurface(st).1 == ClearResult(st)
    ensures ClearSurface(st).0 == st
       <==> !(st.Valid() && st.chain.back.Detached? && !st.ctx.framebuffer.Bound?)
  {
    if st.Valid() && st.chain.back.TakenAttached? {
      assert st.dev.dropped + multiset{} == st.dev.dropped;
    }
    if st.Valid() && st.chain.back.Detached? && st.ctx.framebuffer.External? {
      ClearSurfaceDropsIff(st);
    }
  }

  /** With nothing bound, clearing a detached chain returns `Ok` but leaves its back buffer bound to
      the context and the chain without one. */
  lemma ClearSurfaceStrands(st: St)
    requires Ready(st) && st.ctx.framebuffer.NoFramebuffer?
    ensures st.chain.back.Detached?
    ensures ClearSurface(st)
         == (st.SetBack(TakenDetached).(ctx := st.ctx.(framebuffer := Bound(st.chain.back.surface))), Ok(()))
  {
  }

  /** Exactly when a clear drops a surface: a detached chain of an externally managed context. */
  lemma ClearSurfaceDropsIff(st: St)
    requires Orderly(st)
    ensures ClearSurface(st).0.dev.dropped != st.dev.dropped
       <==> st.Valid() && st.chain.back.Detached? && st.ctx.framebuffer.External?
  {
    if st.Valid() && st.chain.back.Detached? && st.ctx.framebuffer.External? {
      var mine := st.chain.back.surface;
      assert (st.dev.dropped + multiset{mine})[mine] == st.dev.dropped[mine] + 1;
    }
  }

  /** Destroying a chain destroys each surface it owns once: the pending one, the back buffer and
      the recycled ones. */
  lemma DestroyLaw(st: St)
    requires Ready(st)
    ensures var (after, r) := Destroy(st);
            && r == Ok(())
            && after.chain == st.chain.(
                 back := if st.chain.back.Attached? then TakenAttached else TakenDetached,
                 pending := None,
                 recycled := [])
            && after.ctx == (if st.chain.back.Attached? then st.ctx.(framebuffer := NoFramebuffer) else st.ctx)
            && after.dev == st.dev.(destroyed := st.dev.destroyed + OptionOwned(st.chain.pending)
                                      + multiset{Back(st.chain, st.ctx)} + multiset(st.chain.recycled))
  {
    var start := st.(chain := st.chain.(pending := None));
    var (taken, back) := TakeBack(start);
    var front := if st.chain.pending.Some? then [st.chain.pending.value] else [];
    DestroyOwnedLaw(taken, front + [back.value], OptionOwned(st.chain.pending) + multiset{back.value});
    assert st.dev.destroyed + (OptionOwned(st.chain.pending) + multiset{back.value})
        == st.dev.destroyed + OptionOwned(st.chain.pending) + multiset{back.value};
  }

  lemma DestroyOwnedLaw(st: St, surfaces: seq<Surface>, owned: multiset<Surface>)
    requires forall i :: 0 <= i < |surfaces| ==> surfaces[i].contextId == st.ctx.id
    requires forall i :: 0 <= i < |st.chain.recycled| ==> st.chain.recycled[i].contextId == st.ctx.id
    requires multiset(surfaces) == owned
    ensures DestroyOwned(st, surfaces)
         == (st.(chain := st.chain.(recycled := []),
                 dev := st.dev.(destroyed := st.dev.destroyed + owned + multiset(st.chain.recycled))), Ok(()))
  {
    DestroyAllLaw(st.dev, st.ctx.id, surfaces + st.chain.recycled);
    assert st.dev.destroyed + multiset(surfaces + st.chain.recycled)
        == st.dev.destroyed + owned + multiset(st.chain.recycled);
  }

  /** Destroying a chain whose back buffer is gone destroys what has been recycled since. */
  lemma DestroyAgainLaw(st: St)
    requires st.Valid() && st.chain.back.Taken() && ChainOk(st.chain)
    ensures Destroy(st)
         == (st.(chain := st.chain.(pending := None, recycled := []),
                 dev := st.dev.(destroyed := st.dev.destroyed + OptionOwned(st.chain.pending)
                                  + multiset(st.chain.recycled))),
             Ok(()))
  {
    var front := if st.chain.pending.Some? then [st.chain.pending.value] else [];
    assert front + [] == front;
    DestroyOwnedLaw(st.(chain := st.chain.(pending := None)), front, OptionOwned(st.chain.pending));
  }

  // ----- when destroying a chain succeeds

  predicate AllOwn(surfaces: seq<Surface>, contextId: nat) {
    forall i :: 0 <= i < |surfaces| ==> surfaces[i].contextId == contextId
  }

  predicate Own(s: Option<Surface>, contextId: nat) {
    s.Some? ==> s.value.contextId == contextId
  }

  /** The surface that a destroy takes from the back buffer, if any. */
  function Reclaimed(st: St): Option<Surface> {
    match st.chain.back
    case Detached(s) => Some(s)
    case Attached => if st.ctx.framebuffer.Bound? then Some(st.ctx.framebuffer.surface) else None
    case _ => None
  }

  /** What a caller can check before destroying a chain. */
  predicate Destroyable(st: St) {
    && st.Valid()
    && !(st.chain.back.Attached? && st.ctx.framebuffer.NoFramebuffer?)
    && Own(st.chain.pending, st.ctx.id)
    && Own(Reclaimed(st), st.ctx.id)
    && AllOwn(st.chain.recycled, st.ctx.id)
  }

  lemma {:induction false} DestroyAllOkIff(dev: Dev, contextId: nat, surfaces: seq<Surface>)
    ensures DestroyAll(dev, contextId, surfaces).1 == Ok(()) <==> AllOwn(surfaces, contextId)
    decreases |surfaces|
  {
    if surfaces != [] && surfaces[0].contextId == contextId {
      DestroyAllOkIff(dev.Destroy(surfaces[0]), contextId, surfaces[1..]);
      assert surfaces == [surfaces[0]] + surfaces[1..];
      assert forall i :: 0 < i < |surfaces| ==> surfaces[i] == surfaces[1..][i - 1];
    }
  }

  /** Exactly when destroying a chain returns `Ok`, from any state. */
  lemma DestroyOkIff(st: St)
    ensures Destroy(st).1 == Ok(()) <==> Destroyable(st)
  {
    if st.Valid() {
      var front := if st.chain.pending.Some? then [st.chain.pending.value] else [];
      var (taken, back) := TakeBack(st.(chain := st.chain.(pending := None)));
      var middle := if back.Ok? then [back.value] else [];
      DestroyAllOkIff(taken.dev, taken.ctx.id, front + middle + taken.chain.recycled);
      AllOwnParts(front, middle, taken.chain.recycled, st.ctx.id);
    }
  }

  lemma AllOwnParts(a: seq<Surface>, b: seq<Surface>, c: seq<Surface>, contextId: nat)
    ensures AllOwn(a + b + c, contextId) <==> AllOwn(a, contextId) && AllOwn(b, contextId) && AllOwn(c, contextId)
  {
    var all := a + b + c;
    assert forall i :: 0 <= i < |a| ==> all[i] == a[i];
    assert forall i :: 0 <= i < |b| ==> all[|a| + i] == b[i];
    assert forall i :: 0 <= i < |c| ==> all[|a| + |b| + i] == c[i];
  }

  /** A second destroy right after the first changes nothing. */
  lemma DestroyTwice(st: St)
    requires Ready(st)
    ensures var after := Destroy(st).0; Destroy(after) == (after, Ok(()))
  {
    DestroyLaw(st);
    DestroyAgainLaw(Destroy(st).0);
  }

  /** Two chains of one context, of which at most one is attached. */
  ghost predicate ReadyPair(self: Chain, other: Chain, ctx: Ctx, dev: Dev) {
    && Ready(St(self, ctx, dev))
    && Ready(St(other, ctx, dev))
    && !(self.back.Attached? && other.back.Attached?)
  }

  /** Both chains keep their back buffers, and the attachment changes hands if one of them has it.
      The call succeeds even when `self` is the attached chain or `other` a detached one. */
  lemma TakeAttachmentLaw(self: Chain, other: Chain, ctx: Ctx, dev: Dev)
    requires ReadyPair(self, other, ctx, dev)
    ensures var mine, theirs := Back(self, ctx), Back(other, ctx);
            TakeAttachment(self, other, ctx, dev)
            == Pair(self.(back := if other.back.Attached? then Attached else Detached(mine)),
                    other.(back := if self.back.Attached? then Attached else Detached(theirs)),
                    if other.back.Attached? then ctx.(framebuffer := Bound(mine))
                    else if self.back.Attached? then ctx.(framebuffer := Bound(theirs)) else ctx,
                    dev, Ok(()))
  {
  }

  /** Repeating the call with the chains exchanged restores everything. */
  lemma TakeAttachmentInverse(self: Chain, other: Chain, ctx: Ctx, dev: Dev)
    requires ReadyPair(self, other, ctx, dev)
    ensures var p := TakeAttachment(self, other, ctx, dev);
            var q := TakeAttachment(p.other, p.self, p.ctx, p.dev);
            && q.self == other && q.other == self && q.ctx == ctx && q.dev == dev && q.result == Ok(())
  {
    TakeAttachmentLaw(self, other, ctx, dev);
    var p := TakeAttachment(self, other, ctx, dev);
    TakeAttachmentLaw(p.other, p.self, p.ctx, p.dev);
  }

  // ----- when calls lose surfaces

  /** Exactly when a swap drops a surface: it found a next back buffer, but the chain's own is taken.
      Nothing is dropped otherwise. */
  lemma SwapBuffersDropsIff(st: St, preserve: bool, creates: bool)
    requires st.Valid() && ChainOk(st.chain) && CtxOk(st.chain, st.ctx)
    ensures SwapBuffers(st, preserve, creates).0.dev.dropped != st.dev.dropped
       <==> st.chain.back.Taken() && CanSwap(st.chain, creates)
  {
    if st.chain.back.Taken() {
      var start := st.(chain := RecyclePending(st.chain));
      var (fetched, next) := Fetch(start, creates);
      if next.Ok? {
        assert TakeBack(fetched) == (fetched, Err(Failed));
        assert (fetched.dev.dropped + multiset{next.value})[next.value] == fetched.dev.dropped[next.value] + 1;
      }
    } else {
      SwapBuffersLaw(st, preserve, creates);
    }
  }

  lemma ResizeDropsIff(st: St, size: Size, creates: bool)
    requires st.Valid() && ChainOk(st.chain) && CtxOk(st.chain, st.ctx)
    ensures Resize(st, size, creates).0.dev.dropped != st.dev.dropped
       <==> st.chain.back.Taken() && size.width >= 1 && size.height >= 1 && creates
  {
    if st.chain.back.Taken() {
      var next := Surface(|st.dev.born|, size, st.ctx.id, Generic);
      assert (st.dev.dropped + multiset{next})[next] == st.dev.dropped[next] + 1;
    } else {
      ResizeLaw(st, size, creates);
    }
  }

  /** Exactly when taking the attachment drops a surface: this chain's back buffer is in place and
      the other chain's is not. */
  lemma TakeAttachmentDropsIff(self: Chain, other: Chain, ctx: Ctx, dev: Dev)
    requires self.contextId == ctx.id && other.contextId == ctx.id && ChainOk(self) && ChainOk(other)
    requires CtxOk(self, ctx) && CtxOk(other, ctx) && !(self.back.Attached? && other.back.Attached?)
    ensures TakeAttachment(self, other, ctx, dev).dev.dropped != dev.dropped
       <==> !self.back.Taken() && other.back.Taken()
  {
    if self.back.Taken() {
    } else if other.back.Taken() {
      var mine := Back(self, ctx);
      assert (dev.dropped + multiset{mine})[mine] == dev.dropped[mine] + 1;
    } else {
      TakeAttachmentLaw(self, other, ctx, dev);
    }
  }
}
