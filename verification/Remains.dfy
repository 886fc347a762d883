/** What every call on a chain leaves behind, from any state at all: the back buffer and what is bound
    to the context, the pending surface and the recycled ones. With the result and the fate of the
    surfaces that are gone, this is all there is to a call. */
module Remains {
  import opened Surfaces
  import opened DeviceApi
  import opened ChainSpec
  import opened ChainLaws
  import opened Outcomes

  /** Where the back buffer is: in the chain or bound to the context. */
  datatype Hold = Hold(back: BackBuffer, framebuffer: Framebuffer<Surface>)

  function HoldOf(st: St): Hold {
    Hold(st.chain.back, st.ctx.framebuffer)
  }

  /** After the back buffer has been taken, or an attempt to take it has failed: an attached chain counts
      as taken even then. */
  function Vacated(h: Hold): Hold {
    match h.back
    case Attached => Hold(TakenAttached, if h.framebuffer.Bound? then NoFramebuffer else h.framebuffer)
    case Detached(_) => h.(back := TakenDetached)
    case _ => h
  }

  /** After a surface has been put back where it was taken from. */
  function Filled(h: Hold, s: Surface): Hold {
    if h.back.IsAttached() then Hold(Attached, Bound(s)) else h.(back := Detached(s))
  }

  /** The call changes nothing but the hold. */
  predicate Holds(st: St, after: St, h: Hold) {
    after.chain == st.chain.(back := h.back) && after.ctx == st.ctx.(framebuffer := h.framebuffer)
  }

  // ----- swap

  function SwapHold(st: St, creates: bool): Hold {
    if SwapAnswer(st, creates) == Ok(()) then Filled(HoldOf(st), Next(st))
    else if !st.Valid() || (!creates && !SomeFit(st.chain)) then HoldOf(st)
    else Vacated(HoldOf(st))
  }

  /** The state of the swap when it goes on with the surface that it found. */
  function Found(st: St, creates: bool): St {
    Fetch(st.(chain := RecyclePending(st.chain)), creates).0
  }

  lemma FoundIs(st: St, creates: bool)
    ensures var found := Found(st, creates);
            && found.chain == st.chain.(pending := None, recycled := found.chain.recycled) && found.ctx == st.ctx
            && (creates || SomeFit(st.chain) ==>
                  forall preserve :: st.Valid() ==>
                    SwapBuffers(st, preserve, creates) == SwapIn(found, Next(st), preserve))
            && (!creates && !SomeFit(st.chain) ==>
                  forall preserve :: st.Valid() ==>
                    SwapBuffers(st, preserve, creates) == (found, Err(SurfaceCreationFailed)))
  {
    FetchIs(st, creates);
  }

  /** The pending surface joins the recycled ones before the call can fail. */
  lemma SwapLeaves(st: St, preserve: bool, creates: bool)
    ensures var after := SwapBuffers(st, preserve, creates).0;
            && Holds(st.(chain := after.chain), after, SwapHold(st, creates))
            && after.chain.size == st.chain.size && after.chain.contextId == st.chain.contextId
            && (!st.Valid() ==> after == st)
            && (st.Valid() ==>
                  after.chain.pending == if SwapAnswer(st, creates) == Ok(()) then Some(Back(st.chain, st.ctx)) else None)
  {
    FoundIs(st, creates);
    if st.Valid() && (creates || SomeFit(st.chain)) {
      SwapInLeaves(Found(st, creates), Next(st), preserve);
      SwapInIs(Found(st, creates), Next(st), preserve);
    }
  }

  lemma SwapInLeaves(st: St, next: Surface, preserve: bool)
    ensures var (after, r) := SwapIn(st, next, preserve);
            && Holds(st.(chain := after.chain), after, if r == Ok(()) then Filled(HoldOf(st), next) else Vacated(HoldOf(st)))
            && after.chain == st.chain.(back := after.chain.back, pending := after.chain.pending)
            && after.chain.pending == if r == Ok(()) then Some(Back(st.chain, st.ctx)) else st.chain.pending
  {
    RenewLeaves(st, next);
    SwapInIs(st, next, preserve);
  }

  lemma RenewLeaves(st: St, next: Surface)
    ensures var (after, r) := RenewBack(st, next);
            && Holds(st, after, if r.Ok? then Filled(HoldOf(st), next) else Vacated(HoldOf(st)))
            && (r.Ok? ==> Answer(st) == Ok(()) && r.value == Back(st.chain, st.ctx))
  {
  }

  // ----- resize

  /** Once the back buffer has been exchanged, it stays so even if a later step fails. */
  lemma ResizeLeaves(st: St, size: Size, creates: bool)
    ensures var (after, r) := Resize(st, size, creates);
            var next := Surface(|st.dev.born|, size, st.ctx.id, Generic);
            if !st.Valid() || size.width < 1 || size.height < 1 || !creates then after == st
            else
              && Holds(st.(chain := after.chain), after,
                       if Answer(st) == Ok(()) then Filled(HoldOf(st), next) else Vacated(HoldOf(st)))
              && after.chain.contextId == st.chain.contextId && after.chain.pending == st.chain.pending
              && after.chain.recycled == (if Answer(st) == Ok(()) && !Foreign(st, Back(st.chain, st.ctx)) then []
                                          else st.chain.recycled)
              && after.dev.born == st.dev.born + [next]
  {
    if st.Valid() && size.width >= 1 && size.height >= 1 && creates {
      var next := Surface(|st.dev.born|, size, st.ctx.id, Generic);
      var created := st.(dev := st.dev.(born := st.dev.born + [next]));
      RenewLeaves(created, next);
      if Answer(st) == Ok(()) {
        RenewIs(created, next);
        DiscardLeaves(WithBack(created, next), Back(st.chain, st.ctx), size);
      } else {
        RenewFails(created, next);
        assert RenewBack(created, next).0.dev.born == created.dev.born;
      }
    }
  }

  lemma DiscardLeaves(st: St, oldBack: Surface, size: Size)
    ensures var (after, r) := DiscardOld(st, oldBack, size);
            && after.ctx == st.ctx && after.dev.born == st.dev.born
            && after.chain == st.chain.(size := after.chain.size, recycled := after.chain.recycled)
            && after.chain.recycled == if Foreign(st, oldBack) then st.chain.recycled else []
  {
    if !Foreign(st, oldBack) {
      DestroyAllKeepsBorn(st.dev.Destroy(oldBack), st.ctx.id, st.chain.recycled);
    }
  }

  lemma {:induction false} DestroyAllKeepsBorn(dev: Dev, id: nat, surfaces: seq<Surface>)
    ensures DestroyAll(dev, id, surfaces).0.born == dev.born
    decreases |surfaces|
  {
    if surfaces != [] && surfaces[0].contextId == id {
      DestroyAllKeepsBorn(dev.Destroy(surfaces[0]), id, surfaces[1..]);
    }
  }

  // ----- textures

  function TakeTextureHold(st: St, current: bool): Hold {
    var h := HoldOf(st);
    if !st.Valid() then h
    else if Answer(st) != Ok(()) || TakeTextureAnswer(st, current) == Ok(()) then Vacated(h)
    else if st.chain.back.Attached? && Foreign(st, Back(st.chain, st.ctx)) then Vacated(h)
    else h
  }

  lemma TakeTextureLeaves(st: St, current: bool)
    ensures Holds(st, TakeTexture(st, current).0, TakeTextureHold(st, current))
  {
  }

  lemma RecycleTextureLeaves(st: St, s: Surface, current: bool)
    ensures var after := RecycleTexture(st, s, current).0;
            Holds(st, after, if RecycleTextureAnswer(st, s, current) == Ok(()) then Filled(HoldOf(st), s) else HoldOf(st))
  {
  }

  // ----- clear

  function ClearHold(st: St): Hold {
    var h := HoldOf(st);
    if !st.Valid() || !st.chain.back.Detached? then h
    else
      var s := st.chain.back.surface;
      match st.ctx.framebuffer
      case External => h.(back := TakenDetached)
      case NoFramebuffer => Hold(TakenDetached, if Foreign(st, s) then NoFramebuffer else Bound(s))
      case Bound(b) => if Foreign(st, s) || Foreign(st, b) then Hold(TakenDetached, NoFramebuffer) else h
  }

  lemma ClearLeaves(st: St)
    ensures Holds(st, ClearSurface(st).0, ClearHold(st))
  {
  }

  // ----- destroy

  lemma DestroyLeaves(st: St)
    ensures var after := Destroy(st).0;
            if !st.Valid() then after == st
            else
              && Holds(st.(chain := after.chain), after, Vacated(HoldOf(st)))
              && after.chain == st.chain.(back := after.chain.back, pending := None, recycled := after.chain.recycled)
              && after.chain.recycled == if Answer(st) == Panic then st.chain.recycled else []
  {
  }

  // ----- attachment

  /** The chain holds this surface, with the attachment of its context or without. */
  function Placed(attached: bool, s: Surface): BackBuffer {
    if attached then Attached else Detached(s)
  }

  /** The states of both back buffers and what is bound, after any exchange: refused, stopped at either
      chain, refused when a surface is put back, or complete. */
  lemma TakeAttachmentLeaves(self: Chain, other: Chain, ctx: Ctx, dev: Dev)
    ensures var p := TakeAttachment(self, other, ctx, dev);
            var freed := if self.back.Attached? then NoFramebuffer else ctx.framebuffer;
            && p.self == self.(back := p.self.back) && p.other == other.(back := p.other.back)
            && p.ctx == ctx.(framebuffer := p.ctx.framebuffer)
            && if self.contextId != ctx.id || other.contextId != ctx.id then
                 p.self == self && p.other == other && p.ctx == ctx
               else if TakeAnswer(self.back, ctx.framebuffer) != Ok(()) then
                 && Hold(p.self.back, p.ctx.framebuffer) == Vacated(Hold(self.back, ctx.framebuffer))
                 && p.other == other
               else if TakeAnswer(other.back, freed) != Ok(()) then
                 && p.self.back == Vacated(Hold(self.back, ctx.framebuffer)).back
                 && Hold(p.other.back, p.ctx.framebuffer) == Vacated(Hold(other.back, freed))
               else
                 var mine, theirs := Back(self, ctx), Back(other, ctx);
                 if other.back.Attached? && mine.contextId != ctx.id then
                   p.self.back == TakenAttached && p.other.back == TakenDetached && p.ctx.framebuffer == NoFramebuffer
                 else if self.back.Attached? && theirs.contextId != ctx.id then
                   p.self.back == Detached(mine) && p.other.back == TakenAttached && p.ctx.framebuffer == NoFramebuffer
                 else
                   && p.self.back == Placed(other.back.Attached?, mine)
                   && p.other.back == Placed(self.back.Attached?, theirs)
                   && p.ctx.framebuffer == if other.back.Attached? then Bound(mine)
                                           else if self.back.Attached? then Bound(theirs) else ctx.framebuffer
  {
  }

  // ----- creation

  /** A chain with nothing to show yet, whose back buffer has its size and can be drawn to. */
  predicate Begun(st: St, attached: bool, back: Surface) {
    && st.Valid() && Answer(st) == Ok(()) && Pool(st.chain) == []
    && st.chain.back.Attached? == attached
    && Back(st.chain, st.ctx) == back && back.size == st.chain.size
  }

  /** An attached chain draws to what is bound, and a detached one to a new surface of the size asked
      for, which the context has made. */
  lemma ChainsBegin(dev: Dev, ctx: Ctx, size: Size, creates: bool)
    ensures ctx.framebuffer.Bound? ==>
              var r := CreateAttached(ctx); r.Ok? && Begun(St(r.value, ctx, dev), true, ctx.framebuffer.surface)
    ensures var (dev', r) := CreateDetached(dev, ctx, size, creates);
            var s := Surface(|dev.born|, size, ctx.id, Generic);
            if creates then r.Ok? && Begun(St(r.value, ctx, dev'), false, s) && dev' == dev.(born := dev.born + [s])
            else r == Err(SurfaceCreationFailed) && dev' == dev
  {
  }
}
