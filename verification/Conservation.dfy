/** Linear ownership inside one call: whatever the arguments, and on every error and panic path, a
    call neither duplicates nor loses a surface. Every surface that a call can reach is afterwards in
    the chain, bound, in the caller's hands, destroyed, or on record as dropped.

    Ownership is counted one surface `x` at a time. */
module Conservation {
  import opened Surfaces
  import opened DeviceApi
  import opened ChainSpec

  function One(s: Surface, x: Surface): nat {
    if s == x then 1 else 0
  }

  function InOption(o: Option<Surface>, x: Surface): nat {
    if o.Some? then One(o.value, x) else 0
  }

  function InSeq(s: seq<Surface>, x: Surface): nat {
    multiset(s)[x]
  }

  function InBack(back: BackBuffer, x: Surface): nat {
    if back.Detached? then One(back.surface, x) else 0
  }

  function InChain(chain: Chain, x: Surface): nat {
    InBack(chain.back, x) + InOption(chain.pending, x) + InSeq(chain.recycled, x)
  }

  function InCtx(ctx: Ctx, x: Surface): nat {
    if ctx.framebuffer.Bound? then One(ctx.framebuffer.surface, x) else 0
  }

  /** How often `x` was destroyed or dropped. */
  function InDev(dev: Dev, x: Surface): nat {
    dev.destroyed[x] + dev.dropped[x]
  }

  /** How often `x` occurs anywhere within reach of a call. */
  function In(st: St, x: Surface): nat {
    InChain(st.chain, x) + InCtx(st.ctx, x) + InDev(st.dev, x)
  }

  function InOutcome(r: Outcome<Surface>, x: Surface): nat {
    if r.Ok? then One(r.value, x) else 0
  }

  /** `b` has all surfaces of `a` and possibly new ones, whose serial numbers continue those of `a`. */
  ghost predicate Extends(a: Dev, b: Dev) {
    && |a.born| <= |b.born|
    && a.born == b.born[..|a.born|]
    && forall i :: |a.born| <= i < |b.born| ==> b.born[i].id == i
  }

  /** The number of times `x` was created between `a` and `b`. */
  function Created(a: Dev, b: Dev, x: Surface): int {
    InSeq(b.born, x) - InSeq(a.born, x)
  }

  lemma DestroyOrDropConserves(dev: Dev, id: nat, s: Surface, x: Surface)
    ensures InDev(dev.DestroyOrDrop(id, s), x) == InDev(dev, x) + One(s, x)
  {
  }

  lemma DropConserves(st: St, s: Surface, x: Surface)
    ensures In(st.Drop(multiset{s}), x) == In(st, x) + One(s, x)
  {
  }

  lemma AppendCount(s: seq<Surface>, t: seq<Surface>, x: Surface)
    ensures InSeq(s + t, x) == InSeq(s, x) + InSeq(t, x)
  {
  }

  lemma TakeBackConserves(st: St, x: Surface)
    ensures var (after, r) := TakeBack(st);
            && after.dev == st.dev
            && In(after, x) + InOutcome(r, x) == In(st, x)
  {
  }

  lemma ReplaceBackConserves(st: St, s: Surface, x: Surface)
    ensures var after := ReplaceBack(st, s).0;
            && after.dev.born == st.dev.born
            && In(after, x) == In(st, x) + One(s, x)
  {
    match st.chain.back
    case TakenAttached => DestroyOrDropConserves(st.dev, st.ctx.id, s, x);
    case TakenDetached =>
    case _ => DropConserves(st, s, x);
  }

  lemma {:induction false} DestroyAllConserves(dev: Dev, contextId: nat, surfaces: seq<Surface>, x: Surface)
    ensures var after := DestroyAll(dev, contextId, surfaces).0;
            && after.born == dev.born
            && InDev(after, x) == InDev(dev, x) + InSeq(surfaces, x)
    decreases |surfaces|
  {
    if surfaces != [] {
      assert surfaces == [surfaces[0]] + surfaces[1..];
      AppendCount([surfaces[0]], surfaces[1..], x);
      if surfaces[0].contextId == contextId {
        DestroyAllConserves(dev.Destroy(surfaces[0]), contextId, surfaces[1..], x);
      }
    }
  }

  lemma CreateConserves(dev: Dev, ctx: Ctx, size: Size, kind: Kind, creates: bool, x: Surface)
    ensures var (after, r) := Create(dev, ctx, size, kind, creates);
            && Extends(dev, after)
            && InDev(after, x) == InDev(dev, x)
            && Created(dev, after, x) == InOutcome(r, x)
  {
    var s := Surface(|dev.born|, size, ctx.id, kind);
    AppendCount(dev.born, [s], x);
  }

  lemma FetchConserves(st: St, creates: bool, x: Surface)
    ensures var (after, r) := Fetch(st, creates);
            && Extends(st.dev, after.dev)
            && after.chain.pending == st.chain.pending
            && In(after, x) + InOutcome(r, x) == In(st, x) + Created(st.dev, after.dev, x)
  {
    CreateConserves(st.dev, st.ctx, st.chain.size, Generic, creates, x);
    var i := FirstOfSize(st.chain.recycled, st.chain.size);
    if i < |st.chain.recycled| {
      assert (multiset(SwapRemove(st.chain.recycled, i)) + multiset{st.chain.recycled[i]})[x] == InSeq(st.chain.recycled, x);
    }
  }

  lemma RecyclePendingConserves(chain: Chain, x: Surface)
    ensures RecyclePending(chain).pending.None?
    ensures InChain(RecyclePending(chain), x) == InChain(chain, x)
  {
    if chain.pending.Some? {
      AppendCount(chain.recycled, [chain.pending.value], x);
    }
  }

  lemma RenewBackConserves(st: St, back: Surface, x: Surface)
    ensures var (after, r) := RenewBack(st, back);
            && after.dev.born == st.dev.born
            && after.chain.pending == st.chain.pending
            && In(after, x) + InOutcome(r, x) == In(st, x) + One(back, x)
  {
    TakeBackConserves(st, x);
    var (taken, previous) := TakeBack(st);
    if previous.Ok? {
      ReplaceBackConserves(taken, back, x);
      DropConserves(ReplaceBack(taken, back).0, previous.value, x);
    } else {
      DropConserves(taken, back, x);
    }
  }

  lemma SwapBuffersConserves(st: St, preserve: bool, creates: bool, x: Surface)
    ensures var after := SwapBuffers(st, preserve, creates).0;
            && Extends(st.dev, after.dev)
            && In(after, x) == In(st, x) + Created(st.dev, after.dev, x)
  {
    if st.Valid() {
      RecyclePendingConserves(st.chain, x);
      var start := st.(chain := RecyclePending(st.chain));
      FetchConserves(start, creates, x);
      var (fetched, next) := Fetch(start, creates);
      if next.Ok? {
        SwapInConserves(fetched, next.value, preserve, x);
      }
    }
  }

  lemma SwapInConserves(st: St, back: Surface, preserve: bool, x: Surface)
    requires st.chain.pending.None?
    ensures var after := SwapIn(st, back, preserve).0;
            && after.dev.born == st.dev.born
            && In(after, x) == In(st, x) + One(back, x)
  {
    RenewBackConserves(st, back, x);
    var (renewed, front) := RenewBack(st, back);
    if front.Ok? {
      PresentConserves(renewed, front.value, back, preserve, x);
    }
  }

  lemma PresentConserves(st: St, shown: Surface, back: Surface, preserve: bool, x: Surface)
    requires st.chain.pending.None?
    ensures var after := Present(st, shown, back, preserve);
            && after.dev.born == st.dev.born
            && In(after, x) == In(st, x) + One(shown, x)
  {
  }

  lemma ResizeConserves(st: St, size: Size, creates: bool, x: Surface)
    ensures var after := Resize(st, size, creates).0;
            && Extends(st.dev, after.dev)
            && In(after, x) == In(st, x) + Created(st.dev, after.dev, x)
  {
    if st.Valid() && size.width >= 1 && size.height >= 1 && creates {
      CreateConserves(st.dev, st.ctx, size, Generic, creates, x);
      var (dev, next) := Create(st.dev, st.ctx, size, Generic, creates);
      RenewBackConserves(st.(dev := dev), next.value, x);
      var (renewed, previous) := RenewBack(st.(dev := dev), next.value);
      if previous.Ok? {
        DiscardOldConserves(renewed, previous.value, size, x);
      }
    }
  }

  lemma DiscardOldConserves(st: St, oldBack: Surface, size: Size, x: Surface)
    ensures var after := DiscardOld(st, oldBack, size).0;
            && after.dev.born == st.dev.born
            && In(after, x) == In(st, x) + One(oldBack, x)
  {
    DestroyAllConserves(st.dev.Destroy(oldBack), st.ctx.id, st.chain.recycled, x);
  }

  lemma TakeTextureConserves(st: St, current: bool, x: Surface)
    ensures var (after, r) := TakeTexture(st, current);
            && after.dev.born == st.dev.born
            && In(after, x) + InOutcome(r, x) == In(st, x)
  {
    if st.Valid() {
      TakeBackConserves(st, x);
      var (taken, back) := TakeBack(st);
      if back.Ok? {
        ReplaceBackConserves(taken, back.value, x);
      }
    }
  }

  lemma RecycleTextureConserves(st: St, s: Surface, current: bool, x: Surface)
    ensures var after := RecycleTexture(st, s, current).0;
            && after.dev.born == st.dev.born
            && In(after, x) == In(st, x) + One(s, x)
  {
    ReplaceBackConserves(st, s, x);
  }

  lemma EnterClearConserves(st: St, x: Surface)
    ensures var (after, r) := EnterClear(st);
            && after.dev.born == st.dev.born
            && In(after, x) + (if r.Ok? then InOption(r.value, x) else 0) == In(st, x)
  {
    if !st.chain.back.IsAttached() {
      TakeBackConserves(st, x);
      var (taken, back) := TakeBack(st);
      var (ctx, unbound) := UnbindSurface(taken.ctx);
      if back.Ok? && unbound.Ok? {
        DestroyOrDropConserves(taken.dev, ctx.id, back.value, x);
        if unbound.value.Some? {
          DestroyOrDropConserves(taken.dev.DestroyOrDrop(ctx.id, back.value), ctx.id, unbound.value.value, x);
        }
      }
    }
  }

  lemma LeaveClearConserves(st: St, reattach: Option<Surface>, x: Surface)
    ensures var after := LeaveClear(st, reattach).0;
            && after.dev.born == st.dev.born
            && In(after, x) == In(st, x) + InOption(reattach, x)
  {
    if reattach.Some? {
      DropConserves(st, reattach.value, x);
      var (ctx, unbound) := UnbindSurface(st.ctx);
      if unbound.Ok? && unbound.value.Some? {
        var (ctx', bound) := BindSurface(ctx, reattach.value);
        ReplaceBackConserves(st.(ctx := ctx'), unbound.value.value, x);
        DestroyOrDropConserves(st.dev, ctx.id, reattach.value, x);
        DestroyOrDropConserves(st.dev.DestroyOrDrop(ctx.id, reattach.value), ctx.id, unbound.value.value, x);
      }
    }
  }

  lemma ClearSurfaceConserves(st: St, x: Surface)
    ensures var after := ClearSurface(st).0;
            && after.dev.born == st.dev.born
            && In(after, x) == In(st, x)
  {
    if st.Valid() {
      EnterClearConserves(st, x);
      var (entered, r) := EnterClear(st);
      if r.Ok? {
        LeaveClearConserves(entered, r.value, x);
      }
    }
  }

  lemma DestroyConserves(st: St, x: Surface)
    ensures var after := Destroy(st).0;
            && after.dev.born == st.dev.born
            && In(after, x) == In(st, x)
  {
    if st.Valid() {
      var start := st.(chain := st.chain.(pending := None));
      TakeBackConserves(start, x);
      var (taken, back) := TakeBack(start);
      var front := if st.chain.pending.Some? then [st.chain.pending.value] else [];
      assert In(start, x) + InSeq(front, x) == In(st, x);
      if back.Panic? {
        assert In(taken.Drop(multiset(front)), x) == In(taken, x) + InSeq(front, x);
      } else {
        var middle := if back.Ok? then [back.value] else [];
        AppendCount(front, middle, x);
        DestroyOwnedConserves(taken, front + middle, x);
      }
    }
  }

  lemma DestroyOwnedConserves(st: St, surfaces: seq<Surface>, x: Surface)
    ensures var after := DestroyOwned(st, surfaces).0;
            && after.dev.born == st.dev.born
            && In(after, x) == In(st, x) + InSeq(surfaces, x)
  {
    AppendCount(surfaces, st.chain.recycled, x);
    DestroyAllConserves(st.dev, st.ctx.id, surfaces + st.chain.recycled, x);
  }

  lemma TakeAttachmentConserves(self: Chain, other: Chain, ctx: Ctx, dev: Dev, x: Surface)
    ensures var p := TakeAttachment(self, other, ctx, dev);
            && p.dev.born == dev.born
            && InChain(p.self, x) + InChain(p.other, x) + InCtx(p.ctx, x) + InDev(p.dev, x)
            == InChain(self, x) + InChain(other, x) + InCtx(ctx, x) + InDev(dev, x)
  {
    if self.contextId == ctx.id && other.contextId == ctx.id {
      TakeBackConserves(St(self, ctx, dev), x);
      var (st, ours) := TakeBack(St(self, ctx, dev));
      TakeBackConserves(St(other, st.ctx, st.dev), x);
      var (st', theirs) := TakeBack(St(other, st.ctx, st.dev));
      if ours.Ok? {
        assert InChain(st.chain, x) + InChain(st'.chain, x) + InCtx(st'.ctx, x) + InDev(dev, x)
               + One(ours.value, x) + InOutcome(theirs, x)
            == InChain(self, x) + InChain(other, x) + InCtx(ctx, x) + InDev(dev, x);
        if theirs.Ok? {
          ExchangeBacksConserves(st.chain, st'.chain, st'.ctx, st'.dev, ours.value, theirs.value, x);
        } else {
          DropConserves(st', ours.value, x);
        }
      }
    }
  }

  lemma ExchangeBacksConserves(
      self: Chain, other: Chain, ctx: Ctx, dev: Dev, mine: Surface, their: Surface, x: Surface)
    requires self.back.Taken() && other.back.Taken()
    ensures var p := ExchangeBacks(self, other, ctx, dev, mine, their);
            && p.dev.born == dev.born
            && InChain(p.self, x) + InChain(p.other, x) + InCtx(p.ctx, x) + InDev(p.dev, x)
            == InChain(self, x) + InChain(other, x) + InCtx(ctx, x) + InDev(dev, x) + One(mine, x) + One(their, x)
  {
    var swapped := other.(back := self.back);
    var start := St(self.(back := other.back), ctx, dev);
    ReplaceBackConserves(start, mine, x);
    var (st, r) := ReplaceBack(start, mine);
    ReplaceBackConserves(St(swapped, st.ctx, st.dev), their, x);
  }
}
