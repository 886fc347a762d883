/** What holds in every run in which callers keep to the rules of swap chains: at most one attached
    chain per context, no call on a chain whose back buffer is out as a texture, and every surface
    returned to the chain it came from. */
module Discipline {
  import opened Surfaces
  import opened DeviceApi
  import S = ChainSpec
  import opened ChainSpec
  import opened ChainLaws
  import opened World

  /** The chain has the attachment of its context: it is attached, or its texture is due back. */
  predicate HasAttachment(slot: Slot) {
    slot.chain.back.Attached? || (slot.chain.back.TakenAttached? && slot.textures != [])
  }

  /** The rules for callers. Calls with a foreign context are allowed where the chain rejects them
      without effect. */
  predicate Legal(w: World, a: Action) {
    InScope(w, a) &&
    match a
    case BindNew(c, _, _, _) =>
      forall k :: 0 <= k < |w.slots| && w.slots[k].chain.contextId == c ==>
        !(w.slots[k].chain.back.TakenAttached? && w.slots[k].textures != [])
    case DestroyBound(c) =>
      forall k :: 0 <= k < |w.slots| && w.slots[k].chain.contextId == c ==> !w.slots[k].chain.back.Attached?
    case CreateAttached(c) =>
      && w.ctxs[c].framebuffer.Bound?
      && forall k :: 0 <= k < |w.slots| && w.slots[k].chain.contextId == c ==> !w.slots[k].chain.back.Attached?
    case SwapBuffers(k, c, _, _) => Untaken(w, k, c)
    case Resize(k, c, _, _) => Untaken(w, k, c)
    case TakeAttachment(k, c, j) => Untaken(w, k, c) && Untaken(w, j, c)
    case RecycleTexture(k, c, from, _, current) =>
      from == k && c == w.slots[k].chain.contextId && current
    case ClearSurface(k, c) =>
      Untaken(w, k, c) && (c == w.slots[k].chain.contextId ==> w.ctxs[c].framebuffer.Bound?)
    case Recycle(k, from, _) => from == k
    case RecycleNew(_, _, _, _, creates) => !creates
    case RecycleNewTexture(_, _, _, _, creates, _) => !creates
    case _ => true
  }

  predicate Untaken(w: World, k: nat, c: nat)
    requires k < |w.slots|
  {
    c == w.slots[k].chain.contextId ==> !w.slots[k].chain.back.Taken()
  }

  ghost predicate SlotOk(slot: Slot) {
    && ChainOk(slot.chain)
    && (forall i :: 0 <= i < |slot.held| ==> slot.held[i].contextId == slot.chain.contextId)
    && (slot.textures != [] ==>
          && |slot.textures| == 1
          && slot.chain.back.Taken()
          && slot.textures[0].contextId == slot.chain.contextId
          && slot.textures[0].size == slot.chain.size)
  }

  /** A context with an attachment has a bound surface iff the chain with the attachment is attached. */
  ghost predicate Linked(slot: Slot, ctx: Ctx) {
    && CtxOk(slot.chain, ctx)
    && (HasAttachment(slot) && ctx.framebuffer.Bound? ==> slot.chain.back.Attached?)
    && (HasAttachment(slot) ==> !ctx.framebuffer.External?)
  }

  ghost predicate Clean(dev: Dev) {
    && dev.dropped == multiset{}
    && dev.fallbacks == 0
    && forall i :: 0 <= i < |dev.blits| ==> dev.blits[i].source.size == dev.blits[i].target.size
  }

  ghost predicate CtxsOk(ctxs: seq<Ctx>) {
    forall c :: 0 <= c < |ctxs| ==>
      && ctxs[c].id == c
      && (ctxs[c].framebuffer.Bound? ==> ctxs[c].framebuffer.surface.contextId == c)
  }

  ghost predicate SlotsOk(w: World) {
    forall k :: 0 <= k < |w.slots| ==>
      && SlotOk(w.slots[k])
      && w.slots[k].chain.contextId < |w.ctxs|
      && Linked(w.slots[k], w.ctxs[w.slots[k].chain.contextId])
  }

  /** A context's attachment is with at most one chain. */
  ghost predicate OneAttachment(slots: seq<Slot>) {
    forall k, j ::
      (&& 0 <= k < |slots| && HasAttachment(slots[k])
       && 0 <= j < |slots| && HasAttachment(slots[j])
       && slots[k].chain.contextId == slots[j].chain.contextId)
      ==> k == j
  }

  ghost predicate Inv(w: World) {
    CtxsOk(w.ctxs) && SlotsOk(w) && OneAttachment(w.slots) && Clean(w.dev)
  }

  // ----- one call on one chain

  /** Both ends of a call that leaves the attachment where it is. */
  ghost predicate Settled(before: St, after: St) {
    && after.chain.contextId == before.chain.contextId
    && after.ctx.id == before.ctx.id
    && ChainOk(after.chain)
    && !after.chain.back.Taken()
    && after.chain.back.Attached? == before.chain.back.Attached?
    && CtxOk(after.chain, after.ctx)
    && (!before.chain.back.Attached? ==> after.ctx == before.ctx)
    && Clean(after.dev)
  }

  lemma ReadyInWorld(w: World, k: nat, c: nat)
    requires Inv(w) && k < |w.slots| && c == w.slots[k].chain.contextId
    requires !w.slots[k].chain.back.Taken()
    ensures Ready(View(w, k, c))
  {
  }

  lemma SettledKeepsInv(w: World, k: nat, c: nat, st: St)
    requires Inv(w) && k < |w.slots| && c == w.slots[k].chain.contextId
    requires !w.slots[k].chain.back.Taken() && Settled(View(w, k, c), st)
    ensures Inv(WriteBack(w, k, c, st))
  {
  }

  /** Putting a surface of the chain's size in place of the back buffer. */
  lemma WithBackSettles(before: St, st: St, next: Surface)
    requires Ready(before) && st.ctx == before.ctx && Clean(st.dev) && ChainOk(st.chain.(back := TakenDetached))
    requires st.chain.contextId == before.chain.contextId && st.chain.back == before.chain.back
    requires next.contextId == st.ctx.id && next.size == st.chain.size
    ensures Settled(before, WithBack(st, next))
  {
  }

  lemma NextBackKeepsOrder(st: St)
    requires Ready(st) && Clean(st.dev)
    ensures var (next, rest, dev) := NextBack(st);
            ChainOk(st.chain.(recycled := rest)) && Clean(dev)
  {
    SwapRemoveKeeps(RecyclePending(st.chain));
  }

  lemma SwapBuffersSettles(st: St, preserve: bool, creates: bool)
    requires Ready(st) && Clean(st.dev)
    ensures Settled(st, S.SwapBuffers(st, preserve, creates).0)
  {
    SwapBuffersLaw(st, preserve, creates);
    if CanSwap(st.chain, creates) {
      NextBackKeepsOrder(st);
      var (next, rest, dev) := NextBack(st);
      var shown := Back(st.chain, st.ctx);
      var dev' := if preserve then dev.(blits := dev.blits + [Blit(shown, next)]) else dev;
      WithBackSettles(st, St(st.chain.(pending := Some(shown), recycled := rest), st.ctx, dev'), next);
    }
  }

  lemma ResizeSettles(st: St, size: Size, creates: bool)
    requires Ready(st) && Clean(st.dev)
    ensures Settled(st, S.Resize(st, size, creates).0)
  {
    ResizeLaw(st, size, creates);
  }

  lemma SwapBuffersKeepsInv(w: World, k: nat, c: nat, preserve: bool, creates: bool)
    requires Inv(w) && Legal(w, Action.SwapBuffers(k, c, preserve, creates))
    ensures Inv(Apply(w, Action.SwapBuffers(k, c, preserve, creates)))
  {
    var st := View(w, k, c);
    if st.Valid() {
      ReadyInWorld(w, k, c);
      SwapBuffersSettles(st, preserve, creates);
      SettledKeepsInv(w, k, c, S.SwapBuffers(st, preserve, creates).0);
    } else {
      assert WriteBack(w, k, c, st) == w;
    }
  }

  lemma ResizeKeepsInv(w: World, k: nat, c: nat, size: Size, creates: bool)
    requires Inv(w) && Legal(w, Action.Resize(k, c, size, creates))
    ensures Inv(Apply(w, Action.Resize(k, c, size, creates)))
  {
    var st := View(w, k, c);
    if st.Valid() {
      ReadyInWorld(w, k, c);
      ResizeSettles(st, size, creates);
      SettledKeepsInv(w, k, c, S.Resize(st, size, creates).0);
    } else {
      assert WriteBack(w, k, c, st) == w;
    }
  }

  /** A legal clear leaves every surface where it was. */
  lemma ClearSurfaceKeepsWorld(w: World, k: nat, c: nat)
    requires Inv(w) && Legal(w, Action.ClearSurface(k, c))
    ensures Apply(w, Action.ClearSurface(k, c)) == w
  {
    var st := View(w, k, c);
    if st.Valid() {
      ReadyInWorld(w, k, c);
      ClearSurfaceLaw(st);
    }
    assert WriteBack(w, k, c, st) == w;
  }

  lemma DestroyKeepsInv(w: World, k: nat, c: nat)
    requires Inv(w) && Legal(w, Action.Destroy(k, c))
    ensures Inv(Apply(w, Action.Destroy(k, c)))
  {
    var st := View(w, k, c);
    if !st.Valid() {
      assert WriteBack(w, k, c, st) == w;
    } else if st.chain.back.Taken() {
      DestroyAgainLaw(st);
      VacatedKeepsInv(w, k, c, S.Destroy(st).0);
    } else {
      ReadyInWorld(w, k, c);
      DestroyLaw(st);
      VacatedKeepsInv(w, k, c, S.Destroy(st).0);
    }
  }

  /** The chain has been emptied, and unbound if it was attached. */
  lemma VacatedKeepsInv(w: World, k: nat, c: nat, st: St)
    requires Inv(w) && k < |w.slots| && c == w.slots[k].chain.contextId
    requires var chain := w.slots[k].chain;
             && st.chain.contextId == c && st.chain.size == chain.size
             && st.chain.pending.None? && st.chain.recycled == []
             && st.chain.back.Taken() && (chain.back.Taken() ==> st.chain.back == chain.back)
             && st.ctx == (if chain.back.Attached? then Ctx(c, NoFramebuffer) else w.ctxs[c])
             && Clean(st.dev)
    ensures Inv(WriteBack(w, k, c, st))
  {
    var w' := WriteBack(w, k, c, st);
    forall j | 0 <= j < |w'.slots|
      ensures SlotOk(w'.slots[j]) && Linked(w'.slots[j], w'.ctxs[w'.slots[j].chain.contextId])
    {
    }
  }

  /** The back buffer of chain `k` is out as a texture. */
  lemma LentKeepsInv(w: World, k: nat, c: nat)
    requires Inv(w) && k < |w.slots| && c == w.slots[k].chain.contextId && Ready(View(w, k, c))
    ensures var st := View(w, k, c);
            var slot := w.slots[k].(chain := Lent(st).chain, textures := [Back(st.chain, st.ctx)]);
            Inv(World(w.slots[k := slot], w.ctxs[c := Lent(st).ctx], w.dev))
  {
    var st := View(w, k, c);
    var slot := w.slots[k].(chain := Lent(st).chain, textures := [Back(st.chain, st.ctx)]);
    var w' := World(w.slots[k := slot], w.ctxs[c := Lent(st).ctx], w.dev);
    assert SlotOk(w.slots[k]);
    forall j | 0 <= j < |w'.slots|
      ensures SlotOk(w'.slots[j]) && Linked(w'.slots[j], w'.ctxs[w'.slots[j].chain.contextId])
    {
      assert SlotOk(w.slots[j]) && Linked(w.slots[j], w.ctxs[w.slots[j].chain.contextId]);
    }
  }

  lemma TakeTextureKeepsInv(w: World, k: nat, c: nat, current: bool)
    requires Inv(w) && Legal(w, Action.TakeTexture(k, c, current))
    ensures Inv(Apply(w, Action.TakeTexture(k, c, current)))
  {
    var st := View(w, k, c);
    var w' := Apply(w, Action.TakeTexture(k, c, current));
    if !st.Valid() || st.chain.back.Taken() {
      assert WriteBack(w, k, c, st) == w;
    } else {
      ReadyInWorld(w, k, c);
      if !current || Back(st.chain, st.ctx).kind == Widget {
        TextureRollback(st, current);
        assert WriteBack(w, k, c, st) == w;
      } else {
        TakeTextureLaw(st);
        LentKeepsInv(w, k, c);
        assert SlotOk(w.slots[k]) && w.slots[k].textures == [];
        assert [] + [Back(st.chain, st.ctx)] == [Back(st.chain, st.ctx)];
        var slot := w.slots[k].(chain := Lent(st).chain, textures := [Back(st.chain, st.ctx)]);
        assert w' == World(w.slots[k := slot], w.ctxs[c := Lent(st).ctx], w.dev);
      }
    }
  }

  /** The one texture of chain `k` has gone back to it. */
  lemma ReturnedKeepsInv(w: World, k: nat, c: nat, chain: Chain, ctx: Ctx)
    requires Inv(w) && k < |w.slots| && c == w.slots[k].chain.contextId && w.slots[k].textures != []
    requires var s, slot := w.slots[k].textures[0], w.slots[k];
             && chain == slot.chain.(back := if slot.chain.back.TakenAttached? then Attached else Detached(s))
             && ctx == if slot.chain.back.TakenAttached? then Ctx(c, Bound(s)) else w.ctxs[c]
    ensures Inv(World(w.slots[k := w.slots[k].(chain := chain, textures := [])], w.ctxs[c := ctx], w.dev))
  {
    var w' := World(w.slots[k := w.slots[k].(chain := chain, textures := [])], w.ctxs[c := ctx], w.dev);
    assert SlotOk(w.slots[k]);
    forall j | 0 <= j < |w'.slots|
      ensures SlotOk(w'.slots[j]) && Linked(w'.slots[j], w'.ctxs[w'.slots[j].chain.contextId])
    {
      assert SlotOk(w.slots[j]) && Linked(w.slots[j], w.ctxs[w.slots[j].chain.contextId]);
    }
  }

  lemma RecycleTextureKeepsInv(w: World, k: nat, c: nat, from: nat, i: nat, current: bool)
    requires Inv(w) && Legal(w, Action.RecycleTexture(k, c, from, i, current))
    ensures Inv(Apply(w, Action.RecycleTexture(k, c, from, i, current)))
  {
    assert SlotOk(w.slots[k]) && Linked(w.slots[k], w.ctxs[c]);
    var texture := w.slots[k].textures[i];
    var (st, r) := S.RecycleTexture(View(w, k, c), texture, current);
    assert RemoveAt(w.slots[k].textures, i) == [];
    assert r == Ok(()) && st.dev == w.dev;
    ReturnedKeepsInv(w, k, c, st.chain, st.ctx);
    assert Apply(w, Action.RecycleTexture(k, c, from, i, current))
        == World(w.slots[k := w.slots[k].(chain := st.chain, textures := [])], w.ctxs[c := st.ctx], w.dev);
  }

  lemma TakeKeepsInv(w: World, k: nat)
    requires Inv(w) && k < |w.slots|
    ensures Inv(Apply(w, Action.TakeSurface(k)))
    ensures Inv(Apply(w, Action.TakePending(k)))
  {
    var slot := w.slots[k];
    SlotKeepsInv(w, k, TakeFrom(slot, S.TakeSurface(slot.chain)));
    SlotKeepsInv(w, k, TakeFrom(slot, S.TakePending(slot.chain)));
  }

  lemma RecycleKeepsInv(w: World, k: nat, from: nat, i: nat)
    requires Inv(w) && Legal(w, Action.Recycle(k, from, i))
    ensures Inv(Apply(w, Action.Recycle(k, from, i)))
  {
    var slot := w.slots[k];
    var slot' := slot.(held := RemoveAt(slot.held, i), chain := S.Recycle(slot.chain, slot.held[i]));
    assert Apply(w, Action.Recycle(k, from, i)) == SetSlot(w, k, slot');
    SlotKeepsInv(w, k, slot');
  }

  /** What consumers do does not touch the back buffer. */
  lemma SlotKeepsInv(w: World, k: nat, slot: Slot)
    requires Inv(w) && k < |w.slots| && SlotOk(slot)
    requires slot.chain.back == w.slots[k].chain.back && slot.textures == w.slots[k].textures
    requires slot.chain.contextId == w.slots[k].chain.contextId && slot.chain.size == w.slots[k].chain.size
    ensures Inv(SetSlot(w, k, slot))
  {
  }

  lemma TakeAttachmentKeepsInv(w: World, k: nat, c: nat, j: nat)
    requires Inv(w) && Legal(w, Action.TakeAttachment(k, c, j))
    ensures Inv(Apply(w, Action.TakeAttachment(k, c, j)))
  {
    var self, other := w.slots[k].chain, w.slots[j].chain;
    if self.contextId != c || other.contextId != c {
      assert Apply(w, Action.TakeAttachment(k, c, j)) == w;
    } else {
      ReadyInWorld(w, k, c);
      ReadyInWorld(w, j, c);
      TakeAttachmentLaw(self, other, w.ctxs[c], w.dev);
      var p := S.TakeAttachment(self, other, w.ctxs[c], w.dev);
      ExchangeKeepsInv(w, k, j, p.self, p.other, p.ctx);
    }
  }

  /** Two chains of one context have exchanged their attachment states. */
  lemma ExchangeKeepsInv(w: World, k: nat, j: nat, self: Chain, other: Chain, ctx: Ctx)
    requires Inv(w) && k < |w.slots| && j < |w.slots| && j != k
    requires w.slots[k].chain.contextId == w.slots[j].chain.contextId == ctx.id
    requires !w.slots[k].chain.back.Taken() && !w.slots[j].chain.back.Taken()
    requires self == w.slots[k].chain.(back := self.back) && other == w.slots[j].chain.(back := other.back)
    requires !self.back.Taken() && self.back.Attached? == w.slots[j].chain.back.Attached?
    requires !other.back.Taken() && other.back.Attached? == w.slots[k].chain.back.Attached?
    requires ChainOk(self) && ChainOk(other) && CtxOk(self, ctx) && CtxOk(other, ctx)
    requires ctx.framebuffer.Bound? ==> ctx.framebuffer.surface.contextId == ctx.id
    requires !self.back.Attached? && !other.back.Attached? ==> ctx == w.ctxs[ctx.id]
    ensures Inv(WriteBack(SetSlot(w, j, w.slots[j].(chain := other)), k, ctx.id, St(self, ctx, w.dev)))
  {
    var w' := WriteBack(SetSlot(w, j, w.slots[j].(chain := other)), k, ctx.id, St(self, ctx, w.dev));
    forall i | 0 <= i < |w'.slots|
      ensures SlotOk(w'.slots[i]) && Linked(w'.slots[i], w'.ctxs[w'.slots[i].chain.contextId])
    {
      assert SlotOk(w.slots[i]) && Linked(w.slots[i], w.ctxs[w.slots[i].chain.contextId]);
    }
  }

  lemma BindNewKeepsInv(w: World, c: nat, size: Size, kind: Kind, creates: bool)
    requires Inv(w) && Legal(w, BindNew(c, size, kind, creates))
    ensures Inv(Apply(w, BindNew(c, size, kind, creates)))
  {
  }

  lemma DestroyBoundKeepsInv(w: World, c: nat)
    requires Inv(w) && Legal(w, DestroyBound(c))
    ensures Inv(Apply(w, DestroyBound(c)))
  {
  }

  /** A new chain of an existing context. */
  lemma AddSlotKeepsInv(w: World, slot: Slot, dev: Dev)
    requires Inv(w) && SlotOk(slot) && Clean(dev)
    requires slot.chain.contextId < |w.ctxs| && Linked(slot, w.ctxs[slot.chain.contextId])
    requires HasAttachment(slot) ==>
               forall k :: 0 <= k < |w.slots| && w.slots[k].chain.contextId == slot.chain.contextId ==>
                 !HasAttachment(w.slots[k])
    ensures Inv(World(w.slots + [slot], w.ctxs, dev))
  {
    var w' := World(w.slots + [slot], w.ctxs, dev);
    forall j | 0 <= j < |w'.slots|
      ensures SlotOk(w'.slots[j]) && Linked(w'.slots[j], w'.ctxs[w'.slots[j].chain.contextId])
    {
    }
  }

  lemma NewContextKeepsInv(w: World, external: bool)
    requires Inv(w)
    ensures Inv(Apply(w, NewContext(external)))
  {
  }

  lemma CreateAttachedKeepsInv(w: World, c: nat)
    requires Inv(w) && Legal(w, Action.CreateAttached(c))
    ensures Inv(Apply(w, Action.CreateAttached(c)))
  {
    var r := S.CreateAttached(w.ctxs[c]);
    forall k | 0 <= k < |w.slots| && w.slots[k].chain.contextId == c ensures !HasAttachment(w.slots[k]) {
      assert Linked(w.slots[k], w.ctxs[c]);
    }
    AddSlotKeepsInv(w, Slot(r.value, [], []), w.dev);
  }

  lemma CreateDetachedKeepsInv(w: World, c: nat, size: Size, creates: bool)
    requires Inv(w) && c < |w.ctxs|
    ensures Inv(Apply(w, Action.CreateDetached(c, size, creates)))
  {
    var (dev, r) := S.CreateDetached(w.dev, w.ctxs[c], size, creates);
    if r.Ok? {
      AddSlotKeepsInv(w, Slot(r.value, [], []), dev);
    } else {
      assert w.slots + [] == w.slots;
    }
  }

  lemma ApplyKeepsInv(w: World, a: Action)
    requires Inv(w) && Legal(w, a)
    ensures Inv(Apply(w, a))
  {
    match a
    case NewContext(external) => NewContextKeepsInv(w, external);
    case CreateAttached(c) => CreateAttachedKeepsInv(w, c);
    case CreateDetached(c, size, creates) => CreateDetachedKeepsInv(w, c, size, creates);
    case BindNew(c, size, kind, creates) => BindNewKeepsInv(w, c, size, kind, creates);
    case DestroyBound(c) => DestroyBoundKeepsInv(w, c);
    case SwapBuffers(k, c, preserve, creates) => SwapBuffersKeepsInv(w, k, c, preserve, creates);
    case TakeAttachment(k, c, j) => TakeAttachmentKeepsInv(w, k, c, j);
    case Resize(k, c, size, creates) => ResizeKeepsInv(w, k, c, size, creates);
    case TakeTexture(k, c, current) => TakeTextureKeepsInv(w, k, c, current);
    case RecycleTexture(k, c, from, i, current) => RecycleTextureKeepsInv(w, k, c, from, i, current);
    case ClearSurface(k, c) => ClearSurfaceKeepsWorld(w, k, c);
    case Destroy(k, c) => DestroyKeepsInv(w, k, c);
    case TakeSurface(k) => TakeKeepsInv(w, k);
    case TakePending(k) => TakeKeepsInv(w, k);
    case Recycle(k, from, i) => RecycleKeepsInv(w, k, from, i);
    case RecycleNew(_, _, _, _, _) =>
    case RecycleNewTexture(_, _, _, _, _, _) =>
  }

  // ----- every legal run

  predicate LegalRun(actions: seq<Action>) {
    actions == [] ||
    var before := actions[..|actions| - 1];
    LegalRun(before) && Legal(After(before), actions[|actions| - 1])
  }

  /** Every state of every legal run is in order: contexts and chains agree on what is bound, back
      buffers have their chain's size, every blit was between surfaces of one size, and no surface
      was ever dropped or destroyed because it could not be bound. */
  lemma {:induction false} LegalRunKeepsInv(actions: seq<Action>)
    requires LegalRun(actions)
    ensures Inv(After(actions))
  {
    if actions != [] {
      var before := actions[..|actions| - 1];
      LegalRunKeepsInv(before);
      ApplyKeepsInv(After(before), actions[|actions| - 1]);
    }
  }
}
