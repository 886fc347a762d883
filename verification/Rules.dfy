/** The rules for callers are exact: from a state in order, a call that breaks its rule leaves a state
    that is not in order, call by call and in terms of what the caller can check before. */
module Rules {
  import opened Surfaces
  import opened DeviceApi
  import S = ChainSpec
  import opened ChainSpec
  import opened ChainLaws
  import opened World
  import opened Discipline

  /** Some chain of context `c` is attached. */
  ghost predicate HasAttached(w: World, c: nat) {
    exists k :: 0 <= k < |w.slots| && w.slots[k].chain.contextId == c && w.slots[k].chain.back.Attached?
  }

  /** The texture of an attached chain of context `c` is due back. */
  ghost predicate AwaitsTexture(w: World, c: nat) {
    exists k :: && 0 <= k < |w.slots| && w.slots[k].chain.contextId == c
                && w.slots[k].chain.back.TakenAttached? && w.slots[k].textures != []
  }

  lemma CreateAttachedIff(w: World, c: nat)
    requires Inv(w) && c < |w.ctxs|
    ensures Inv(Apply(w, Action.CreateAttached(c))) <==> !HasAttached(w, c)
  {
    var w' := Apply(w, Action.CreateAttached(c));
    if !w.ctxs[c].framebuffer.Bound? {
      assert w' == w;
    } else if HasAttached(w, c) {
      var k :| 0 <= k < |w.slots| && w.slots[k].chain.contextId == c && w.slots[k].chain.back.Attached?;
      assert HasAttachment(w'.slots[k]) && HasAttachment(w'.slots[|w.slots|]);
    } else {
      CreateAttachedKeepsInv(w, c);
    }
  }

  /** Client code binds a surface of its own. */
  lemma BindNewIff(w: World, c: nat, size: Size, kind: Kind, creates: bool)
    requires Inv(w) && c < |w.ctxs|
    ensures Inv(Apply(w, BindNew(c, size, kind, creates)))
       <==> !(AwaitsTexture(w, c) && creates && w.ctxs[c].framebuffer.NoFramebuffer?)
  {
    var w' := Apply(w, BindNew(c, size, kind, creates));
    if AwaitsTexture(w, c) {
      var k :| && 0 <= k < |w.slots| && w.slots[k].chain.contextId == c
               && w.slots[k].chain.back.TakenAttached? && w.slots[k].textures != [];
      assert HasAttachment(w.slots[k]) && w'.slots == w.slots;
      assert Linked(w.slots[k], w.ctxs[c]);
      if creates && w.ctxs[c].framebuffer.NoFramebuffer? {
        assert !Linked(w'.slots[k], w'.ctxs[c]);
      } else {
        assert w'.ctxs == w.ctxs;
      }
    } else {
      BindNewKeepsInv(w, c, size, kind, creates);
    }
  }

  /** Client code unbinds the bound surface and destroys it. */
  lemma DestroyBoundIff(w: World, c: nat)
    requires Inv(w) && c < |w.ctxs|
    ensures Inv(Apply(w, Action.DestroyBound(c))) <==> !HasAttached(w, c)
  {
    if HasAttached(w, c) {
      var k :| 0 <= k < |w.slots| && w.slots[k].chain.contextId == c && w.slots[k].chain.back.Attached?;
      assert Linked(w.slots[k], w.ctxs[c]);
      var w' := Apply(w, Action.DestroyBound(c));
      assert !CtxOk(w'.slots[k].chain, w'.ctxs[c]);
    } else {
      DestroyBoundKeepsInv(w, c);
    }
  }

  lemma InOrder(w: World, k: nat)
    requires Inv(w) && k < |w.slots|
    ensures var chain := w.slots[k].chain;
            && chain.contextId < |w.ctxs| && w.ctxs[chain.contextId].id == chain.contextId
            && ChainOk(chain) && CtxOk(chain, w.ctxs[chain.contextId])
  {
    assert SlotOk(w.slots[k]) && Linked(w.slots[k], w.ctxs[w.slots[k].chain.contextId]);
  }

  lemma SwapBuffersIff(w: World, k: nat, c: nat, preserve: bool, creates: bool)
    requires Inv(w) && k < |w.slots| && c < |w.ctxs|
    ensures Inv(Apply(w, Action.SwapBuffers(k, c, preserve, creates)))
       <==> !(c == w.slots[k].chain.contextId && w.slots[k].chain.back.Taken() && CanSwap(w.slots[k].chain, creates))
  {
    InOrder(w, k);
    var st := View(w, k, c);
    if !st.Valid() {
      assert Apply(w, Action.SwapBuffers(k, c, preserve, creates)) == w;
    } else if !st.chain.back.Taken() {
      SwapBuffersKeepsInv(w, k, c, preserve, creates);
    } else {
      SwapBuffersDropsIff(st, preserve, creates);
      if !CanSwap(st.chain, creates) {
        var slot := w.slots[k].(chain := RecyclePending(st.chain));
        assert Apply(w, Action.SwapBuffers(k, c, preserve, creates)) == SetSlot(w, k, slot);
        assert SlotOk(w.slots[k]);
        SlotKeepsInv(w, k, slot);
      }
    }
  }

  lemma ResizeIff(w: World, k: nat, c: nat, size: Size, creates: bool)
    requires Inv(w) && k < |w.slots| && c < |w.ctxs|
    ensures Inv(Apply(w, Action.Resize(k, c, size, creates)))
       <==> !(c == w.slots[k].chain.contextId && w.slots[k].chain.back.Taken()
              && size.width >= 1 && size.height >= 1 && creates)
  {
    InOrder(w, k);
    var st := View(w, k, c);
    if st.Valid() && !st.chain.back.Taken() {
      ResizeKeepsInv(w, k, c, size, creates);
    } else if st.Valid() && size.width >= 1 && size.height >= 1 && creates {
      ResizeDropsIff(st, size, creates);
    } else {
      assert Apply(w, Action.Resize(k, c, size, creates)) == w;
    }
  }

  lemma TakeAttachmentIff(w: World, k: nat, c: nat, j: nat)
    requires Inv(w) && k < |w.slots| && j < |w.slots| && j != k && c < |w.ctxs|
    ensures Inv(Apply(w, Action.TakeAttachment(k, c, j)))
       <==> !(c == w.slots[k].chain.contextId == w.slots[j].chain.contextId
              && !w.slots[k].chain.back.Taken() && w.slots[j].chain.back.Taken())
  {
    InOrder(w, k);
    InOrder(w, j);
    var self, other := w.slots[k].chain, w.slots[j].chain;
    if !(c == self.contextId == other.contextId) || self.back.Taken() {
      assert Apply(w, Action.TakeAttachment(k, c, j)) == w;
    } else if !other.back.Taken() {
      TakeAttachmentKeepsInv(w, k, c, j);
    } else {
      TakeAttachmentDropsIff(self, other, w.ctxs[c], w.dev);
    }
  }

  /** Where the order is kept with nothing bound, the chain still loses its back buffer to the
      context. */
  lemma ClearSurfaceIff(w: World, k: nat, c: nat)
    requires Inv(w) && k < |w.slots| && c < |w.ctxs|
    ensures Inv(Apply(w, Action.ClearSurface(k, c)))
       <==> !(c == w.slots[k].chain.contextId && w.slots[k].chain.back.Detached?
              && (w.ctxs[c].framebuffer.External? || (w.ctxs[c].framebuffer.NoFramebuffer? && AwaitsTexture(w, c))))
  {
    InOrder(w, k);
    var st := View(w, k, c);
    ClearSurfaceLaw(st);
    if !st.Valid() || !st.chain.back.Detached? || st.ctx.framebuffer.Bound? {
      assert Apply(w, Action.ClearSurface(k, c)) == w;
    } else if st.ctx.framebuffer.External? {
      ClearSurfaceDropsIff(st);
    } else {
      ClearSurfaceStrands(st);
      StrandedIff(w, k, c);
    }
  }

  lemma StrandedIff(w: World, k: nat, c: nat)
    requires Inv(w) && k < |w.slots| && c == w.slots[k].chain.contextId
    requires w.slots[k].chain.back.Detached? && w.ctxs[c].framebuffer.NoFramebuffer?
    ensures var st := View(w, k, c);
            var stranded := st.SetBack(TakenDetached).(ctx := st.ctx.(framebuffer := Bound(st.chain.back.surface)));
            Inv(WriteBack(w, k, c, stranded)) <==> !AwaitsTexture(w, c)
  {
    var st := View(w, k, c);
    var stranded := st.SetBack(TakenDetached).(ctx := st.ctx.(framebuffer := Bound(st.chain.back.surface)));
    var w' := WriteBack(w, k, c, stranded);
    assert SlotOk(w.slots[k]);
    if AwaitsTexture(w, c) {
      var j :| && 0 <= j < |w.slots| && w.slots[j].chain.contextId == c
               && w.slots[j].chain.back.TakenAttached? && w.slots[j].textures != [];
      assert w'.slots[j] == w.slots[j] && !Linked(w'.slots[j], w'.ctxs[c]);
    } else {
      forall j | 0 <= j < |w'.slots|
        ensures SlotOk(w'.slots[j]) && Linked(w'.slots[j], w'.ctxs[w'.slots[j].chain.contextId])
      {
        assert SlotOk(w.slots[j]) && Linked(w.slots[j], w.ctxs[w.slots[j].chain.contextId]);
      }
    }
  }

  /** Chain `k` can take back a texture around surface `s` in a call with context `c`: its back buffer
      is out and no texture of its own is due, the surface fits, and for an attached chain the context
      is free and no other chain has the attachment. */
  ghost predicate Fits(w: World, k: nat, c: nat, s: Surface, current: bool)
    requires k < |w.slots| && c < |w.ctxs|
  {
    var slot := w.slots[k];
    && c == slot.chain.contextId && current
    && slot.chain.back.Taken() && slot.textures == []
    && s.contextId == c && s.size == slot.chain.size
    && (slot.chain.back.TakenAttached? ==> w.ctxs[c].framebuffer.NoFramebuffer? && !SomeAttachment(w, c))
  }

  ghost predicate SomeAttachment(w: World, c: nat) {
    exists j :: 0 <= j < |w.slots| && w.slots[j].chain.contextId == c && HasAttachment(w.slots[j])
  }

  /** The texture is no longer anywhere else. */
  lemma ReturnIff(w: World, k: nat, c: nat, s: Surface, current: bool)
    requires Inv(w) && k < |w.slots| && c < |w.ctxs|
    ensures Inv(WriteBack(w, k, c, S.RecycleTexture(View(w, k, c), s, current).0)) <==> Fits(w, k, c, s, current)
  {
    var st := S.RecycleTexture(View(w, k, c), s, current).0;
    var w' := WriteBack(w, k, c, st);
    InOrder(w, k);
    if Fits(w, k, c, s, current) {
      FitsKeepsInv(w, k, c, s);
    } else if st.chain.back == w.slots[k].chain.back {
      assert st.dev.dropped[s] > 0 || st.dev.fallbacks > 0;
    } else if w.slots[k].textures != [] || s.contextId != c || s.size != w.slots[k].chain.size {
      assert !SlotOk(w'.slots[k]) || !Linked(w'.slots[k], w'.ctxs[c]);
    } else {
      var j :| 0 <= j < |w.slots| && w.slots[j].chain.contextId == c && HasAttachment(w.slots[j]);
      assert j != k && w'.slots[j] == w.slots[j];
      assert HasAttachment(w'.slots[j]) && HasAttachment(w'.slots[k]);
    }
  }

  lemma FitsKeepsInv(w: World, k: nat, c: nat, s: Surface)
    requires Inv(w) && k < |w.slots| && c < |w.ctxs| && Fits(w, k, c, s, true)
    ensures Inv(WriteBack(w, k, c, S.RecycleTexture(View(w, k, c), s, true).0))
  {
    var w' := WriteBack(w, k, c, S.RecycleTexture(View(w, k, c), s, true).0);
    forall j | 0 <= j < |w'.slots|
      ensures SlotOk(w'.slots[j]) && Linked(w'.slots[j], w'.ctxs[w'.slots[j].chain.contextId])
    {
      assert SlotOk(w.slots[j]) && Linked(w.slots[j], w.ctxs[w.slots[j].chain.contextId]);
    }
  }

  /** The world without the `i`-th texture of chain `from`. */
  function WithoutTexture(w: World, from: nat, i: nat): World
    requires from < |w.slots| && i < |w.slots[from].textures|
  {
    SetSlot(w, from, w.slots[from].(textures := RemoveAt(w.slots[from].textures, i)))
  }

  lemma WithoutTextureInOrder(w: World, from: nat, i: nat)
    requires Inv(w) && from < |w.slots| && i < |w.slots[from].textures|
    ensures Inv(WithoutTexture(w, from, i))
  {
    var w' := WithoutTexture(w, from, i);
    assert SlotOk(w.slots[from]);
    forall j | 0 <= j < |w'.slots|
      ensures SlotOk(w'.slots[j]) && Linked(w'.slots[j], w'.ctxs[w'.slots[j].chain.contextId])
    {
      assert SlotOk(w.slots[j]) && Linked(w.slots[j], w.ctxs[w.slots[j].chain.contextId]);
    }
  }

  /** A texture that was taken from any chain goes to any chain, in a call with any context. */
  lemma RecycleTextureIff(w: World, k: nat, c: nat, from: nat, i: nat, current: bool)
    requires Inv(w) && InScope(w, Action.RecycleTexture(k, c, from, i, current))
    ensures Inv(Apply(w, Action.RecycleTexture(k, c, from, i, current)))
       <==> Fits(WithoutTexture(w, from, i), k, c, w.slots[from].textures[i], current)
  {
    var before, s := WithoutTexture(w, from, i), w.slots[from].textures[i];
    WithoutTextureInOrder(w, from, i);
    ReturnIff(before, k, c, s, current);
    assert View(before, k, c) == View(w, k, c);
  }

  /** A chain whose own texture has just been handed over has room for it. */
  lemma OwnTextureFits(w: World, k: nat, i: nat)
    requires Inv(w) && k < |w.slots| && i < |w.slots[k].textures|
    ensures var c := w.slots[k].chain.contextId;
            c < |w.ctxs| && Fits(WithoutTexture(w, k, i), k, c, w.slots[k].textures[i], true)
  {
    var c, w' := w.slots[k].chain.contextId, WithoutTexture(w, k, i);
    assert SlotOk(w.slots[k]) && Linked(w.slots[k], w.ctxs[c]);
    assert |w.slots[k].textures| == 1 && w'.slots[k].textures == [];
    if w.slots[k].chain.back.TakenAttached? {
      assert HasAttachment(w.slots[k]);
      forall j | 0 <= j < |w'.slots| && w'.slots[j].chain.contextId == c ensures !HasAttachment(w'.slots[j]) {
        assert j == k || w'.slots[j] == w.slots[j];
      }
    }
  }

  /** To the chain it came from a texture can go back in every call with the producer's context, if
      that can be made current, and in no other call. */
  lemma RecycleOwnTextureIff(w: World, k: nat, c: nat, i: nat, current: bool)
    requires Inv(w) && InScope(w, Action.RecycleTexture(k, c, k, i, current))
    ensures Inv(Apply(w, Action.RecycleTexture(k, c, k, i, current)))
       <==> c == w.slots[k].chain.contextId && current
  {
    RecycleTextureIff(w, k, c, k, i, current);
    OwnTextureFits(w, k, i);
  }

  /** Client code gives chain `k` a surface of its own making. */
  lemma RecycleNewIff(w: World, k: nat, c: nat, size: Size, kind: Kind, creates: bool)
    requires Inv(w) && InScope(w, RecycleNew(k, c, size, kind, creates))
    ensures Inv(Apply(w, RecycleNew(k, c, size, kind, creates))) <==> !creates || c == w.slots[k].chain.contextId
  {
    if creates {
      var (dev, created) := Create(w.dev, w.ctxs[c], size, kind, creates);
      var made := w.(dev := dev);
      var slot := w.slots[k].(chain := S.Recycle(w.slots[k].chain, created.value));
      assert SlotOk(w.slots[k]) && Inv(made);
      if c == w.slots[k].chain.contextId {
        SlotKeepsInv(made, k, slot);
      } else {
        var after := Apply(w, RecycleNew(k, c, size, kind, creates)).slots[k];
        assert after.chain.recycled[|slot.chain.recycled| - 1] == created.value;
        assert !ChainOk(after.chain) && !SlotOk(after);
      }
    }
  }

  /** Client code gives chain `k` a texture around a surface of its own making. */
  lemma RecycleNewTextureIff(w: World, k: nat, c: nat, maker: nat, size: Size, creates: bool, current: bool)
    requires Inv(w) && InScope(w, RecycleNewTexture(k, c, maker, size, creates, current))
    ensures Inv(Apply(w, RecycleNewTexture(k, c, maker, size, creates, current)))
       <==> !creates || Fits(w, k, c, Surface(|w.dev.born|, size, maker, Generic), current)
  {
    if creates {
      var made := w.(dev := Create(w.dev, w.ctxs[maker], size, Generic, true).0);
      assert Inv(made);
      ReturnIff(made, k, c, Surface(|w.dev.born|, size, maker, Generic), current);
    }
  }

  /** A surface goes to chain `k` after it was taken from chain `from`. */
  lemma RecycleIff(w: World, k: nat, from: nat, i: nat)
    requires Inv(w) && InScope(w, Action.Recycle(k, from, i))
    ensures Inv(Apply(w, Action.Recycle(k, from, i)))
       <==> w.slots[k].chain.contextId == w.slots[from].chain.contextId
  {
    var s := w.slots[from].held[i];
    assert SlotOk(w.slots[from]) && SlotOk(w.slots[k]);
    var w' := Apply(w, Action.Recycle(k, from, i));
    if w.slots[k].chain.contextId == s.contextId {
      var slot := w.slots[from].(held := RemoveAt(w.slots[from].held, i));
      SlotKeepsInv(w, from, slot);
      var before := SetSlot(w, from, slot);
      SlotKeepsInv(before, k, before.slots[k].(chain := S.Recycle(w.slots[k].chain, s)));
    } else {
      var recycled := w'.slots[k].chain.recycled;
      assert recycled[|recycled| - 1] == s;
      assert !ChainOk(w'.slots[k].chain);
    }
  }

  // ----- all calls together

  /** What keeps the world in order, in terms of what can be checked before the call. */
  ghost predicate Harmless(w: World, a: Action) {
    InScope(w, a) &&
    match a
    case CreateAttached(c) => !HasAttached(w, c)
    case DestroyBound(c) => !HasAttached(w, c)
    case BindNew(c, _, _, creates) => !(AwaitsTexture(w, c) && creates && w.ctxs[c].framebuffer.NoFramebuffer?)
    case SwapBuffers(k, c, _, creates) =>
      !(c == w.slots[k].chain.contextId && w.slots[k].chain.back.Taken() && CanSwap(w.slots[k].chain, creates))
    case Resize(k, c, size, creates) =>
      !(c == w.slots[k].chain.contextId && w.slots[k].chain.back.Taken()
        && size.width >= 1 && size.height >= 1 && creates)
    case TakeAttachment(k, c, j) =>
      !(c == w.slots[k].chain.contextId == w.slots[j].chain.contextId
        && !w.slots[k].chain.back.Taken() && w.slots[j].chain.back.Taken())
    case ClearSurface(k, c) =>
      !(c == w.slots[k].chain.contextId && w.slots[k].chain.back.Detached?
        && (w.ctxs[c].framebuffer.External? || (w.ctxs[c].framebuffer.NoFramebuffer? && AwaitsTexture(w, c))))
    case RecycleTexture(k, c, from, i, current) =>
      Fits(WithoutTexture(w, from, i), k, c, w.slots[from].textures[i], current)
    case Recycle(k, from, _) => w.slots[k].chain.contextId == w.slots[from].chain.contextId
    case RecycleNew(k, c, _, _, creates) => !creates || c == w.slots[k].chain.contextId
    case RecycleNewTexture(k, c, maker, size, creates, current) =>
      !creates || Fits(w, k, c, Surface(|w.dev.born|, size, maker, Generic), current)
    case _ => true
  }

  /** From a world in order, a call leaves the world in order if and only if it is harmless. */
  lemma HarmlessIff(w: World, a: Action)
    requires Inv(w) && InScope(w, a)
    ensures Inv(Apply(w, a)) <==> Harmless(w, a)
  {
    match a
    case CreateAttached(c) => CreateAttachedIff(w, c);
    case DestroyBound(c) => DestroyBoundIff(w, c);
    case BindNew(c, size, kind, creates) => BindNewIff(w, c, size, kind, creates);
    case SwapBuffers(k, c, preserve, creates) => SwapBuffersIff(w, k, c, preserve, creates);
    case Resize(k, c, size, creates) => ResizeIff(w, k, c, size, creates);
    case TakeAttachment(k, c, j) => TakeAttachmentIff(w, k, c, j);
    case ClearSurface(k, c) => ClearSurfaceIff(w, k, c);
    case RecycleTexture(k, c, from, i, current) => RecycleTextureIff(w, k, c, from, i, current);
    case Recycle(k, from, i) => RecycleIff(w, k, from, i);
    case RecycleNew(k, c, size, kind, creates) => RecycleNewIff(w, k, c, size, kind, creates);
    case RecycleNewTexture(k, c, maker, size, creates, current) =>
      RecycleNewTextureIff(w, k, c, maker, size, creates, current);
    case _ => ApplyKeepsInv(w, a);
  }

  predicate InScopeRun(actions: seq<Action>) {
    actions == [] ||
    var before := actions[..|actions| - 1];
    InScopeRun(before) && InScope(After(before), actions[|actions| - 1])
  }

  ghost predicate HarmlessRun(actions: seq<Action>) {
    actions == [] ||
    var before := actions[..|actions| - 1];
    HarmlessRun(before) && Harmless(After(before), actions[|actions| - 1])
  }

  ghost predicate AlwaysInOrder(actions: seq<Action>) {
    Inv(After(actions)) && (actions != [] ==> AlwaysInOrder(actions[..|actions| - 1]))
  }

  /** A run is in order all the time if and only if all its calls are harmless. */
  lemma {:induction false} AlwaysInOrderIff(actions: seq<Action>)
    requires InScopeRun(actions)
    ensures AlwaysInOrder(actions) <==> HarmlessRun(actions)
  {
    if actions != [] {
      var before := actions[..|actions| - 1];
      AlwaysInOrderIff(before);
      if AlwaysInOrder(before) {
        HarmlessIff(After(before), actions[|actions| - 1]);
      }
    }
  }

  /** The rules for callers imply this. */
  lemma LegalIsHarmless(w: World, a: Action)
    requires Inv(w) && Legal(w, a)
    ensures Harmless(w, a)
  {
    ApplyKeepsInv(w, a);
    HarmlessIff(w, a);
  }
}
