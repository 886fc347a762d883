/** Many swap chains, producer contexts and consumers over one device. Each action is one locked call
    (or one step of client code), so a sequence of actions is an interleaving of threads. */
module World {
  import opened Surfaces
  import opened DeviceApi
  import S = ChainSpec
  import opened ChainSpec
  import opened Conservation
  import opened Sums

  /** A chain together with the surfaces consumers took from it and the textures its producer took. */
  datatype Slot = Slot(chain: Chain, held: seq<Surface>, textures: seq<Surface>)

  datatype World = World(slots: seq<Slot>, ctxs: seq<Ctx>, dev: Dev)

  /** `k` and `j` index chains, `c` the context passed to the call, and `i` the surfaces held from
      chain `from`. The last two give a chain a surface, or a texture around a surface of context
      `maker`, that client code has made itself. */
  datatype Action =
    | NewContext(external: bool)
    | BindNew(c: nat, size: Size, kind: Kind, creates: bool)
    | DestroyBound(c: nat)
    | CreateAttached(c: nat)
    | CreateDetached(c: nat, size: Size, creates: bool)
    | SwapBuffers(k: nat, c: nat, preserve: bool, creates: bool)
    | TakeAttachment(k: nat, c: nat, j: nat)
    | Resize(k: nat, c: nat, size: Size, creates: bool)
    | TakeTexture(k: nat, c: nat, current: bool)
    | RecycleTexture(k: nat, c: nat, from: nat, i: nat, current: bool)
    | ClearSurface(k: nat, c: nat)
    | Destroy(k: nat, c: nat)
    | TakeSurface(k: nat)
    | TakePending(k: nat)
    | Recycle(k: nat, from: nat, i: nat)
    | RecycleNew(k: nat, c: nat, size: Size, kind: Kind, creates: bool)
    | RecycleNewTexture(k: nat, c: nat, maker: nat, size: Size, creates: bool, current: bool)

  const START := World([], [], Dev([], multiset{}, multiset{}, [], 0))

  predicate HasContext(w: World, a: Action) {
    (a.NewContext? || a.TakeSurface? || a.TakePending? || a.Recycle?) || a.c < |w.ctxs|
  }

  predicate HasChain(w: World, a: Action) {
    a.NewContext? || a.BindNew? || a.DestroyBound? || a.CreateAttached? || a.CreateDetached? || a.k < |w.slots|
  }

  /** All indices are in range. The two chains of a `TakeAttachment` are distinct: a chain's lock is
      not reentrant. */
  predicate InScope(w: World, a: Action) {
    && HasContext(w, a)
    && HasChain(w, a)
    && (a.TakeAttachment? ==> a.j < |w.slots| && a.j != a.k)
    && (a.RecycleTexture? ==> a.from < |w.slots| && a.i < |w.slots[a.from].textures|)
    && (a.Recycle? ==> a.from < |w.slots| && a.i < |w.slots[a.from].held|)
    && (a.RecycleNewTexture? ==> a.maker < |w.ctxs|)
  }

  /** The state that a call on chain `k` with context `c` works on. */
  function View(w: World, k: nat, c: nat): St
    requires k < |w.slots| && c < |w.ctxs|
  {
    St(w.slots[k].chain, w.ctxs[c], w.dev)
  }

  function WriteBack(w: World, k: nat, c: nat, st: St): World
    requires k < |w.slots| && c < |w.ctxs|
  {
    World(w.slots[k := w.slots[k].(chain := st.chain)], w.ctxs[c := st.ctx], st.dev)
  }

  function SetSlot(w: World, k: nat, slot: Slot): World
    requires k < |w.slots|
  {
    w.(slots := w.slots[k := slot])
  }

  function RemoveAt(s: seq<Surface>, i: nat): (r: seq<Surface>)
    requires i < |s|
    ensures multiset(r) + multiset{s[i]} == multiset(s)
  {
    assert s == s[..i] + [s[i]] + s[i + 1..];
    s[..i] + s[i + 1..]
  }

  function TakeFrom(slot: Slot, taken: (Chain, Option<Surface>)): Slot {
    slot.(chain := taken.0, held := slot.held + if taken.1.Some? then [taken.1.value] else [])
  }

  /** The producer keeps the texture that the call returned, if any. */
  function TextureTaken(w: World, k: nat, c: nat, st: St, r: Outcome<Surface>): World
    requires k < |w.slots| && c < |w.ctxs|
  {
    var w' := WriteBack(w, k, c, st);
    if r.Ok? then SetSlot(w', k, w'.slots[k].(textures := w.slots[k].textures + [r.value])) else w'
  }

  function Apply(w: World, a: Action): World
    requires InScope(w, a)
  {
    match a
    case NewContext(external) =>
      w.(ctxs := w.ctxs + [Ctx(|w.ctxs|, if external then External else NoFramebuffer)])
    case BindNew(c, size, kind, creates) =>
      var (dev, created) := Create(w.dev, w.ctxs[c], size, kind, creates);
      if !created.Ok? then w.(dev := dev)
      else
        var (ctx, bound) := BindSurface(w.ctxs[c], created.value);
        w.(ctxs := w.ctxs[c := ctx], dev := if bound.Ok? then dev else dev.Destroy(created.value))
    case DestroyBound(c) =>
      var (ctx, unbound) := UnbindSurface(w.ctxs[c]);
      if unbound.Ok? && unbound.value.Some? then
        w.(ctxs := w.ctxs[c := ctx], dev := w.dev.DestroyOrDrop(ctx.id, unbound.value.value))
      else w
    case CreateAttached(c) =>
      var r := S.CreateAttached(w.ctxs[c]);
      if r.Ok? then w.(slots := w.slots + [Slot(r.value, [], [])]) else w
    case CreateDetached(c, size, creates) =>
      var (dev, r) := S.CreateDetached(w.dev, w.ctxs[c], size, creates);
      w.(slots := w.slots + (if r.Ok? then [Slot(r.value, [], [])] else []), dev := dev)
    case SwapBuffers(k, c, preserve, creates) =>
      WriteBack(w, k, c, S.SwapBuffers(View(w, k, c), preserve, creates).0)
    case TakeAttachment(k, c, j) =>
      var p := S.TakeAttachment(w.slots[k].chain, w.slots[j].chain, w.ctxs[c], w.dev);
      WriteBack(SetSlot(w, j, w.slots[j].(chain := p.other)), k, c, St(p.self, p.ctx, p.dev))
    case Resize(k, c, size, creates) =>
      WriteBack(w, k, c, S.Resize(View(w, k, c), size, creates).0)
    case TakeTexture(k, c, current) =>
      var (st, r) := S.TakeTexture(View(w, k, c), current);
      TextureTaken(w, k, c, st, r)
    case RecycleTexture(k, c, from, i, current) =>
      var w' := SetSlot(w, from, w.slots[from].(textures := RemoveAt(w.slots[from].textures, i)));
      WriteBack(w', k, c, S.RecycleTexture(View(w, k, c), w.slots[from].textures[i], current).0)
    case ClearSurface(k, c) =>
      WriteBack(w, k, c, S.ClearSurface(View(w, k, c)).0)
    case Destroy(k, c) =>
      WriteBack(w, k, c, S.Destroy(View(w, k, c)).0)
    case TakeSurface(k) =>
      SetSlot(w, k, TakeFrom(w.slots[k], S.TakeSurface(w.slots[k].chain)))
    case TakePending(k) =>
      SetSlot(w, k, TakeFrom(w.slots[k], S.TakePending(w.slots[k].chain)))
    case Recycle(k, from, i) =>
      var w' := SetSlot(w, from, w.slots[from].(held := RemoveAt(w.slots[from].held, i)));
      SetSlot(w', k, w'.slots[k].(chain := S.Recycle(w.slots[k].chain, w.slots[from].held[i])))
    case RecycleNew(k, c, size, kind, creates) =>
      var (dev, created) := Create(w.dev, w.ctxs[c], size, kind, creates);
      if !created.Ok? then w.(dev := dev)
      else SetSlot(w.(dev := dev), k, w.slots[k].(chain := S.Recycle(w.slots[k].chain, created.value)))
    case RecycleNewTexture(k, c, maker, size, creates, current) =>
      var (dev, created) := Create(w.dev, w.ctxs[maker], size, Generic, creates);
      if !created.Ok? then w.(dev := dev)
      else
        var made := w.(dev := dev);
        WriteBack(made, k, c, S.RecycleTexture(View(made, k, c), created.value, current).0)
  }

  /** The state after a sequence of actions; one that names something that does not exist is not
      performed. */
  function After(actions: seq<Action>): World {
    if actions == [] then START
    else
      var w := After(actions[..|actions| - 1]);
      var a := actions[|actions| - 1];
      if InScope(w, a) then Apply(w, a) else w
  }

  // ----- counting

  function InSlot(slot: Slot, x: Surface): nat {
    InChain(slot.chain, x) + InSeq(slot.held, x) + InSeq(slot.textures, x)
  }

  function SlotCounts(slots: seq<Slot>, x: Surface): seq<nat> {
    seq(|slots|, i requires 0 <= i < |slots| => InSlot(slots[i], x))
  }

  function CtxCounts(ctxs: seq<Ctx>, x: Surface): seq<nat> {
    seq(|ctxs|, i requires 0 <= i < |ctxs| => InCtx(ctxs[i], x))
  }

  /** In how many places `x` is: bound to a context, in a chain, held by a consumer, inside a
      texture, destroyed or dropped. */
  function Places(w: World, x: Surface): nat {
    Sum(SlotCounts(w.slots, x)) + Sum(CtxCounts(w.ctxs, x)) + InDev(w.dev, x)
  }

  lemma SlotUpdate(slots: seq<Slot>, k: nat, slot: Slot, x: Surface)
    requires k < |slots|
    ensures Sum(SlotCounts(slots[k := slot], x)) + InSlot(slots[k], x) == Sum(SlotCounts(slots, x)) + InSlot(slot, x)
  {
    assert SlotCounts(slots[k := slot], x) == SlotCounts(slots, x)[k := InSlot(slot, x)];
    SumUpdate(SlotCounts(slots, x), k, InSlot(slot, x));
  }

  lemma SlotAppend(slots: seq<Slot>, slot: Slot, x: Surface)
    ensures Sum(SlotCounts(slots + [slot], x)) == Sum(SlotCounts(slots, x)) + InSlot(slot, x)
  {
    assert SlotCounts(slots + [slot], x) == SlotCounts(slots, x) + [InSlot(slot, x)];
    SumAppend(SlotCounts(slots, x), InSlot(slot, x));
  }

  lemma CtxUpdate(ctxs: seq<Ctx>, c: nat, ctx: Ctx, x: Surface)
    requires c < |ctxs|
    ensures Sum(CtxCounts(ctxs[c := ctx], x)) + InCtx(ctxs[c], x) == Sum(CtxCounts(ctxs, x)) + InCtx(ctx, x)
  {
    assert CtxCounts(ctxs[c := ctx], x) == CtxCounts(ctxs, x)[c := InCtx(ctx, x)];
    SumUpdate(CtxCounts(ctxs, x), c, InCtx(ctx, x));
  }

  lemma CtxAppend(ctxs: seq<Ctx>, ctx: Ctx, x: Surface)
    ensures Sum(CtxCounts(ctxs + [ctx], x)) == Sum(CtxCounts(ctxs, x)) + InCtx(ctx, x)
  {
    assert CtxCounts(ctxs + [ctx], x) == CtxCounts(ctxs, x) + [InCtx(ctx, x)];
    SumAppend(CtxCounts(ctxs, x), InCtx(ctx, x));
  }

  lemma WriteBackCount(w: World, k: nat, c: nat, st: St, x: Surface)
    requires k < |w.slots| && c < |w.ctxs|
    ensures Places(WriteBack(w, k, c, st), x) + In(View(w, k, c), x) == Places(w, x) + In(st, x)
  {
    SlotUpdate(w.slots, k, w.slots[k].(chain := st.chain), x);
    CtxUpdate(w.ctxs, c, st.ctx, x);
  }

  lemma SetSlotCount(w: World, k: nat, slot: Slot, x: Surface)
    requires k < |w.slots|
    ensures Places(SetSlot(w, k, slot), x) + InSlot(w.slots[k], x) == Places(w, x) + InSlot(slot, x)
  {
    SlotUpdate(w.slots, k, slot, x);
  }

  // ----- one action creates at most new surfaces, and loses none

  ghost predicate StepConserves(w: World, w': World, x: Surface) {
    && Extends(w.dev, w'.dev)
    && Places(w', x) == Places(w, x) + Created(w.dev, w'.dev, x)
  }

  lemma ApplyConserves(w: World, a: Action, x: Surface)
    requires InScope(w, a)
    ensures StepConserves(w, Apply(w, a), x)
  {
    match a
    case NewContext(external) => NewContextConserves(w, external, x);
    case BindNew(c, size, kind, creates) => BindNewConserves(w, c, size, kind, creates, x);
    case DestroyBound(c) => DestroyBoundConserves(w, c, x);
    case CreateAttached(c) => CreateAttachedConserves(w, c, x);
    case CreateDetached(c, size, creates) => CreateDetachedConserves(w, c, size, creates, x);
    case SwapBuffers(k, c, preserve, creates) => ApplySwapBuffersConserves(w, k, c, preserve, creates, x);
    case TakeAttachment(k, c, j) => ApplyTakeAttachmentConserves(w, k, c, j, x);
    case Resize(k, c, size, creates) => ApplyResizeConserves(w, k, c, size, creates, x);
    case TakeTexture(k, c, current) => ApplyTakeTextureConserves(w, k, c, current, x);
    case RecycleTexture(k, c, from, i, current) => ApplyRecycleTextureConserves(w, k, c, from, i, current, x);
    case ClearSurface(k, c) => ApplyClearSurfaceConserves(w, k, c, x);
    case Destroy(k, c) => ApplyDestroyConserves(w, k, c, x);
    case TakeSurface(k) => ApplyTakeConserves(w, k, x);
    case TakePending(k) => ApplyTakeConserves(w, k, x);
    case Recycle(k, from, i) => ApplyRecycleConserves(w, k, from, i, x);
    case RecycleNew(k, c, size, kind, creates) => RecycleNewConserves(w, k, c, size, kind, creates, x);
    case RecycleNewTexture(k, c, maker, size, creates, current) =>
      RecycleNewTextureConserves(w, k, c, maker, size, creates, current, x);
  }

  lemma NewContextConserves(w: World, external: bool, x: Surface)
    ensures StepConserves(w, Apply(w, NewContext(external)), x)
  {
    CtxAppend(w.ctxs, Ctx(|w.ctxs|, if external then External else NoFramebuffer), x);
  }

  lemma CreateAttachedConserves(w: World, c: nat, x: Surface)
    requires c < |w.ctxs|
    ensures StepConserves(w, Apply(w, Action.CreateAttached(c)), x)
  {
    var r := S.CreateAttached(w.ctxs[c]);
    if r.Ok? {
      SlotAppend(w.slots, Slot(r.value, [], []), x);
    }
  }

  lemma CreateDetachedConserves(w: World, c: nat, size: Size, creates: bool, x: Surface)
    requires c < |w.ctxs|
    ensures StepConserves(w, Apply(w, Action.CreateDetached(c, size, creates)), x)
  {
    CreateConserves(w.dev, w.ctxs[c], size, Generic, creates, x);
    var (dev, r) := S.CreateDetached(w.dev, w.ctxs[c], size, creates);
    if r.Ok? {
      SlotAppend(w.slots, Slot(r.value, [], []), x);
    } else {
      assert w.slots + [] == w.slots;
    }
  }

  lemma ApplySwapBuffersConserves(w: World, k: nat, c: nat, preserve: bool, creates: bool, x: Surface)
    requires k < |w.slots| && c < |w.ctxs|
    ensures StepConserves(w, Apply(w, Action.SwapBuffers(k, c, preserve, creates)), x)
  {
    SwapBuffersConserves(View(w, k, c), preserve, creates, x);
    WriteBackCount(w, k, c, S.SwapBuffers(View(w, k, c), preserve, creates).0, x);
  }

  lemma ApplyResizeConserves(w: World, k: nat, c: nat, size: Size, creates: bool, x: Surface)
    requires k < |w.slots| && c < |w.ctxs|
    ensures StepConserves(w, Apply(w, Action.Resize(k, c, size, creates)), x)
  {
    ResizeConserves(View(w, k, c), size, creates, x);
    WriteBackCount(w, k, c, S.Resize(View(w, k, c), size, creates).0, x);
  }

  lemma ApplyClearSurfaceConserves(w: World, k: nat, c: nat, x: Surface)
    requires k < |w.slots| && c < |w.ctxs|
    ensures StepConserves(w, Apply(w, Action.ClearSurface(k, c)), x)
  {
    ClearSurfaceConserves(View(w, k, c), x);
    WriteBackCount(w, k, c, S.ClearSurface(View(w, k, c)).0, x);
  }

  lemma ApplyDestroyConserves(w: World, k: nat, c: nat, x: Surface)
    requires k < |w.slots| && c < |w.ctxs|
    ensures StepConserves(w, Apply(w, Action.Destroy(k, c)), x)
  {
    DestroyConserves(View(w, k, c), x);
    WriteBackCount(w, k, c, S.Destroy(View(w, k, c)).0, x);
  }

  lemma ApplyTakeConserves(w: World, k: nat, x: Surface)
    requires k < |w.slots|
    ensures StepConserves(w, Apply(w, Action.TakeSurface(k)), x)
    ensures StepConserves(w, Apply(w, Action.TakePending(k)), x)
  {
    TakeFromConserves(w.slots[k], x);
    SetSlotCount(w, k, TakeFrom(w.slots[k], S.TakeSurface(w.slots[k].chain)), x);
    SetSlotCount(w, k, TakeFrom(w.slots[k], S.TakePending(w.slots[k].chain)), x);
  }

  /** Client code binds a surface it has made, or destroys it again. */
  lemma BindNewConserves(w: World, c: nat, size: Size, kind: Kind, creates: bool, x: Surface)
    requires c < |w.ctxs|
    ensures StepConserves(w, Apply(w, BindNew(c, size, kind, creates)), x)
  {
    CreateConserves(w.dev, w.ctxs[c], size, kind, creates, x);
    var (dev, created) := Create(w.dev, w.ctxs[c], size, kind, creates);
    if created.Ok? {
      BoundConserves(w.(dev := dev), c, created.value, x);
    }
  }

  lemma BoundConserves(w: World, c: nat, s: Surface, x: Surface)
    requires c < |w.ctxs|
    ensures var (ctx, bound) := BindSurface(w.ctxs[c], s);
            var w' := w.(ctxs := w.ctxs[c := ctx], dev := if bound.Ok? then w.dev else w.dev.Destroy(s));
            w'.dev.born == w.dev.born && Places(w', x) == Places(w, x) + One(s, x)
  {
    CtxUpdate(w.ctxs, c, BindSurface(w.ctxs[c], s).0, x);
  }

  lemma DestroyBoundConserves(w: World, c: nat, x: Surface)
    requires c < |w.ctxs|
    ensures StepConserves(w, Apply(w, DestroyBound(c)), x)
  {
    var (ctx, unbound) := UnbindSurface(w.ctxs[c]);
    CtxUpdate(w.ctxs, c, ctx, x);
    if unbound.Ok? && unbound.value.Some? {
      DestroyOrDropConserves(w.dev, ctx.id, unbound.value.value, x);
    }
  }

  lemma ApplyTakeAttachmentConserves(w: World, k: nat, c: nat, j: nat, x: Surface)
    requires k < |w.slots| && j < |w.slots| && j != k && c < |w.ctxs|
    ensures StepConserves(w, Apply(w, Action.TakeAttachment(k, c, j)), x)
  {
    TakeAttachmentConserves(w.slots[k].chain, w.slots[j].chain, w.ctxs[c], w.dev, x);
    var p := S.TakeAttachment(w.slots[k].chain, w.slots[j].chain, w.ctxs[c], w.dev);
    var slot := w.slots[j].(chain := p.other);
    SetSlotCount(w, j, slot, x);
    WriteBackCount(SetSlot(w, j, slot), k, c, St(p.self, p.ctx, p.dev), x);
  }

  lemma TextureTakenCount(w: World, k: nat, c: nat, st: St, r: Outcome<Surface>, x: Surface)
    requires k < |w.slots| && c < |w.ctxs|
    ensures Places(TextureTaken(w, k, c, st, r), x) + In(View(w, k, c), x)
         == Places(w, x) + In(st, x) + InOutcome(r, x)
  {
    var w' := WriteBack(w, k, c, st);
    WriteBackCount(w, k, c, st, x);
    if r.Ok? {
      AppendCount(w.slots[k].textures, [r.value], x);
      SetSlotCount(w', k, w'.slots[k].(textures := w.slots[k].textures + [r.value]), x);
    }
  }

  lemma TextureTakenConserves(w: World, k: nat, c: nat, st: St, r: Outcome<Surface>, x: Surface)
    requires k < |w.slots| && c < |w.ctxs| && st.dev.born == w.dev.born
    requires In(st, x) + InOutcome(r, x) == In(View(w, k, c), x)
    ensures StepConserves(w, TextureTaken(w, k, c, st, r), x)
  {
    TextureTakenCount(w, k, c, st, r, x);
    assert TextureTaken(w, k, c, st, r).dev == st.dev;
  }

  lemma ApplyTakeTextureConserves(w: World, k: nat, c: nat, current: bool, x: Surface)
    requires k < |w.slots| && c < |w.ctxs|
    ensures StepConserves(w, Apply(w, Action.TakeTexture(k, c, current)), x)
  {
    TakeTextureConserves(View(w, k, c), current, x);
    var (st, r) := S.TakeTexture(View(w, k, c), current);
    TextureTakenConserves(w, k, c, st, r, x);
  }

  lemma RemoveAtCount(s: seq<Surface>, i: nat, x: Surface)
    requires i < |s|
    ensures InSeq(RemoveAt(s, i), x) + One(s[i], x) == InSeq(s, x)
  {
    assert (multiset(RemoveAt(s, i)) + multiset{s[i]})[x] == multiset(s)[x];
  }

  lemma ApplyRecycleTextureConserves(
      w: World, k: nat, c: nat, from: nat, i: nat, current: bool, x: Surface)
    requires k < |w.slots| && c < |w.ctxs| && from < |w.slots| && i < |w.slots[from].textures|
    ensures StepConserves(w, Apply(w, Action.RecycleTexture(k, c, from, i, current)), x)
  {
    var slot := w.slots[from].(textures := RemoveAt(w.slots[from].textures, i));
    var s := w.slots[from].textures[i];
    RemoveAtCount(w.slots[from].textures, i, x);
    SetSlotCount(w, from, slot, x);
    var before := SetSlot(w, from, slot);
    assert View(before, k, c) == View(w, k, c);
    RecycleTextureConserves(View(w, k, c), s, current, x);
    WriteBackCount(before, k, c, S.RecycleTexture(View(w, k, c), s, current).0, x);
  }

  lemma TakeFromConserves(slot: Slot, x: Surface)
    ensures InSlot(TakeFrom(slot, S.TakeSurface(slot.chain)), x) == InSlot(slot, x)
    ensures InSlot(TakeFrom(slot, S.TakePending(slot.chain)), x) == InSlot(slot, x)
  {
    var (chain, taken) := S.TakeSurface(slot.chain);
    if taken.Some? {
      AppendCount(slot.held, [taken.value], x);
      if slot.chain.pending.None? {
        assert slot.chain.recycled == chain.recycled + [taken.value];
        AppendCount(chain.recycled, [taken.value], x);
      }
    } else {
      assert slot.held + [] == slot.held;
    }
  }

  lemma ApplyRecycleConserves(w: World, k: nat, from: nat, i: nat, x: Surface)
    requires k < |w.slots| && from < |w.slots| && i < |w.slots[from].held|
    ensures StepConserves(w, Apply(w, Action.Recycle(k, from, i)), x)
  {
    var slot := w.slots[from].(held := RemoveAt(w.slots[from].held, i));
    var s := w.slots[from].held[i];
    RemoveAtCount(w.slots[from].held, i, x);
    SetSlotCount(w, from, slot, x);
    var w' := SetSlot(w, from, slot);
    AppendCount(w.slots[k].chain.recycled, [s], x);
    SetSlotCount(w', k, w'.slots[k].(chain := S.Recycle(w.slots[k].chain, s)), x);
  }

  lemma RecycleNewConserves(w: World, k: nat, c: nat, size: Size, kind: Kind, creates: bool, x: Surface)
    requires k < |w.slots| && c < |w.ctxs|
    ensures StepConserves(w, Apply(w, RecycleNew(k, c, size, kind, creates)), x)
  {
    CreateConserves(w.dev, w.ctxs[c], size, kind, creates, x);
    var (dev, created) := Create(w.dev, w.ctxs[c], size, kind, creates);
    if created.Ok? {
      AppendCount(w.slots[k].chain.recycled, [created.value], x);
      SetSlotCount(w.(dev := dev), k, w.slots[k].(chain := S.Recycle(w.slots[k].chain, created.value)), x);
    }
  }

  lemma RecycleNewTextureConserves(
      w: World, k: nat, c: nat, maker: nat, size: Size, creates: bool, current: bool, x: Surface)
    requires k < |w.slots| && c < |w.ctxs| && maker < |w.ctxs|
    ensures StepConserves(w, Apply(w, RecycleNewTexture(k, c, maker, size, creates, current)), x)
  {
    CreateConserves(w.dev, w.ctxs[maker], size, Generic, creates, x);
    var (dev, created) := Create(w.dev, w.ctxs[maker], size, Generic, creates);
    if created.Ok? {
      HandOverConserves(w.(dev := dev), k, c, created.value, current, x);
    }
  }

  lemma HandOverConserves(w: World, k: nat, c: nat, s: Surface, current: bool, x: Surface)
    requires k < |w.slots| && c < |w.ctxs|
    ensures var w' := WriteBack(w, k, c, S.RecycleTexture(View(w, k, c), s, current).0);
            w'.dev.born == w.dev.born && Places(w', x) == Places(w, x) + One(s, x)
  {
    RecycleTextureConserves(View(w, k, c), s, current, x);
    WriteBackCount(w, k, c, S.RecycleTexture(View(w, k, c), s, current).0, x);
  }

  // ----- every run

  /** Serial numbers are positions in the list of created surfaces, so no surface is created twice. */
  ghost predicate Numbered(dev: Dev) {
    forall i :: 0 <= i < |dev.born| ==> dev.born[i].id == i
  }

  lemma {:induction false} RunConserves(actions: seq<Action>, x: Surface)
    ensures var w := After(actions); Numbered(w.dev) && Places(w, x) == InSeq(w.dev.born, x)
  {
    if actions != [] {
      var before := actions[..|actions| - 1];
      RunConserves(before, x);
      var w, a := After(before), actions[|actions| - 1];
      if InScope(w, a) {
        ApplyConserves(w, a, x);
        assert forall i :: 0 <= i < |w.dev.born| ==> Apply(w, a).dev.born[i] == w.dev.born[i];
      }
    }
  }

  lemma {:induction false} OnceIfNumbered(s: seq<Surface>, x: Surface)
    requires forall i :: 0 <= i < |s| ==> s[i].id == i
    ensures InSeq(s, x) == if x in s then 1 else 0
  {
    if s != [] {
      var last := |s| - 1;
      assert s == s[..last] + [s[last]];
      OnceIfNumbered(s[..last], x);
    }
  }

  /** In every run, with any arguments and any errors, a surface that was created is in exactly one
      place, and a surface that was not is nowhere. */
  lemma LinearOwnership(actions: seq<Action>, x: Surface)
    ensures var w := After(actions); Places(w, x) == if x in w.dev.born then 1 else 0
  {
    RunConserves(actions, x);
    OnceIfNumbered(After(actions).dev.born, x);
  }
}
