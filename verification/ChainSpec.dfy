/** The swap-chain protocol as functions on values: what one locked call does to a chain, to the
    context it was given and to the device, on every path including errors and panics.

    A surface held in a local variable when a call returns early goes out of scope there; such a
    surface is added to `dev.dropped`. The parameter `creates` says whether surface creation
    succeeds in this call, and `current` whether the context can be made current. */
module ChainSpec {
  import opened Surfaces
  import opened DeviceApi

  datatype BackBuffer = Attached | Detached(surface: Surface) | TakenAttached | TakenDetached
  {
    predicate Taken() {
      TakenAttached? || TakenDetached?
    }

    /** Whether this is the attached chain of its context. */
    predicate IsAttached() {
      Attached? || TakenAttached?
    }
  }

  datatype Chain = Chain(
    size: Size,
    contextId: nat,
    back: BackBuffer,
    pending: Option<Surface>,
    recycled: seq<Surface>)

  /** One chain together with the context and device passed to a call on it. */
  datatype St = St(chain: Chain, ctx: Ctx, dev: Dev)
  {
    predicate Valid() {
      chain.contextId == ctx.id
    }

    function SetBack(back: BackBuffer): St {
      this.(chain := chain.(back := back))
    }

    function Drop(s: multiset<Surface>): St {
      this.(dev := dev.Drop(s))
    }
  }

  // ----- the back buffer

  /** Takes the back buffer out of the chain. The state of the back buffer changes even if
      unbinding the surface then fails. */
  function TakeBack(st: St): (St, Outcome<Surface>) {
    match st.chain.back
    case Attached =>
      var (ctx, unbound) := UnbindSurface(st.ctx);
      var after := st.SetBack(TakenAttached).(ctx := ctx);
      (match unbound
       case Ok(Some(s)) => (after, Ok(s))
       case Err(e) => (after, Err(e))
       case _ => (after, Panic))
    case Detached(s) => (st.SetBack(TakenDetached), Ok(s))
    case _ => (st, Err(Failed))
  }

  /** Puts a surface where the back buffer was taken from. A surface that cannot be bound is
      destroyed. */
  function ReplaceBack(st: St, s: Surface): (St, Outcome<()>) {
    match st.chain.back
    case TakenAttached =>
      var (ctx, bound) := BindSurface(st.ctx, s);
      if bound.Ok? then
        (st.SetBack(Attached).(ctx := ctx), bound)
      else
        var dev := st.dev.DestroyOrDrop(st.ctx.id, s);
        (st.(dev := dev.(fallbacks := dev.fallbacks + 1)), bound)
    case TakenDetached => (st.SetBack(Detached(s)), Ok(()))
    case _ => (st.Drop(multiset{s}), Err(Failed))
  }

  /** Destroys surfaces in order; the first refusal drops the rest. */
  function DestroyAll(dev: Dev, contextId: nat, surfaces: seq<Surface>): (Dev, Outcome<()>)
    decreases |surfaces|
  {
    if surfaces == [] then
      (dev, Ok(()))
    else if surfaces[0].contextId != contextId then
      (dev.Drop(multiset(surfaces)), Err(IncompatibleSurface))
    else
      DestroyAll(dev.Destroy(surfaces[0]), contextId, surfaces[1..])
  }

  // ----- calls by the producer

  /** The presented frame joins the recycled surfaces. */
  function RecyclePending(chain: Chain): Chain {
    match chain.pending
    case None => chain
    case Some(s) => chain.(pending := None, recycled := chain.recycled + [s])
  }

  /** Finds the next back buffer: a recycled surface of the chain's size, or else a new surface. */
  function Fetch(st: St, creates: bool): (St, Outcome<Surface>) {
    var i := FirstOfSize(st.chain.recycled, st.chain.size);
    if i < |st.chain.recycled| then
      (st.(chain := st.chain.(recycled := SwapRemove(st.chain.recycled, i))), Ok(st.chain.recycled[i]))
    else
      var (dev, created) := Create(st.dev, st.ctx, st.chain.size, Generic, creates);
      (st.(dev := dev), created)
  }

  /** Makes `back` the new back buffer and returns the old one. */
  function RenewBack(st: St, back: Surface): (St, Outcome<Surface>) {
    var (taken, previous) := TakeBack(st);
    if !previous.Ok? then
      (taken.Drop(multiset{back}), previous)
    else
      var (replaced, r) := ReplaceBack(taken, back);
      match r
      case Ok(_) => (replaced, previous)
      case Err(e) => (replaced.Drop(multiset{previous.value}), Err(e))
      case Panic => (replaced.Drop(multiset{previous.value}), Panic)
  }

  function SwapBuffers(st: St, preserve: bool, creates: bool): (St, Outcome<()>) {
    if !st.Valid() then
      (st, Err(IncompatibleContext))
    else
      var (fetched, next) := Fetch(st.(chain := RecyclePending(st.chain)), creates);
      match next
      case Err(e) => (fetched, Err(e))
      case Panic => (fetched, Panic)
      case Ok(back) => SwapIn(fetched, back, preserve)
  }

  /** The part of a swap after the next back buffer has been found. */
  function SwapIn(st: St, back: Surface, preserve: bool): (St, Outcome<()>) {
    var (renewed, front) := RenewBack(st, back);
    match front
    case Err(e) => (renewed, Err(e))
    case Panic => (renewed, Panic)
    case Ok(shown) => (Present(renewed, shown, back, preserve), Ok(()))
  }

  /** The end of a swap: copies the old back buffer to the new one if asked to, and makes it the
      pending surface. */
  function Present(st: St, shown: Surface, back: Surface, preserve: bool): St {
    var blits := if preserve then st.dev.blits + [Blit(shown, back)] else st.dev.blits;
    St(st.chain.(pending := Some(shown)), st.ctx, st.dev.(blits := blits))
  }

  /** The result of a call on two chains of one context. */
  datatype Pair = Pair(self: Chain, other: Chain, ctx: Ctx, dev: Dev, result: Outcome<()>)

  function TakeAttachment(self: Chain, other: Chain, ctx: Ctx, dev: Dev): Pair {
    if self.contextId != ctx.id || other.contextId != ctx.id then
      Pair(self, other, ctx, dev, Err(IncompatibleContext))
    else
      var (st, ours) := TakeBack(St(self, ctx, dev));
      match ours
      case Err(e) => Pair(st.chain, other, st.ctx, st.dev, Err(e))
      case Panic => Pair(st.chain, other, st.ctx, st.dev, Panic)
      case Ok(mine) =>
        var (st', theirs) := TakeBack(St(other, st.ctx, st.dev));
        match theirs
        case Err(e) => Pair(st.chain, st'.chain, st'.ctx, st'.dev.Drop(multiset{mine}), Err(e))
        case Panic => Pair(st.chain, st'.chain, st'.ctx, st'.dev.Drop(multiset{mine}), Panic)
        case Ok(their) => ExchangeBacks(st.chain, st'.chain, st'.ctx, st'.dev, mine, their)
  }

  /** Exchanges the attachment states of two taken back buffers and puts the surfaces back. */
  function ExchangeBacks(self: Chain, other: Chain, ctx: Ctx, dev: Dev, mine: Surface, their: Surface): Pair {
    var (st, r) := ReplaceBack(St(self.(back := other.back), ctx, dev), mine);
    var swapped := other.(back := self.back);
    if !r.Ok? then
      Pair(st.chain, swapped, st.ctx, st.dev.Drop(multiset{their}), r)
    else
      var (st', r') := ReplaceBack(St(swapped, st.ctx, st.dev), their);
      Pair(st.chain, st'.chain, st'.ctx, st'.dev, r')
  }

  function Resize(st: St, size: Size, creates: bool): (St, Outcome<()>) {
    if !st.Valid() then
      (st, Err(IncompatibleContext))
    else if size.width < 1 || size.height < 1 then
      (st, Err(Failed))
    else
      var (dev, next) := Create(st.dev, st.ctx, size, Generic, creates);
      match next
      case Err(e) => (st.(dev := dev), Err(e))
      case Panic => (st.(dev := dev), Panic)
      case Ok(back) =>
        var (renewed, previous) := RenewBack(st.(dev := dev), back);
        match previous
        case Err(e) => (renewed, Err(e))
        case Panic => (renewed, Panic)
        case Ok(oldBack) => DiscardOld(renewed, oldBack, size)
  }

  /** The end of a resize: destroys the old back buffer and the recycled surfaces, and records the
      new size only if all of that succeeded. */
  function DiscardOld(st: St, oldBack: Surface, size: Size): (St, Outcome<()>) {
    if oldBack.contextId != st.ctx.id then
      (st.Drop(multiset{oldBack}), Err(IncompatibleSurface))
    else
      var (dev, r) := DestroyAll(st.dev.Destroy(oldBack), st.ctx.id, st.chain.recycled);
      var emptied := st.chain.(recycled := []);
      (st.(chain := if r.Ok? then emptied.(size := size) else emptied, dev := dev), r)
  }

  /** On success the surface has moved into a texture held by the caller. */
  function TakeTexture(st: St, current: bool): (St, Outcome<Surface>) {
    if !st.Valid() then
      (st, Err(IncompatibleContext))
    else
      var (taken, back) := TakeBack(st);
      match back
      case Ok(s) =>
        (match MakeTexture(s, current)
         case Err(e) => (ReplaceBack(taken, s).0, Err(e))
         case _ => (taken, Ok(s)))
      case _ => (taken, back)
  }

  /** `s` is the surface inside the texture that the caller hands over. */
  function RecycleTexture(st: St, s: Surface, current: bool): (St, Outcome<()>) {
    if !st.Valid() then (st.Drop(multiset{s}), Err(IncompatibleContext))
    else if !current then (st.Drop(multiset{s}), Err(MakeCurrentFailed))
    else ReplaceBack(st, s)
  }

  /** First part of a clear: makes the back buffer the bound surface. The value is the surface that
      was bound before, to be bound again afterwards. */
  function EnterClear(st: St): (St, Outcome<Option<Surface>>) {
    if st.chain.back.IsAttached() then
      (st, Ok(None))
    else
      var (taken, back) := TakeBack(st);
      match back
      case Err(e) => (taken, Err(e))
      case Panic => (taken, Panic)
      case Ok(s) => BindForClear(taken, s)
  }

  /** Binds `s` instead of the surface that was bound before, and returns that one. */
  function BindForClear(st: St, s: Surface): (St, Outcome<Option<Surface>>) {
    var (ctx, unbound) := UnbindSurface(st.ctx);
    match unbound
    case Err(e) => (st.Drop(multiset{s}), Err(e))
    case Panic => (st.Drop(multiset{s}), Panic)
    case Ok(reattach) =>
      var (ctx', bound) := BindSurface(ctx, s);
      if bound.Ok? then
        (st.(ctx := ctx'), Ok(reattach))
      else
        (st.(ctx := ctx, dev := Abandon(st.dev, ctx.id, s, reattach)),
         if bound.Err? then Err(bound.error) else Panic)
  }

  /** Destroys the surfaces of a clear that could not go on. */
  function Abandon(dev: Dev, id: nat, s: Surface, other: Option<Surface>): Dev {
    var first := dev.DestroyOrDrop(id, s);
    var both := if other.Some? then first.DestroyOrDrop(id, other.value) else first;
    both.(fallbacks := both.fallbacks + 1)
  }

  /** Last part of a clear: binds `reattach` again, if there was a bound surface. */
  function LeaveClear(st: St, reattach: Option<Surface>): (St, Outcome<()>) {
    match reattach
    case None => (st, Ok(()))
    case Some(s) =>
      var (ctx, unbound) := UnbindSurface(st.ctx);
      match unbound
      case Err(e) => (st.Drop(multiset{s}), Err(e))
      case Ok(Some(cleared)) =>
        var (ctx', bound) := BindSurface(ctx, s);
        if bound.Ok? then
          ReplaceBack(st.(ctx := ctx'), cleared)
        else
          (st.(ctx := ctx, dev := Abandon(st.dev, ctx.id, s, Some(cleared))), bound)
      case _ => (st.(ctx := ctx).Drop(multiset{s}), Panic)
  }

  /** The effect of a clear on surfaces; between the two parts the bound surface is cleared, which
      panics if there is none. */
  function ClearSurface(st: St): (St, Outcome<()>) {
    if !st.Valid() then
      (st, Err(IncompatibleContext))
    else
      var (entered, r) := EnterClear(st);
      match r
      case Err(e) => (entered, Err(e))
      case Panic => (entered, Panic)
      case Ok(reattach) =>
        if !entered.ctx.framebuffer.Bound? then
          (entered.Drop(OptionOwned(reattach)), Panic)
        else
          LeaveClear(entered, reattach)
  }

  /** An error from taking the back buffer is ignored; the other surfaces are still destroyed. */
  function Destroy(st: St): (St, Outcome<()>) {
    if !st.Valid() then
      (st, Err(IncompatibleContext))
    else
      var front := if st.chain.pending.Some? then [st.chain.pending.value] else [];
      var (taken, back) := TakeBack(st.(chain := st.chain.(pending := None)));
      if back.Panic? then
        (taken.Drop(multiset(front)), Panic)
      else
        DestroyOwned(taken, front + if back.Ok? then [back.value] else [])
  }

  /** Destroys the given surfaces and then the recycled ones. */
  function DestroyOwned(st: St, surfaces: seq<Surface>): (St, Outcome<()>) {
    var (dev, r) := DestroyAll(st.dev, st.ctx.id, surfaces + st.chain.recycled);
    (st.(chain := st.chain.(recycled := []), dev := dev), r)
  }

  // ----- calls by a consumer

  function TakeSurface(chain: Chain): (Chain, Option<Surface>) {
    if chain.pending.Some? then
      (chain.(pending := None), chain.pending)
    else if chain.recycled == [] then
      (chain, None)
    else
      var last := |chain.recycled| - 1;
      (chain.(recycled := chain.recycled[..last]), Some(chain.recycled[last]))
  }

  function TakePending(chain: Chain): (Chain, Option<Surface>) {
    (chain.(pending := None), chain.pending)
  }

  function Recycle(chain: Chain, s: Surface): Chain {
    chain.(recycled := chain.recycled + [s])
  }

  // ----- creation

  /** Panics unless a surface is bound. */
  function CreateAttached(ctx: Ctx): Outcome<Chain> {
    match ctx.framebuffer
    case Bound(s) => Ok(Chain(s.size, ctx.id, Attached, None, []))
    case _ => Panic
  }

  function CreateDetached(dev: Dev, ctx: Ctx, size: Size, creates: bool): (Dev, Outcome<Chain>) {
    var (dev', created) := Create(dev, ctx, size, Generic, creates);
    match created
    case Ok(s) => (dev', Ok(Chain(size, ctx.id, Detached(s), None, [])))
    case Err(e) => (dev', Err(e))
    case Panic => (dev', Panic)
  }
}
