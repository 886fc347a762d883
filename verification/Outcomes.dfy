/** What every call on a chain returns, and which surfaces it destroys or loses, from any state at all:
    with any context, with the back buffer out, and with surfaces of other contexts in the chain. All
    in terms of what the caller could see before the call. */
module Outcomes {
  import opened Surfaces
  import opened DeviceApi
  import opened ChainSpec
  import opened ChainLaws

  /** The surfaces that a call has added to the destroyed and to the dropped ones. */
  datatype Fate = Fate(destroyed: multiset<Surface>, dropped: multiset<Surface>)

  const NOTHING := Fate(multiset{}, multiset{})

  predicate Met(before: Dev, after: Dev, fate: Fate) {
    && after.destroyed == before.destroyed + fate.destroyed
    && after.dropped == before.dropped + fate.dropped
  }

  /** A surface that context `id` is asked to destroy. */
  function Given(id: nat, s: Surface): Fate {
    if s.contextId == id then Fate(multiset{s}, multiset{}) else Fate(multiset{}, multiset{s})
  }

  lemma MetNothing(before: Dev, after: Dev)
    requires after.destroyed == before.destroyed && after.dropped == before.dropped
    ensures Met(before, after, NOTHING)
  {
  }

  lemma MetDrop(before: Dev, after: Dev, lost: multiset<Surface>)
    requires after.destroyed == before.destroyed && after.dropped == before.dropped + lost
    ensures Met(before, after, Fate(multiset{}, lost))
  {
  }

  lemma MetGiven(dev: Dev, id: nat, s: Surface)
    ensures Met(dev, dev.DestroyOrDrop(id, s), Given(id, s))
  {
  }

  function Both(f: Fate, g: Fate): Fate {
    Fate(f.destroyed + g.destroyed, f.dropped + g.dropped)
  }

  lemma MetBoth(a: Dev, b: Dev, c: Dev, f: Fate, g: Fate)
    requires Met(a, b, f) && Met(b, c, g)
    ensures Met(a, c, Both(f, g))
  {
  }

  // ----- what the calls find

  /** The recycled surfaces, and the pending one behind them. */
  function Pool(chain: Chain): seq<Surface> {
    chain.recycled + if chain.pending.Some? then [chain.pending.value] else []
  }

  /** The `i`-th surface of the pool is the first that has the chain's size. */
  predicate FirstFit(chain: Chain, i: nat) {
    && i < |Pool(chain)| && Pool(chain)[i].size == chain.size
    && forall j :: 0 <= j < i ==> Pool(chain)[j].size != chain.size
  }

  predicate SomeFit(chain: Chain) {
    exists i :: 0 <= i < |Pool(chain)| && Pool(chain)[i].size == chain.size
  }

  /** The surface that a swap goes on with. */
  function Next(st: St): Surface {
    if SomeFit(st.chain) then Pool(st.chain)[FirstOfSize(Pool(st.chain), st.chain.size)]
    else Surface(|st.dev.born|, st.chain.size, st.ctx.id, Generic)
  }

  lemma PoolIsRecycled(chain: Chain)
    ensures RecyclePending(chain).recycled == Pool(chain)
    ensures SomeFit(chain) <==> FirstOfSize(Pool(chain), chain.size) < |Pool(chain)|
    ensures forall i: nat :: FirstFit(chain, i) ==> i == FirstOfSize(Pool(chain), chain.size)
    ensures forall creates :: CanSwap(chain, creates) <==> creates || SomeFit(chain)
  {
    assert chain.recycled + [] == chain.recycled;
  }

  /** What taking the back buffer out of a chain runs into. */
  function TakeAnswer(back: BackBuffer, framebuffer: Framebuffer<Surface>): Outcome<()> {
    if back.Taken() then Err(Failed)
    else if back.Attached? && framebuffer.External? then Err(ExternalRenderTarget)
    else if back.Attached? && framebuffer.NoFramebuffer? then Panic
    else Ok(())
  }

  function Answer(st: St): Outcome<()> {
    TakeAnswer(st.chain.back, st.ctx.framebuffer)
  }

  predicate Foreign(st: St, s: Surface) {
    s.contextId != st.ctx.id
  }

  // ----- swap

  function SwapAnswer(st: St, creates: bool): Outcome<()> {
    if !st.Valid() then Err(IncompatibleContext)
    else if !creates && !SomeFit(st.chain) then Err(SurfaceCreationFailed)
    else if Answer(st) != Ok(()) then Answer(st)
    else if st.chain.back.Attached? && Foreign(st, Next(st)) then Err(IncompatibleSurface)
    else Ok(())
  }

  function SwapFate(st: St, creates: bool): Fate {
    if !st.Valid() || (!creates && !SomeFit(st.chain)) then NOTHING
    else if Answer(st) != Ok(()) then Fate(multiset{}, multiset{Next(st)})
    else if st.chain.back.Attached? && Foreign(st, Next(st)) then
      Fate(multiset{}, multiset{Next(st), Back(st.chain, st.ctx)})
    else NOTHING
  }

  lemma FetchIs(st: St, creates: bool)
    ensures var start := st.(chain := RecyclePending(st.chain));
            var (fetched, next) := Fetch(start, creates);
            && next == (if creates || SomeFit(st.chain) then Ok(Next(st)) else Err(SurfaceCreationFailed))
            && fetched.chain.back == st.chain.back && fetched.ctx == st.ctx
            && fetched.dev == st.dev.(born := fetched.dev.born)
  {
    PoolIsRecycled(st.chain);
  }

  lemma SwapInIs(st: St, next: Surface, preserve: bool)
    ensures var (after, r) := SwapIn(st, next, preserve);
            && r == (if Answer(st) != Ok(()) then Answer(st)
                     else if st.chain.back.Attached? && Foreign(st, next) then Err(IncompatibleSurface)
                     else Ok(()))
            && Met(st.dev, after.dev,
                   if Answer(st) != Ok(()) then Fate(multiset{}, multiset{next})
                   else if st.chain.back.Attached? && Foreign(st, next) then
                     Fate(multiset{}, multiset{next, Back(st.chain, st.ctx)})
                   else NOTHING)
  {
    if Answer(st) != Ok(()) {
      RenewFails(st, next);
    } else if st.chain.back.Attached? && Foreign(st, next) {
      RenewRefused(st, next);
    } else {
      RenewIs(st, next);
      MetNothing(st.dev, SwapIn(st, next, preserve).0.dev);
    }
  }

  lemma RenewFails(st: St, next: Surface)
    requires Answer(st) != Ok(())
    ensures var (after, r) := RenewBack(st, next);
            && Plain(r) == Answer(st) && !r.Ok? && after.chain.size == st.chain.size
            && Met(st.dev, after.dev, Fate(multiset{}, multiset{next}))
  {
    MetDrop(st.dev, st.dev.Drop(multiset{next}), multiset{next});
  }

  lemma RenewRefused(st: St, next: Surface)
    requires Answer(st) == Ok(()) && st.chain.back.Attached? && Foreign(st, next)
    ensures var (after, r) := RenewBack(st, next);
            && r == Err(IncompatibleSurface)
            && Met(st.dev, after.dev, Fate(multiset{}, multiset{next, Back(st.chain, st.ctx)}))
  {
    var dropped := st.dev.Drop(multiset{next}).Drop(multiset{Back(st.chain, st.ctx)});
    MetDrop(st.dev, dropped, multiset{next, Back(st.chain, st.ctx)});
  }

  lemma RenewIs(st: St, next: Surface)
    requires Answer(st) == Ok(()) && !(st.chain.back.Attached? && Foreign(st, next))
    ensures RenewBack(st, next) == (WithBack(st, next), Ok(Back(st.chain, st.ctx)))
  {
  }

  lemma SwapOutcome(st: St, preserve: bool, creates: bool)
    ensures var (after, r) := SwapBuffers(st, preserve, creates);
            r == SwapAnswer(st, creates) && Met(st.dev, after.dev, SwapFate(st, creates))
  {
    var start := st.(chain := RecyclePending(st.chain));
    var (fetched, next) := Fetch(start, creates);
    FetchIs(st, creates);
    if st.Valid() && next.Ok? {
      SwapInIs(fetched, next.value, preserve);
    }
  }

  // ----- the order of the recycled surfaces

  /** Whatever becomes of the swap, the last surface of the pool takes the place of the one that was
      found, and the others stay where they are. */
  lemma SwapOrder(st: St, preserve: bool, creates: bool, i: nat)
    requires st.Valid() && FirstFit(st.chain, i)
    ensures var pool, after := Pool(st.chain), SwapBuffers(st, preserve, creates).0.chain.recycled;
            && |after| == |pool| - 1
            && forall j :: 0 <= j < |after| ==> after[j] == if j == i then pool[|pool| - 1] else pool[j]
  {
    PoolIsRecycled(st.chain);
    var start := st.(chain := RecyclePending(st.chain));
    var (fetched, next) := Fetch(start, creates);
    SwapInKeepsRecycled(fetched, next.value, preserve);
  }

  /** A swap that finds no recycled surface takes none out. */
  lemma SwapWithoutFit(st: St, preserve: bool, creates: bool)
    requires st.Valid() && !SomeFit(st.chain)
    ensures SwapBuffers(st, preserve, creates).0.chain.recycled == Pool(st.chain)
  {
    PoolIsRecycled(st.chain);
    var (fetched, next) := Fetch(st.(chain := RecyclePending(st.chain)), creates);
    if next.Ok? {
      SwapInKeepsRecycled(fetched, next.value, preserve);
    }
  }

  lemma SwapInKeepsRecycled(st: St, next: Surface, preserve: bool)
    ensures SwapIn(st, next, preserve).0.chain.recycled == st.chain.recycled
  {
  }

  /** A successful swap goes on with the first surface of the pool that fits, or else with a new one. */
  lemma SwapGoesOnWith(st: St, preserve: bool, creates: bool)
    requires SwapAnswer(st, creates) == Ok(())
    ensures var after := SwapBuffers(st, preserve, creates).0;
            && after.chain.pending == Some(Back(st.chain, st.ctx))
            && after.chain.back.Attached? == st.chain.back.Attached? && Answer(after) == Ok(())
            && Back(after.chain, after.ctx) == Next(st)
  {
    FetchIs(st, creates);
    var (fetched, next) := Fetch(st.(chain := RecyclePending(st.chain)), creates);
    SwapInGoesOnWith(fetched, next.value, preserve);
  }

  lemma SwapInGoesOnWith(st: St, next: Surface, preserve: bool)
    requires Answer(st) == Ok(()) && !(st.chain.back.Attached? && Foreign(st, next))
    ensures var after := SwapIn(st, next, preserve).0;
            && after.chain.pending == Some(Back(st.chain, st.ctx))
            && after.chain.back.Attached? == st.chain.back.Attached? && Answer(after) == Ok(())
            && Back(after.chain, after.ctx) == next
  {
    RenewIs(st, next);
  }

  /** What is left to take after a successful swap, once its frame has been taken. */
  function SecondTake(chain: Chain): Option<Surface> {
    var pool := Pool(chain);
    if !SomeFit(chain) then (if pool == [] then None else Some(pool[|pool| - 1]))
    else if |pool| == 1 then None
    else if FirstFit(chain, |pool| - 2) then Some(pool[|pool| - 1])
    else Some(pool[|pool| - 2])
  }

  lemma TakesTwo(chain: Chain)
    requires chain.pending.Some?
    ensures var (once, first) := TakeSurface(chain);
            && first == chain.pending
            && TakeSurface(once).1 == if chain.recycled == [] then None else Some(chain.recycled[|chain.recycled| - 1])
  {
  }

  lemma LastAfterSwap(st: St, preserve: bool, creates: bool)
    requires st.Valid()
    requires creates || SomeFit(st.chain)
    ensures var after := SwapBuffers(st, preserve, creates).0.chain.recycled;
            SecondTake(st.chain) == if after == [] then None else Some(after[|after| - 1])
  {
    if SomeFit(st.chain) {
      PoolIsRecycled(st.chain);
      SwapOrder(st, preserve, creates, FirstOfSize(Pool(st.chain), st.chain.size));
    } else {
      SwapWithoutFit(st, preserve, creates);
    }
  }

  /** The first surface taken after a successful swap is the one that was drawn to, and the second the
      one that the reordering has left at the end. */
  lemma TakesAfterSwap(st: St, preserve: bool, creates: bool)
    requires SwapAnswer(st, creates) == Ok(())
    ensures var (once, first) := TakeSurface(SwapBuffers(st, preserve, creates).0.chain);
            first == Some(Back(st.chain, st.ctx)) && TakeSurface(once).1 == SecondTake(st.chain)
  {
    SwapGoesOnWith(st, preserve, creates);
    TakesTwo(SwapBuffers(st, preserve, creates).0.chain);
    LastAfterSwap(st, preserve, creates);
  }

  /** Consumers take the pending surface first, and then the last recycled one; `TakePending` hands
      out nothing else, even if there are recycled surfaces. What was taken is not there any more. */
  lemma TakesInOrder(chain: Chain)
    ensures var (after, taken) := TakePending(chain);
            && Pool(chain) == chain.recycled + (if taken.Some? then [taken.value] else [])
            && after.pending.None? && Pool(after) == after.recycled == chain.recycled
            && TakePending(after).1.None?
    ensures var (after, taken) := TakeSurface(chain);
            && Pool(chain) == Pool(after) + (if taken.Some? then [taken.value] else [])
            && (taken.None? <==> Pool(chain) == [])
  {
  }

  // ----- resize

  /** How many surfaces at the front of a list belong to the context. */
  function OwnPrefix(surfaces: seq<Surface>, id: nat): (n: nat)
    ensures n <= |surfaces| && AllOwn(surfaces[..n], id)
    ensures n < |surfaces| ==> surfaces[n].contextId != id
  {
    if surfaces == [] || surfaces[0].contextId != id then 0
    else
      assert surfaces[..1 + OwnPrefix(surfaces[1..], id)] == [surfaces[0]] + surfaces[1..][..OwnPrefix(surfaces[1..], id)];
      1 + OwnPrefix(surfaces[1..], id)
  }

  /** A list is destroyed up to the first surface of another context. */
  function ListFate(surfaces: seq<Surface>, id: nat): Fate {
    var n := OwnPrefix(surfaces, id);
    Fate(multiset(surfaces[..n]), multiset(surfaces[n..]))
  }

  lemma {:induction false} DestroyAllOutcome(dev: Dev, id: nat, surfaces: seq<Surface>)
    ensures DestroyAll(dev, id, surfaces).1 == (if AllOwn(surfaces, id) then Ok(()) else Err(IncompatibleSurface))
    ensures Met(dev, DestroyAll(dev, id, surfaces).0, ListFate(surfaces, id))
    decreases |surfaces|
  {
    if surfaces == [] {
      MetNothing(dev, dev);
    } else if surfaces[0].contextId != id {
      assert surfaces[0..] == surfaces;
      MetDrop(dev, dev.Drop(multiset(surfaces)), multiset(surfaces));
    } else {
      var next := dev.Destroy(surfaces[0]);
      DestroyAllOutcome(next, id, surfaces[1..]);
      ListFateStep(surfaces, id);
      MetBoth(dev, next, DestroyAll(next, id, surfaces[1..]).0, Fate(multiset{surfaces[0]}, multiset{}),
              ListFate(surfaces[1..], id));
    }
  }

  lemma ListFateStep(surfaces: seq<Surface>, id: nat)
    requires surfaces != [] && surfaces[0].contextId == id
    ensures ListFate(surfaces, id) == Both(Fate(multiset{surfaces[0]}, multiset{}), ListFate(surfaces[1..], id))
    ensures AllOwn(surfaces, id) <==> AllOwn(surfaces[1..], id)
  {
    var first, rest := surfaces[0], surfaces[1..];
    var n := OwnPrefix(rest, id);
    SplitStep(first, rest, n);
    assert surfaces == [first] + rest;
    assert OwnPrefix(surfaces, id) == n + 1;
    assert forall i :: 0 < i < |surfaces| ==> surfaces[i] == rest[i - 1];
  }

  lemma SplitStep(first: Surface, rest: seq<Surface>, n: nat)
    requires n <= |rest|
    ensures multiset(([first] + rest)[..n + 1]) == multiset{first} + multiset(rest[..n])
    ensures multiset(([first] + rest)[n + 1..]) == multiset{} + multiset(rest[n..])
  {
    assert ([first] + rest)[..n + 1] == [first] + rest[..n];
    assert ([first] + rest)[n + 1..] == rest[n..];
  }

  function ResizeAnswer(st: St, size: Size, creates: bool): Outcome<()> {
    if !st.Valid() then Err(IncompatibleContext)
    else if size.width < 1 || size.height < 1 then Err(Failed)
    else if !creates then Err(SurfaceCreationFailed)
    else if Answer(st) != Ok(()) then Answer(st)
    else if Foreign(st, Back(st.chain, st.ctx)) || !AllOwn(st.chain.recycled, st.ctx.id) then Err(IncompatibleSurface)
    else Ok(())
  }

  function ResizeFate(st: St, size: Size, creates: bool): Fate {
    if !st.Valid() || size.width < 1 || size.height < 1 || !creates then NOTHING
    else if Answer(st) != Ok(()) then
      Fate(multiset{}, multiset{Surface(|st.dev.born|, size, st.ctx.id, Generic)})
    else if Foreign(st, Back(st.chain, st.ctx)) then Fate(multiset{}, multiset{Back(st.chain, st.ctx)})
    else
      var rest := ListFate(st.chain.recycled, st.ctx.id);
      Both(Fate(multiset{Back(st.chain, st.ctx)}, multiset{}), rest)
  }

  /** The size on record changes exactly when the resize succeeds. */
  lemma ResizeOutcome(st: St, size: Size, creates: bool)
    ensures var (after, r) := Resize(st, size, creates);
            && r == ResizeAnswer(st, size, creates)
            && Met(st.dev, after.dev, ResizeFate(st, size, creates))
            && after.chain.size == (if r.Ok? then size else st.chain.size)
  {
    if !st.Valid() || size.width < 1 || size.height < 1 || !creates {
      MetNothing(st.dev, st.dev);
    } else {
      var s := Surface(|st.dev.born|, size, st.ctx.id, Generic);
      var created := st.(dev := st.dev.(born := st.dev.born + [s]));
      if Answer(st) == Ok(()) {
        RenewIs(created, s);
        DiscardOutcome(WithBack(created, s), Back(st.chain, st.ctx), size);
      } else {
        RenewFails(created, s);
      }
    }
  }

  lemma DiscardOutcome(st: St, oldBack: Surface, size: Size)
    ensures var (after, r) := DiscardOld(st, oldBack, size);
            && r == (if Foreign(st, oldBack) || !AllOwn(st.chain.recycled, st.ctx.id) then Err(IncompatibleSurface)
                     else Ok(()))
            && Met(st.dev, after.dev,
                   if Foreign(st, oldBack) then Fate(multiset{}, multiset{oldBack})
                   else Both(Fate(multiset{oldBack}, multiset{}), ListFate(st.chain.recycled, st.ctx.id)))
            && after.chain.size == (if r.Ok? then size else st.chain.size)
  {
    if Foreign(st, oldBack) {
      MetDrop(st.dev, st.dev.Drop(multiset{oldBack}), multiset{oldBack});
    } else {
      var dev := st.dev.Destroy(oldBack);
      DestroyAllOutcome(dev, st.ctx.id, st.chain.recycled);
      MetBoth(st.dev, dev, DestroyAll(dev, st.ctx.id, st.chain.recycled).0, Fate(multiset{oldBack}, multiset{}),
              ListFate(st.chain.recycled, st.ctx.id));
    }
  }

  // ----- textures

  function TakeTextureAnswer(st: St, current: bool): Outcome<()> {
    if !st.Valid() then Err(IncompatibleContext)
    else if Answer(st) != Ok(()) then Answer(st)
    else if !current then Err(MakeCurrentFailed)
    else if Back(st.chain, st.ctx).kind == Widget then Err(WidgetAttached)
    else Ok(())
  }

  /** A surface of another context that was bound cannot be bound again when the texture fails. */
  function TakeTextureFate(st: St, current: bool): Fate {
    if !st.Valid() || Answer(st) != Ok(()) || TakeTextureAnswer(st, current) == Ok(()) then NOTHING
    else if st.chain.back.Attached? && Foreign(st, Back(st.chain, st.ctx)) then
      Fate(multiset{}, multiset{Back(st.chain, st.ctx)})
    else NOTHING
  }

  lemma TakeTextureOutcome(st: St, current: bool)
    ensures var (after, r) := TakeTexture(st, current);
            && Plain(r) == TakeTextureAnswer(st, current)
            && (r.Ok? ==> r.value == Back(st.chain, st.ctx))
            && Met(st.dev, after.dev, TakeTextureFate(st, current))
  {
    if st.Valid() && Answer(st) == Ok(()) {
      var s := Back(st.chain, st.ctx);
      assert TakeBack(st) == (Lent(st), Ok(s));
      PutBackOutcome(Lent(st), s);
      MetNothing(st.dev, st.dev);
    } else {
      MetNothing(st.dev, st.dev);
    }
  }

  /** The surface goes back to where it was taken from. */
  lemma PutBackOutcome(st: St, s: Surface)
    requires st.chain.back.Taken() && (st.chain.back.TakenAttached? ==> st.ctx.framebuffer.NoFramebuffer?)
    ensures Met(st.dev, ReplaceBack(st, s).0.dev,
                if st.chain.back.TakenAttached? && Foreign(st, s) then Fate(multiset{}, multiset{s}) else NOTHING)
  {
    if st.chain.back.TakenAttached? && Foreign(st, s) {
      MetGiven(st.dev, st.ctx.id, s);
    } else {
      MetNothing(st.dev, st.dev);
    }
  }

  function RecycleTextureAnswer(st: St, s: Surface, current: bool): Outcome<()> {
    if !st.Valid() then Err(IncompatibleContext)
    else if !current then Err(MakeCurrentFailed)
    else if !st.chain.back.Taken() then Err(Failed)
    else if st.chain.back.TakenDetached? then Ok(())
    else if Foreign(st, s) then Err(IncompatibleSurface)
    else if st.ctx.framebuffer.External? then Err(ExternalRenderTarget)
    else if st.ctx.framebuffer.Bound? then Err(SurfaceAlreadyBound)
    else Ok(())
  }

  /** Only a surface that the chain would take, but its context cannot bind, is destroyed. */
  function RecycleTextureFate(st: St, s: Surface, current: bool): Fate {
    if RecycleTextureAnswer(st, s, current) == Ok(()) then NOTHING
    else if st.Valid() && current && st.chain.back.TakenAttached? then Given(st.ctx.id, s)
    else Fate(multiset{}, multiset{s})
  }

  lemma RecycleTextureOutcome(st: St, s: Surface, current: bool)
    ensures var (after, r) := RecycleTexture(st, s, current);
            && r == RecycleTextureAnswer(st, s, current)
            && Met(st.dev, after.dev, RecycleTextureFate(st, s, current))
            && (!r.Ok? ==> after.chain == st.chain && after.ctx == st.ctx)
  {
    if RecycleTextureAnswer(st, s, current) == Ok(()) {
      MetNothing(st.dev, st.dev);
    } else if st.Valid() && current && st.chain.back.TakenAttached? {
      MetGiven(st.dev, st.ctx.id, s);
    } else {
      MetDrop(st.dev, st.dev.Drop(multiset{s}), multiset{s});
    }
  }

  // ----- clear

  function ClearAnswer(st: St): Outcome<()> {
    if !st.Valid() then Err(IncompatibleContext)
    else match st.chain.back
      case TakenDetached => Err(Failed)
      case Detached(s) =>
        if st.ctx.framebuffer.External? then Err(ExternalRenderTarget)
        else if Foreign(st, s) then Err(IncompatibleSurface)
        else if st.ctx.framebuffer.Bound? && Foreign(st, st.ctx.framebuffer.surface) then Err(IncompatibleSurface)
        else Ok(())
      case _ => if st.ctx.framebuffer.Bound? then Ok(()) else Panic
  }

  /** A clear that cannot go on gives up both surfaces. */
  function ClearFate(st: St): Fate {
    if !st.Valid() || !st.chain.back.Detached? || ClearAnswer(st) == Ok(()) then NOTHING
    else
      var s := st.chain.back.surface;
      match st.ctx.framebuffer
      case External => Fate(multiset{}, multiset{s})
      case NoFramebuffer => Given(st.ctx.id, s)
      case Bound(b) => Both(Given(st.ctx.id, s), Given(st.ctx.id, b))
  }

  lemma MetAbandon(dev: Dev, id: nat, s: Surface, other: Option<Surface>)
    ensures Met(dev, Abandon(dev, id, s, other),
                if other.Some? then Both(Given(id, s), Given(id, other.value)) else Given(id, s))
    ensures other.Some? ==> Met(dev, Abandon(dev, id, s, other), Both(Given(id, other.value), Given(id, s)))
  {
    MetGiven(dev, id, s);
    if other.Some? {
      var first := dev.DestroyOrDrop(id, s);
      MetGiven(first, id, other.value);
      MetBoth(dev, first, first.DestroyOrDrop(id, other.value), Given(id, s), Given(id, other.value));
    }
  }

  lemma ClearRefusedOutcome(st: St)
    requires st.Valid() && st.chain.back.Detached?
    requires st.ctx.framebuffer.External? || Foreign(st, st.chain.back.surface)
    ensures var (after, r) := ClearSurface(st);
            r == ClearAnswer(st) && Met(st.dev, after.dev, ClearFate(st))
  {
    var s := st.chain.back.surface;
    match st.ctx.framebuffer
    case External => MetDrop(st.dev, st.dev.Drop(multiset{s}), multiset{s});
    case NoFramebuffer => MetAbandon(st.dev, st.ctx.id, s, None);
    case Bound(b) => MetAbandon(st.dev, st.ctx.id, s, Some(b));
  }

  /** The back buffer has been bound and cleared in the place of `b`. */
  lemma PutBoundBackOutcome(st: St, b: Surface)
    requires st.chain.back.TakenDetached? && st.ctx.framebuffer.Bound? && !Foreign(st, st.ctx.framebuffer.surface)
    ensures var (after, r) := LeaveClear(st, Some(b));
            && r == (if Foreign(st, b) then Err(IncompatibleSurface) else Ok(()))
            && Met(st.dev, after.dev,
                   if Foreign(st, b) then Both(Given(st.ctx.id, st.ctx.framebuffer.surface), Given(st.ctx.id, b))
                   else NOTHING)
  {
    if Foreign(st, b) {
      MetAbandon(st.dev, st.ctx.id, b, Some(st.ctx.framebuffer.surface));
    } else {
      MetNothing(st.dev, st.dev);
    }
  }

  lemma ClearDetachedOutcome(st: St)
    requires st.Valid() && st.chain.back.Detached?
    requires !st.ctx.framebuffer.External? && !Foreign(st, st.chain.back.surface)
    ensures var (after, r) := ClearSurface(st);
            r == ClearAnswer(st) && Met(st.dev, after.dev, ClearFate(st))
  {
    var s := st.chain.back.surface;
    var entered := st.SetBack(TakenDetached).(ctx := st.ctx.(framebuffer := Bound(s)));
    match st.ctx.framebuffer
    case NoFramebuffer =>
      assert EnterClear(st) == (entered, Ok(None));
      MetNothing(st.dev, st.dev);
    case Bound(b) =>
      assert EnterClear(st) == (entered, Ok(Some(b)));
      PutBoundBackOutcome(entered, b);
  }

  lemma ClearOutcome(st: St)
    ensures var (after, r) := ClearSurface(st);
            r == ClearAnswer(st) && Met(st.dev, after.dev, ClearFate(st))
  {
    if !st.Valid() || !st.chain.back.Detached? {
      MetNothing(st.dev, st.dev);
      MetNothing(st.dev, st.dev.Drop(multiset{}));
    } else if st.ctx.framebuffer.External? || Foreign(st, st.chain.back.surface) {
      ClearRefusedOutcome(st);
    } else {
      ClearDetachedOutcome(st);
    }
  }

  // ----- destroy

  function DestroyAnswer(st: St): Outcome<()> {
    if !st.Valid() then Err(IncompatibleContext)
    else if Answer(st) == Panic then Panic
    else if !Destroyable(st) then Err(IncompatibleSurface)
    else Ok(())
  }

  /** The surfaces of a chain in the order of their destruction. */
  function Estate(st: St): seq<Surface> {
    (if st.chain.pending.Some? then [st.chain.pending.value] else [])
    + (if Reclaimed(st).Some? then [Reclaimed(st).value] else [])
    + st.chain.recycled
  }

  function DestroyFate(st: St): Fate {
    if !st.Valid() then NOTHING
    else if Answer(st) == Panic then Fate(multiset{}, OptionOwned(st.chain.pending))
    else ListFate(Estate(st), st.ctx.id)
  }

  lemma DestroyOutcome(st: St)
    ensures var (after, r) := Destroy(st);
            r == DestroyAnswer(st) && Met(st.dev, after.dev, DestroyFate(st))
  {
    if !st.Valid() {
      MetNothing(st.dev, st.dev);
    } else if Answer(st) == Panic {
      DestroyPanics(st);
    } else {
      DestroyIs(st);
      DestroyAllOutcome(st.dev, st.ctx.id, Estate(st));
      DestroyOkIff(st);
    }
  }

  lemma DestroyPanics(st: St)
    requires st.Valid() && Answer(st) == Panic
    ensures Destroy(st).1 == Panic && Met(st.dev, Destroy(st).0.dev, Fate(multiset{}, OptionOwned(st.chain.pending)))
  {
    if st.chain.pending.Some? {
      assert multiset([st.chain.pending.value]) == multiset{st.chain.pending.value};
    }
  }

  lemma DestroyIs(st: St)
    requires st.Valid() && Answer(st) != Panic
    ensures var (after, r) := Destroy(st); (after.dev, r) == DestroyAll(st.dev, st.ctx.id, Estate(st))
  {
    var start := st.(chain := st.chain.(pending := None));
    var front := if st.chain.pending.Some? then [st.chain.pending.value] else [];
    var middle := if Reclaimed(st).Some? then [Reclaimed(st).value] else [];
    var (taken, back) := TakeBack(start);
    assert taken.dev == st.dev && taken.ctx.id == st.ctx.id && taken.chain.recycled == st.chain.recycled;
    assert (if back.Ok? then [back.value] else []) == middle;
    assert Destroy(st) == DestroyOwned(taken, front + middle);
  }

  // ----- attachment

  function TakeAttachmentAnswer(self: Chain, other: Chain, ctx: Ctx): Outcome<()> {
    if self.contextId != ctx.id || other.contextId != ctx.id then Err(IncompatibleContext)
    else
      var first := TakeAnswer(self.back, ctx.framebuffer);
      var second := TakeAnswer(other.back, if self.back.Attached? then NoFramebuffer else ctx.framebuffer);
      if first != Ok(()) then first
      else if second != Ok(()) then second
      else if other.back.Attached? && Back(self, ctx).contextId != ctx.id then Err(IncompatibleSurface)
      else if self.back.Attached? && Back(other, ctx).contextId != ctx.id then Err(IncompatibleSurface)
      else Ok(())
  }

  function TakeAttachmentFate(self: Chain, other: Chain, ctx: Ctx): Fate {
    if self.contextId != ctx.id || other.contextId != ctx.id then NOTHING
    else
      var first := TakeAnswer(self.back, ctx.framebuffer);
      var second := TakeAnswer(other.back, if self.back.Attached? then NoFramebuffer else ctx.framebuffer);
      if first != Ok(()) then NOTHING
      else if second != Ok(()) then Fate(multiset{}, multiset{Back(self, ctx)})
      else if other.back.Attached? && Back(self, ctx).contextId != ctx.id then
        Fate(multiset{}, multiset{Back(self, ctx), Back(other, ctx)})
      else if self.back.Attached? && Back(other, ctx).contextId != ctx.id then
        Fate(multiset{}, multiset{Back(other, ctx)})
      else NOTHING
  }

  /** The first chain's back buffer has been taken. */
  function SelfTaken(self: Chain, ctx: Ctx, dev: Dev): St {
    Lent(St(self, ctx, dev))
  }

  lemma ExchangeOutcome(self: Chain, other: Chain, ctx: Ctx, dev: Dev, mine: Surface, their: Surface)
    requires self.back.Taken() && other.back.Taken() && !(self.back.TakenAttached? && other.back.TakenAttached?)
    requires self.back.TakenAttached? || other.back.TakenAttached? ==> ctx.framebuffer.NoFramebuffer?
    ensures var p := ExchangeBacks(self, other, ctx, dev, mine, their);
            if other.back.TakenAttached? && mine.contextId != ctx.id then
              p.result == Err(IncompatibleSurface) && Met(dev, p.dev, Fate(multiset{}, multiset{mine, their}))
            else if self.back.TakenAttached? && their.contextId != ctx.id then
              p.result == Err(IncompatibleSurface) && Met(dev, p.dev, Fate(multiset{}, multiset{their}))
            else p.result == Ok(()) && Met(dev, p.dev, NOTHING)
  {
  }

  lemma TakeAttachmentOutcome(self: Chain, other: Chain, ctx: Ctx, dev: Dev)
    ensures var p := TakeAttachment(self, other, ctx, dev);
            && p.result == TakeAttachmentAnswer(self, other, ctx)
            && Met(dev, p.dev, TakeAttachmentFate(self, other, ctx))
  {
    MetNothing(dev, dev);
    if self.contextId == ctx.id == other.contextId && TakeAnswer(self.back, ctx.framebuffer) == Ok(()) {
      var st, mine := SelfTaken(self, ctx, dev), Back(self, ctx);
      assert TakeBack(St(self, ctx, dev)) == (st, Ok(mine));
      MetDrop(dev, dev.Drop(multiset{mine}), multiset{mine});
      if TakeAnswer(other.back, st.ctx.framebuffer) == Ok(()) {
        var st', their := SelfTaken(other, st.ctx, dev), Back(other, ctx);
        assert TakeBack(St(other, st.ctx, dev)) == (st', Ok(their));
        ExchangeOutcome(st.chain, st'.chain, st'.ctx, dev, mine, their);
      }
    }
  }
}
