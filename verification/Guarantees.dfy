/** What callers of swap chains can rely on in every legal run. */
module Guarantees {
  import opened Surfaces
  import opened DeviceApi
  import R = Registry
  import S = ChainSpec
  import opened ChainSpec
  import opened Conservation
  import opened Sums
  import opened ChainLaws
  import opened World
  import opened Discipline
  import opened Outcomes

  /** Where the live surfaces are: bound, in a chain, held by a consumer or inside a texture. */
  function LivePlaces(w: World, x: Surface): nat {
    Sum(SlotCounts(w.slots, x)) + Sum(CtxCounts(w.ctxs, x))
  }

  /** A surface that was created is either destroyed, once, or live in exactly one place; none was
      lost. */
  lemma LiveInOnePlace(actions: seq<Action>, x: Surface)
    requires LegalRun(actions) && x in After(actions).dev.born
    ensures var w := After(actions);
            && w.dev.dropped == multiset{}
            && LivePlaces(w, x) + w.dev.destroyed[x] == 1
  {
    LegalRunKeepsInv(actions);
    LinearOwnership(actions, x);
  }

  /** The context of a chain with the attachment has a bound surface iff that chain is attached, and
      no other chain has the attachment. */
  lemma AttachmentIsUnique(actions: seq<Action>, k: nat)
    requires LegalRun(actions) && k < |After(actions).slots| && HasAttachment(After(actions).slots[k])
    ensures var w := After(actions);
            var c := w.slots[k].chain.contextId;
            && c < |w.ctxs|
            && (w.ctxs[c].framebuffer.Bound? <==> w.slots[k].chain.back.Attached?)
            && forall j :: 0 <= j < |w.slots| && w.slots[j].chain.contextId == c && HasAttachment(w.slots[j]) ==> j == k
  {
    LegalRunKeepsInv(actions);
  }

  /** The back buffer, or the texture made from it, has the size on record for the chain, and every
      preserving swap copied between surfaces of equal size. */
  lemma SizesAgree(actions: seq<Action>, k: nat)
    requires LegalRun(actions) && k < |After(actions).slots|
    ensures BackHasSize(After(actions), k)
    ensures var blits := After(actions).dev.blits;
            forall i :: 0 <= i < |blits| ==> blits[i].source.size == blits[i].target.size
  {
    LegalRunKeepsInv(actions);
    SizesInState(After(actions), k);
  }

  ghost predicate BackHasSize(w: World, k: nat)
    requires k < |w.slots|
  {
    var slot := w.slots[k];
    && slot.chain.contextId < |w.ctxs|
    && (slot.chain.back.Attached? ==> w.ctxs[slot.chain.contextId].framebuffer.Bound?)
    && (!slot.chain.back.Taken() ==> Back(slot.chain, w.ctxs[slot.chain.contextId]).size == slot.chain.size)
    && (forall i :: 0 <= i < |slot.textures| ==> slot.textures[i].size == slot.chain.size)
  }

  lemma SizesInState(w: World, k: nat)
    requires Inv(w) && k < |w.slots|
    ensures BackHasSize(w, k)
  {
    assert SlotOk(w.slots[k]);
  }

  // ----- results of calls

  /** What a call on a chain returns; `Ok` stands for any value. */
  function Result(w: World, a: Action): Outcome<()>
    requires InScope(w, a)
  {
    match a
    case CreateAttached(c) => Plain(S.CreateAttached(w.ctxs[c]))
    case CreateDetached(c, size, creates) => Plain(S.CreateDetached(w.dev, w.ctxs[c], size, creates).1)
    case SwapBuffers(k, c, preserve, creates) => S.SwapBuffers(View(w, k, c), preserve, creates).1
    case TakeAttachment(k, c, j) =>
      S.TakeAttachment(w.slots[k].chain, w.slots[j].chain, w.ctxs[c], w.dev).result
    case Resize(k, c, size, creates) => S.Resize(View(w, k, c), size, creates).1
    case TakeTexture(k, c, current) => Plain(S.TakeTexture(View(w, k, c), current).1)
    case RecycleTexture(k, c, from, i, current) =>
      S.RecycleTexture(View(w, k, c), w.slots[from].textures[i], current).1
    case ClearSurface(k, c) => S.ClearSurface(View(w, k, c)).1
    case Destroy(k, c) => S.Destroy(View(w, k, c)).1
    case _ => Ok(())
  }

  /** The errors a legal call can return: a foreign context, a failed creation, a bad size, or a back
      buffer that is out or cannot be a texture. In particular no bind or destroy fails inside. */
  function Expected(w: World, a: Action): Outcome<()>
    requires Legal(w, a)
  {
    match a
    case CreateDetached(_, _, creates) => if creates then Ok(()) else Err(SurfaceCreationFailed)
    case SwapBuffers(k, c, _, creates) =>
      if c != w.slots[k].chain.contextId then Err(IncompatibleContext)
      else if CanSwap(w.slots[k].chain, creates) then Ok(())
      else Err(SurfaceCreationFailed)
    case TakeAttachment(k, c, j) =>
      if c != w.slots[k].chain.contextId || c != w.slots[j].chain.contextId then Err(IncompatibleContext)
      else Ok(())
    case Resize(k, c, size, creates) =>
      if c != w.slots[k].chain.contextId then Err(IncompatibleContext)
      else if size.width < 1 || size.height < 1 then Err(Failed)
      else if creates then Ok(())
      else Err(SurfaceCreationFailed)
    case TakeTexture(k, c, current) =>
      var chain := w.slots[k].chain;
      if c != chain.contextId then Err(IncompatibleContext)
      else if chain.back.Taken() then Err(Failed)
      else if !current then Err(MakeCurrentFailed)
      else if chain.back.Detached? && chain.back.surface.kind == Widget then Err(WidgetAttached)
      else if chain.back.Attached? && w.ctxs[c].framebuffer.Bound?
              && w.ctxs[c].framebuffer.surface.kind == Widget then Err(WidgetAttached)
      else Ok(())
    case ClearSurface(k, c) =>
      if c != w.slots[k].chain.contextId then Err(IncompatibleContext) else Ok(())
    case Destroy(k, c) =>
      if c != w.slots[k].chain.contextId then Err(IncompatibleContext) else Ok(())
    case _ => Ok(())
  }

  lemma CallResult(actions: seq<Action>, a: Action)
    requires LegalRun(actions) && Legal(After(actions), a)
    ensures Result(After(actions), a) == Expected(After(actions), a)
  {
    LegalRunKeepsInv(actions);
    ResultIsExpected(After(actions), a);
  }

  lemma SwapBuffersResult(w: World, k: nat, c: nat, preserve: bool, creates: bool)
    requires Inv(w) && Legal(w, Action.SwapBuffers(k, c, preserve, creates))
    ensures var a := Action.SwapBuffers(k, c, preserve, creates); Result(w, a) == Expected(w, a)
  {
    if c == w.slots[k].chain.contextId {
      ReadyInWorld(w, k, c);
      SwapBuffersLaw(View(w, k, c), preserve, creates);
    }
  }

  lemma ResizeResult(w: World, k: nat, c: nat, size: Size, creates: bool)
    requires Inv(w) && Legal(w, Action.Resize(k, c, size, creates))
    ensures var a := Action.Resize(k, c, size, creates); Result(w, a) == Expected(w, a)
  {
    if c == w.slots[k].chain.contextId {
      ReadyInWorld(w, k, c);
      ResizeLaw(View(w, k, c), size, creates);
    }
  }

  lemma TakeAttachmentResult(w: World, k: nat, c: nat, j: nat)
    requires Inv(w) && Legal(w, Action.TakeAttachment(k, c, j))
    ensures var a := Action.TakeAttachment(k, c, j); Result(w, a) == Expected(w, a)
  {
    if c == w.slots[k].chain.contextId && c == w.slots[j].chain.contextId {
      ReadyInWorld(w, k, c);
      ReadyInWorld(w, j, c);
      TakeAttachmentLaw(w.slots[k].chain, w.slots[j].chain, w.ctxs[c], w.dev);
    }
  }

  lemma TextureResult(w: World, a: Action)
    requires Inv(w) && Legal(w, a) && (a.TakeTexture? || a.RecycleTexture?)
    ensures Result(w, a) == Expected(w, a)
  {
  }

  lemma ClearSurfaceResult(w: World, k: nat, c: nat)
    requires Inv(w) && Legal(w, Action.ClearSurface(k, c))
    ensures var a := Action.ClearSurface(k, c); Result(w, a) == Expected(w, a)
  {
    if c == w.slots[k].chain.contextId {
      ReadyInWorld(w, k, c);
    }
    ClearSurfaceLaw(View(w, k, c));
  }

  lemma DestroyResult(w: World, k: nat, c: nat)
    requires Inv(w) && Legal(w, Action.Destroy(k, c))
    ensures var a := Action.Destroy(k, c); Result(w, a) == Expected(w, a)
  {
    var st := View(w, k, c);
    DestroyOkIff(st);
    if st.Valid() {
      assert SlotOk(w.slots[k]) && Linked(w.slots[k], w.ctxs[c]);
    }
  }

  lemma ResultIsExpected(w: World, a: Action)
    requires Inv(w) && Legal(w, a)
    ensures Result(w, a) == Expected(w, a)
  {
    match a
    case SwapBuffers(k, c, preserve, creates) => SwapBuffersResult(w, k, c, preserve, creates);
    case TakeAttachment(k, c, j) => TakeAttachmentResult(w, k, c, j);
    case Resize(k, c, size, creates) => ResizeResult(w, k, c, size, creates);
    case TakeTexture(_, _, _) => TextureResult(w, a);
    case RecycleTexture(_, _, _, _, _) => TextureResult(w, a);
    case ClearSurface(k, c) => ClearSurfaceResult(w, k, c);
    case Destroy(k, c) => DestroyResult(w, k, c);
    case _ =>
  }

  /** What any call on a chain returns, in any state of the world. */
  function Reply(w: World, a: Action): Outcome<()>
    requires InScope(w, a)
  {
    match a
    case CreateAttached(c) => if w.ctxs[c].framebuffer.Bound? then Ok(()) else Panic
    case CreateDetached(_, _, creates) => if creates then Ok(()) else Err(SurfaceCreationFailed)
    case SwapBuffers(k, c, _, creates) => SwapAnswer(View(w, k, c), creates)
    case TakeAttachment(k, c, j) => TakeAttachmentAnswer(w.slots[k].chain, w.slots[j].chain, w.ctxs[c])
    case Resize(k, c, size, creates) => ResizeAnswer(View(w, k, c), size, creates)
    case TakeTexture(k, c, current) => TakeTextureAnswer(View(w, k, c), current)
    case RecycleTexture(k, c, from, i, current) =>
      RecycleTextureAnswer(View(w, k, c), w.slots[from].textures[i], current)
    case ClearSurface(k, c) => ClearAnswer(View(w, k, c))
    case Destroy(k, c) => DestroyAnswer(View(w, k, c))
    case _ => Ok(())
  }

  /** A call on one chain, or on two. */
  predicate ChainCall(a: Action) {
    || a.SwapBuffers? || a.TakeAttachment? || a.Resize? || a.TakeTexture? || a.RecycleTexture?
    || a.ClearSurface? || a.Destroy? || a.TakeSurface? || a.TakePending? || a.Recycle?
  }

  /** Every call returns what its caller could foresee, legal or not. */
  lemma EveryResult(w: World, a: Action)
    requires InScope(w, a)
    ensures Result(w, a) == Reply(w, a)
  {
    match a
    case SwapBuffers(k, c, preserve, creates) => SwapOutcome(View(w, k, c), preserve, creates);
    case TakeAttachment(k, c, j) => TakeAttachmentReply(w, k, c, j);
    case Resize(k, c, size, creates) => ResizeLosesNothing(View(w, k, c), size, creates);
    case TakeTexture(k, c, current) => TakeTextureOutcome(View(w, k, c), current);
    case RecycleTexture(k, c, from, i, current) =>
      RecycleTextureReply(View(w, k, c), w.slots[from].textures[i], current);
    case ClearSurface(k, c) => ClearOutcome(View(w, k, c));
    case Destroy(k, c) => DestroyLosesNothing(View(w, k, c));
    case _ =>
  }

  /** A call on a chain that drops a surface does not return `Ok`. */
  lemma OkLosesNothing(w: World, a: Action)
    requires InScope(w, a) && ChainCall(a) && Result(w, a) == Ok(())
    ensures Apply(w, a).dev.dropped == w.dev.dropped
  {
    match a
    case SwapBuffers(k, c, preserve, creates) => SwapOutcome(View(w, k, c), preserve, creates);
    case TakeAttachment(k, c, j) => TakeAttachmentReply(w, k, c, j);
    case Resize(k, c, size, creates) => ResizeLosesNothing(View(w, k, c), size, creates);
    case TakeTexture(k, c, current) => TakeTextureOutcome(View(w, k, c), current);
    case RecycleTexture(k, c, from, i, current) =>
      RecycleTextureReply(View(w, k, c), w.slots[from].textures[i], current);
    case ClearSurface(k, c) => ClearOutcome(View(w, k, c));
    case Destroy(k, c) => DestroyLosesNothing(View(w, k, c));
    case _ =>
  }

  lemma TakeAttachmentReply(w: World, k: nat, c: nat, j: nat)
    requires k < |w.slots| && j < |w.slots| && c < |w.ctxs|
    ensures var p := S.TakeAttachment(w.slots[k].chain, w.slots[j].chain, w.ctxs[c], w.dev);
            && p.result == TakeAttachmentAnswer(w.slots[k].chain, w.slots[j].chain, w.ctxs[c])
            && (p.result == Ok(()) ==> p.dev.dropped == w.dev.dropped)
  {
    TakeAttachmentOutcome(w.slots[k].chain, w.slots[j].chain, w.ctxs[c], w.dev);
  }

  lemma RecycleTextureReply(st: St, s: Surface, current: bool)
    ensures var (after, r) := S.RecycleTexture(st, s, current);
            r == RecycleTextureAnswer(st, s, current) && (r == Ok(()) ==> after.dev.dropped == st.dev.dropped)
  {
    RecycleTextureOutcome(st, s, current);
  }

  lemma ResizeLosesNothing(st: St, size: Size, creates: bool)
    ensures S.Resize(st, size, creates).1 == ResizeAnswer(st, size, creates)
    ensures S.Resize(st, size, creates).1 == Ok(()) ==> S.Resize(st, size, creates).0.dev.dropped == st.dev.dropped
  {
    ResizeOutcome(st, size, creates);
    if ResizeAnswer(st, size, creates) == Ok(()) {
      AllOwnFate(st.chain.recycled, st.ctx.id);
    }
  }

  lemma DestroyLosesNothing(st: St)
    ensures S.Destroy(st).1 == DestroyAnswer(st)
    ensures S.Destroy(st).1 == Ok(()) ==> S.Destroy(st).0.dev.dropped == st.dev.dropped
  {
    DestroyOutcome(st);
    if DestroyAnswer(st) == Ok(()) {
      DestroyAllOutcome(st.dev, st.ctx.id, Estate(st));
      DestroyIs(st);
      AllOwnFate(Estate(st), st.ctx.id);
    }
  }

  lemma AllOwnFate(surfaces: seq<Surface>, id: nat)
    requires AllOwn(surfaces, id)
    ensures ListFate(surfaces, id).dropped == multiset{}
  {
    assert OwnPrefix(surfaces, id) == |surfaces|;
  }

  // ----- teardown

  /** Nothing of the chain is left anywhere. */
  predicate Gone(slot: Slot) {
    && slot.chain.back.Taken()
    && slot.chain.pending.None?
    && slot.chain.recycled == []
    && slot.held == []
    && slot.textures == []
  }

  /** Destroying a chain leaves nothing of it except what consumers hold or a texture wraps, and those
      are not touched. */
  lemma DestroyLeavesHeld(actions: seq<Action>, k: nat)
    requires LegalRun(actions) && k < |After(actions).slots|
    ensures var w := After(actions);
            var c := w.slots[k].chain.contextId;
            && c < |w.ctxs|
            && Legal(w, Action.Destroy(k, c))
            && var slot := Apply(w, Action.Destroy(k, c)).slots[k];
            && slot.held == w.slots[k].held && slot.textures == w.slots[k].textures
            && (Gone(slot) <==> w.slots[k].held == [] && w.slots[k].textures == [])
  {
    LegalRunKeepsInv(actions);
    var w := After(actions);
    var st := View(w, k, w.slots[k].chain.contextId);
    if st.chain.back.Taken() {
      DestroyAgainLaw(st);
    } else {
      ReadyInWorld(w, k, w.slots[k].chain.contextId);
      DestroyLaw(st);
    }
  }

  /** Once every chain of a context is gone and nothing is bound to it, all surfaces it ever made
      have been destroyed, each exactly once. */
  lemma Teardown(actions: seq<Action>, c: nat, x: Surface)
    requires LegalRun(actions) && c < |After(actions).ctxs|
    requires forall k :: 0 <= k < |After(actions).slots| && After(actions).slots[k].chain.contextId == c ==>
               Gone(After(actions).slots[k])
    requires !After(actions).ctxs[c].framebuffer.Bound?
    requires x in After(actions).dev.born && x.contextId == c
    ensures After(actions).dev.destroyed[x] == 1
  {
    LegalRunKeepsInv(actions);
    LiveInOnePlace(actions, x);
    var w := After(actions);
    forall k | 0 <= k < |w.slots| ensures InSlot(w.slots[k], x) == 0 {
      ForeignSlot(w.slots[k], x);
    }
    SumOfZeros(SlotCounts(w.slots, x));
    SumOfZeros(CtxCounts(w.ctxs, x));
  }

  lemma ForeignSlot(slot: Slot, x: Surface)
    requires SlotOk(slot) && (slot.chain.contextId == x.contextId ==> Gone(slot))
    ensures InSlot(slot, x) == 0
  {
    if slot.chain.contextId == x.contextId {
      assert slot.held == [] && slot.textures == [] && slot.chain.recycled == [];
    } else {
      assert x !in slot.held && x !in slot.textures && x !in slot.chain.recycled;
    }
  }

  /** In every legal run each chain can be destroyed by its producer. */
  lemma AlwaysDestroyable(actions: seq<Action>, k: nat)
    requires LegalRun(actions) && k < |After(actions).slots|
    ensures var w := After(actions);
            var c := w.slots[k].chain.contextId;
            && c < |w.ctxs| && Destroyable(View(w, k, c))
  {
    LegalRunKeepsInv(actions);
    var c := After(actions).slots[k].chain.contextId;
    CallResult(actions, Action.Destroy(k, c));
    DestroyOkIff(View(After(actions), k, c));
  }

  /** `st` is what the producer of chain `k` finds after a legal run. */
  ghost predicate FoundAfter(st: St, actions: seq<Action>, k: nat) {
    && LegalRun(actions) && k < |After(actions).slots|
    && After(actions).slots[k].chain.contextId < |After(actions).ctxs|
    && st == View(After(actions), k, After(actions).slots[k].chain.contextId)
  }

  /** Chains in the collection are destroyed by their producers, and their callers keep to the rules of
      swap chains. */
  ghost predicate ProducersDestroy(steps: seq<R.Step>) {
    steps == [] ||
    var s, step := R.After(steps[..|steps| - 1]), steps[|steps| - 1];
    && ProducersDestroy(steps[..|steps| - 1])
    && (step.Remove? && step.id in s.tables.table ==>
          s.tables.table[step.id] == step.c && exists actions, k :: FoundAfter(step.st, actions, k))
  }

  /** Then each destruction succeeds, and at the end of an iteration the thread of `c` has found exactly
      the chains of `c`. */
  lemma CollectionIsCoherent(steps: seq<R.Step>, c: nat)
    requires ProducersDestroy(steps)
    ensures R.OwnerRun(steps) && R.Coherent(R.After(steps), c)
    ensures var s := R.After(steps);
            s.Pc(c).Iterating? && s.Pc(c).todo == {} ==> s.Pc(c).found == map id | id in s.tables.ChainsOf(c) :: c
  {
    ProducersAreOwners(steps);
    R.IndexCoherent(steps, c);
    if R.After(steps).Pc(c).Iterating? && R.After(steps).Pc(c).todo == {} {
      R.IterationExact(steps, c);
    }
  }

  lemma {:induction false} ProducersAreOwners(steps: seq<R.Step>)
    requires ProducersDestroy(steps)
    ensures R.OwnerRun(steps)
  {
    if steps != [] {
      var s, step := R.After(steps[..|steps| - 1]), steps[|steps| - 1];
      ProducersAreOwners(steps[..|steps| - 1]);
      if step.Remove? && step.id in s.tables.table {
        var actions, k :| FoundAfter(step.st, actions, k);
        AlwaysDestroyable(actions, k);
      }
    }
  }

  // ----- moving the attachment

  /** A sequence of calls that move the attachment among chains of context `c`. */
  function Exchange(w: World, c: nat, pairs: seq<(nat, nat)>): World
    decreases |pairs|
  {
    if pairs == [] then w
    else
      var a := Action.TakeAttachment(pairs[0].0, c, pairs[0].1);
      Exchange(if InScope(w, a) then Apply(w, a) else w, c, pairs[1..])
  }

  /** Which chain is attached after the calls, if `a` was before. */
  function Follow(a: nat, pairs: seq<(nat, nat)>): nat
    decreases |pairs|
  {
    if pairs == [] then a
    else Follow(Moved(a, pairs[0]), pairs[1..])
  }

  function Moved(a: nat, pair: (nat, nat)): nat {
    if a == pair.0 then pair.1 else if a == pair.1 then pair.0 else a
  }

  /** Chain `k` belongs to context `c` and its back buffer is in place. */
  ghost predicate InPlace(w: World, c: nat, k: nat) {
    && k < |w.slots| && c < |w.ctxs|
    && w.slots[k].chain.contextId == c
    && !w.slots[k].chain.back.Taken()
    && (w.slots[k].chain.back.Attached? ==> w.ctxs[c].framebuffer.Bound?)
  }

  predicate SameButBack(a: Slot, b: Slot) {
    b == a.(chain := a.chain.(back := b.chain.back))
  }

  /** Each chain of the context keeps its own back buffer, and nothing else in the world changes. */
  ghost predicate KeepsBacks(w: World, w': World, c: nat) {
    && |w'.slots| == |w.slots| && |w'.ctxs| == |w.ctxs| && w'.dev == w.dev
    && (forall k: nat :: InPlace(w, c, k) ==>
          InPlace(w', c, k) && Back(w'.slots[k].chain, w'.ctxs[c]) == Back(w.slots[k].chain, w.ctxs[c]))
    && (forall k :: 0 <= k < |w.slots| ==> SameButBack(w.slots[k], w'.slots[k]))
    && (forall d :: 0 <= d < |w.ctxs| && d != c ==> w'.ctxs[d] == w.ctxs[d])
  }

  /** The world after chains `k` and `j` of context `c` have exchanged their attachment states. */
  function Exchanged(w: World, c: nat, k: nat, j: nat): World
    requires InPlace(w, c, k) && InPlace(w, c, j) && j != k
  {
    var self, other := w.slots[k].chain, w.slots[j].chain;
    var mine, theirs := Back(self, w.ctxs[c]), Back(other, w.ctxs[c]);
    World(w.slots[j := w.slots[j].(chain := other.(back := if self.back.Attached? then Attached else Detached(theirs)))]
            [k := w.slots[k].(chain := self.(back := if other.back.Attached? then Attached else Detached(mine)))],
          w.ctxs[c := if other.back.Attached? then w.ctxs[c].(framebuffer := Bound(mine))
                      else if self.back.Attached? then w.ctxs[c].(framebuffer := Bound(theirs)) else w.ctxs[c]],
          w.dev)
  }

  lemma ExchangeApplies(w: World, c: nat, k: nat, j: nat)
    requires Inv(w) && InPlace(w, c, k) && InPlace(w, c, j) && j != k
    ensures Legal(w, Action.TakeAttachment(k, c, j))
    ensures Apply(w, Action.TakeAttachment(k, c, j)) == Exchanged(w, c, k, j)
  {
    ReadyInWorld(w, k, c);
    ReadyInWorld(w, j, c);
    TakeAttachmentLaw(w.slots[k].chain, w.slots[j].chain, w.ctxs[c], w.dev);
  }

  lemma ExchangedKeepsBacks(w: World, c: nat, k: nat, j: nat, a: nat)
    requires Inv(w) && InPlace(w, c, k) && InPlace(w, c, j) && j != k
    requires InPlace(w, c, a) && w.slots[a].chain.back.Attached?
    ensures KeepsBacks(w, Exchanged(w, c, k, j), c)
    ensures Exchanged(w, c, k, j).slots[Moved(a, (k, j))].chain.back.Attached?
  {
    assert HasAttachment(w.slots[a]);
    assert forall i :: 0 <= i < |w.slots| && i != a && w.slots[i].chain.contextId == c ==> !HasAttachment(w.slots[i]);
  }

  lemma AttachmentStep(w: World, c: nat, pair: (nat, nat), a: nat)
    requires Inv(w) && pair.0 != pair.1 && InPlace(w, c, pair.0) && InPlace(w, c, pair.1)
    requires InPlace(w, c, a) && w.slots[a].chain.back.Attached?
    ensures Legal(w, Action.TakeAttachment(pair.0, c, pair.1))
    ensures var w' := Apply(w, Action.TakeAttachment(pair.0, c, pair.1));
            && Inv(w') && KeepsBacks(w, w', c)
            && InPlace(w', c, Moved(a, pair)) && w'.slots[Moved(a, pair)].chain.back.Attached?
  {
    ExchangeApplies(w, c, pair.0, pair.1);
    ExchangedKeepsBacks(w, c, pair.0, pair.1, a);
    TakeAttachmentKeepsInv(w, pair.0, c, pair.1);
  }

  /** Over any number of calls the attachment moves like a token through the pairs of chains: exactly
      the chain that `Follow` names is attached afterwards, and its back buffer is in place. */
  lemma {:induction false} AttachmentMoves(w: World, c: nat, pairs: seq<(nat, nat)>, a: nat)
    requires Inv(w) && InPlace(w, c, a) && w.slots[a].chain.back.Attached?
    requires forall i :: 0 <= i < |pairs| ==>
               pairs[i].0 != pairs[i].1 && InPlace(w, c, pairs[i].0) && InPlace(w, c, pairs[i].1)
    ensures var w' := Exchange(w, c, pairs);
            && Inv(w') && KeepsBacks(w, w', c)
            && InPlace(w', c, Follow(a, pairs))
            && forall k: nat :: InPlace(w', c, k) ==>
                 (w'.slots[k].chain.back.Attached? <==> k == Follow(a, pairs))
    decreases |pairs|
  {
    if pairs != [] {
      AttachmentStep(w, c, pairs[0], a);
      var w' := Apply(w, Action.TakeAttachment(pairs[0].0, c, pairs[0].1));
      AttachmentMoves(w', c, pairs[1..], Moved(a, pairs[0]));
      KeepsBacksTransitive(w, w', Exchange(w, c, pairs), c);
    }
  }

  lemma KeepsBacksTransitive(w: World, w': World, w'': World, c: nat)
    requires KeepsBacks(w, w', c) && KeepsBacks(w', w'', c)
    ensures KeepsBacks(w, w'', c)
  {
    forall k | 0 <= k < |w.slots| ensures SameButBack(w.slots[k], w''.slots[k]) {
      assert SameButBack(w.slots[k], w'.slots[k]) && SameButBack(w'.slots[k], w''.slots[k]);
    }
  }
}
