/** What a consumer sees: the frame that the producer finished last, although taking a recycled
    surface out of the middle of the queue reorders the rest. */
module LatestFrame {
  import opened Surfaces
  import opened DeviceApi
  import S = ChainSpec
  import opened ChainSpec
  import opened Conservation
  import opened Sums
  import opened ChainLaws
  import opened World
  import opened Discipline
  import opened Guarantees
  import opened Frames

  /** Chain `k` of `w` performs the call `a` of its producer. */
  predicate ByProducer(w: World, a: Action, k: nat) {
    && (a.SwapBuffers? || a.Resize? || a.Destroy?)
    && a.k == k && k < |w.slots|
    && a.c == w.slots[k].chain.contextId
  }

  /** The surface presented by the last successful swap of chain `k`, unless a later resize or
      teardown has destroyed it. */
  function Latest(actions: seq<Action>, k: nat): Option<Surface> {
    if actions == [] then None
    else
      var before := actions[..|actions| - 1];
      NextLatest(After(before), actions[|actions| - 1], k, Latest(before, k))
  }

  function NextLatest(w: World, a: Action, k: nat, latest: Option<Surface>): Option<Surface> {
    if !(Legal(w, a) && ByProducer(w, a, k) && Expected(w, a) == Ok(())) then latest
    else if a.SwapBuffers? then BackOf(w.slots[k].chain, w.ctxs[a.c])
    else if latest.Some? && latest.value in w.slots[k].chain.recycled then None
    else if a.Destroy? && latest == w.slots[k].chain.pending then None
    else latest
  }

  function BackOf(chain: Chain, ctx: Ctx): Option<Surface> {
    if chain.back.Detached? then Some(chain.back.surface)
    else if ctx.framebuffer.Bound? then Some(ctx.framebuffer.surface)
    else None
  }

  /** A swap that fails while an unshown frame is waiting and the consumer holds an older one. */
  predicate FailedSwap(w: World, a: Action, k: nat) {
    && a.SwapBuffers? && ByProducer(w, a, k)
    && !CanSwap(w.slots[k].chain, a.creates)
    && w.slots[k].chain.pending.Some?
    && w.slots[k].held != []
  }

  /** One consumer, which returns each surface before it takes the next, while the chain is in use. */
  predicate OneConsumer(w: World, a: Action, k: nat) {
    && ((a.TakeSurface? || a.TakePending?) && a.k == k && k < |w.slots| ==> w.slots[k].held == [])
    && !(a.Destroy? && ByProducer(w, a, k))
  }

  predicate OneConsumerRun(actions: seq<Action>, k: nat) {
    actions == [] ||
    var before := actions[..|actions| - 1];
    OneConsumerRun(before, k) && OneConsumer(After(before), actions[|actions| - 1], k)
  }

  /** No swap of the chain fails at a bad moment. */
  predicate NoFailedSwap(actions: seq<Action>, k: nat) {
    actions == [] ||
    var before := actions[..|actions| - 1];
    NoFailedSwap(before, k) && !FailedSwap(After(before), actions[|actions| - 1], k)
  }

  /** The latest frame is the pending surface; or else it is with the consumer; or else it is at the
      end of the queue, which is empty only if there is no latest frame. */
  ghost predicate Fresh(slot: Slot, latest: Option<Surface>) {
    && |slot.held| <= 1
    && if slot.chain.pending.Some? then latest == slot.chain.pending
       else if slot.held != [] then latest == Some(slot.held[0])
       else if slot.chain.recycled != [] then latest == Some(slot.chain.recycled[|slot.chain.recycled| - 1])
       else latest == None
  }

  lemma ResizeKeepsFresh(slot: Slot, slot': Slot, latest: Option<Surface>)
    requires Fresh(slot, latest)
    requires slot'.chain.pending == slot.chain.pending && slot'.chain.recycled == [] && slot'.held == slot.held
    requires latest.Some? ==> InSlot(slot, latest.value) <= 1
    ensures Fresh(slot', if latest.Some? && latest.value in slot.chain.recycled then None else latest)
  {
    if latest.Some? {
      OnlyOnce(slot, latest.value);
    }
  }

  lemma OnlyOnce(slot: Slot, x: Surface)
    requires InSlot(slot, x) <= 1
    ensures x in slot.chain.recycled ==> x !in slot.held && slot.chain.pending != Some(x)
    ensures x in slot.held ==> slot.chain.pending != Some(x)
  {
    if x in slot.chain.recycled {
      assert InSeq(slot.chain.recycled, x) >= 1;
      assert InSeq(slot.held, x) == 0;
    }
    if x in slot.held {
      assert InSeq(slot.held, x) >= 1;
    }
  }

  lemma OnceInSlot(actions: seq<Action>, k: nat, x: Surface)
    requires k < |After(actions).slots|
    ensures InSlot(After(actions).slots[k], x) <= 1
  {
    LinearOwnership(actions, x);
    AtMostSum(SlotCounts(After(actions).slots, x), k);
  }

  lemma TakeKeepsFresh(slot: Slot, latest: Option<Surface>)
    requires Fresh(slot, latest) && slot.held == []
    ensures Fresh(TakeFrom(slot, S.TakeSurface(slot.chain)), latest)
    ensures Fresh(TakeFrom(slot, S.TakePending(slot.chain)), latest)
  {
  }

  lemma ReturnKeepsFresh(slot: Slot, latest: Option<Surface>)
    requires Fresh(slot, latest) && slot.held != []
    ensures Fresh(slot.(held := [], chain := S.Recycle(slot.chain, slot.held[0])), latest)
  {
  }

  lemma ReturnStepKeepsFresh(w: World, k: nat, i: nat, latest: Option<Surface>)
    requires Legal(w, Action.Recycle(k, k, i)) && Fresh(w.slots[k], latest)
    ensures Fresh(Apply(w, Action.Recycle(k, k, i)).slots[k], latest)
  {
    var slot := w.slots[k];
    assert slot.held == [slot.held[0]] && RemoveAt(slot.held, i) == [];
    ReturnKeepsFresh(slot, latest);
    assert Apply(w, Action.Recycle(k, k, i)).slots[k] == slot.(held := [], chain := S.Recycle(slot.chain, slot.held[0]));
  }

  lemma ConsumerKeepsFresh(w: World, a: Action, k: nat, latest: Option<Surface>)
    requires Legal(w, a) && (a.TakeSurface? || a.TakePending? || a.Recycle?) && a.k == k
    requires Fresh(w.slots[k], latest) && OneConsumer(w, a, k)
    ensures Fresh(Apply(w, a).slots[k], latest)
  {
    if a.Recycle? {
      ReturnStepKeepsFresh(w, k, a.i, latest);
    } else {
      TakeKeepsFresh(w.slots[k], latest);
    }
  }

  /** A swap that fails for want of a surface has only recycled the pending one. */
  lemma FailedSwapMovesPending(w: World, a: Action, k: nat)
    requires Inv(w) && Legal(w, a) && a.SwapBuffers? && ByProducer(w, a, k) && !CanSwap(w.slots[k].chain, a.creates)
    ensures Apply(w, a).slots[k] == w.slots[k].(chain := RecyclePending(w.slots[k].chain))
    ensures Expected(w, a) != Ok(())
  {
    ReadyInWorld(w, k, a.c);
    SwapBuffersLaw(View(w, k, a.c), a.preserve, a.creates);
  }

  lemma RecyclingKeepsFreshIff(slot: Slot, latest: Option<Surface>)
    requires Fresh(slot, latest) && (latest.Some? ==> InSlot(slot, latest.value) <= 1)
    ensures Fresh(slot.(chain := RecyclePending(slot.chain)), latest)
       <==> !(slot.chain.pending.Some? && slot.held != [])
  {
    if slot.held != [] && latest.Some? {
      OnlyOnce(slot, latest.value);
    }
  }

  lemma SuccessfulSwapIsFresh(w: World, a: Action, k: nat, before: Option<Surface>)
    requires Inv(w) && Legal(w, a) && a.SwapBuffers? && ByProducer(w, a, k)
    requires Fresh(w.slots[k], before) && CanSwap(w.slots[k].chain, a.creates)
    ensures Fresh(Apply(w, a).slots[k], NextLatest(w, a, k, before))
  {
    var st := View(w, k, a.c);
    ReadyInWorld(w, k, a.c);
    SwapBuffersLaw(st, a.preserve, a.creates);
    assert Apply(w, a).slots[k].chain.pending == BackOf(st.chain, st.ctx);
  }

  /** Exactly when a swap by the producer keeps track of the latest frame: unless it fails while a frame
      is waiting and the consumer holds an older one. */
  lemma SwapKeepsFreshIff(w: World, a: Action, k: nat, before: Option<Surface>)
    requires Inv(w) && Legal(w, a) && a.SwapBuffers? && ByProducer(w, a, k)
    requires Fresh(w.slots[k], before) && (before.Some? ==> InSlot(w.slots[k], before.value) <= 1)
    ensures Fresh(Apply(w, a).slots[k], NextLatest(w, a, k, before)) <==> !FailedSwap(w, a, k)
  {
    if CanSwap(w.slots[k].chain, a.creates) {
      SuccessfulSwapIsFresh(w, a, k, before);
    } else {
      FailedSwapMovesPending(w, a, k);
      RecyclingKeepsFreshIff(w.slots[k], before);
    }
  }

  /** Otherwise the consumer returns the older surface and is handed it again. */
  lemma FailedSwapShowsOlderFrame(w: World, a: Action, k: nat, latest: Option<Surface>)
    requires Inv(w) && Legal(w, a) && FailedSwap(w, a, k)
    requires Fresh(w.slots[k], latest) && InSlot(w.slots[k], latest.value) <= 1
    ensures var older := w.slots[k].held[0];
            var w' := Apply(w, a);
            && NextLatest(w, a, k, latest) == latest
            && Legal(w', Action.Recycle(k, k, 0))
            && S.TakeSurface(Apply(w', Action.Recycle(k, k, 0)).slots[k].chain).1 == Some(older) != latest
  {
    FailedSwapMovesPending(w, a, k);
    OnlyOnce(w.slots[k], latest.value);
  }

  lemma ResizeStepKeepsFresh(w: World, a: Action, k: nat, before: Option<Surface>)
    requires Inv(w) && Legal(w, a) && a.Resize? && ByProducer(w, a, k)
    requires Fresh(w.slots[k], before) && (before.Some? ==> InSlot(w.slots[k], before.value) <= 1)
    ensures Fresh(Apply(w, a).slots[k], NextLatest(w, a, k, before))
  {
    ReadyInWorld(w, k, a.c);
    ResizeLaw(View(w, k, a.c), a.size, a.creates);
    if Expected(w, a) == Ok(()) {
      ResizeKeepsFresh(w.slots[k], Apply(w, a).slots[k], before);
    }
  }

  lemma OtherActionKeepsFresh(w: World, a: Action, k: nat, before: Option<Surface>)
    requires Inv(w) && Legal(w, a) && k < |w.slots| && !Moves(w, a, k) && Fresh(w.slots[k], before)
    ensures k < |Apply(w, a).slots| && Fresh(Apply(w, a).slots[k], NextLatest(w, a, k, before))
  {
    OtherActionsKeepQueues(w, a, k);
    assert !ByProducer(w, a, k);
  }

  lemma StepKeepsFresh(w: World, a: Action, k: nat, before: Option<Surface>)
    requires Inv(w) && Legal(w, a) && k < |w.slots| && OneConsumer(w, a, k) && !FailedSwap(w, a, k)
    requires Fresh(w.slots[k], before) && (before.Some? ==> InSlot(w.slots[k], before.value) <= 1)
    ensures k < |Apply(w, a).slots| && Fresh(Apply(w, a).slots[k], NextLatest(w, a, k, before))
  {
    if !Moves(w, a, k) {
      OtherActionKeepsFresh(w, a, k, before);
    } else if a.SwapBuffers? {
      SwapKeepsFreshIff(w, a, k, before);
    } else if a.Resize? {
      ResizeStepKeepsFresh(w, a, k, before);
    } else {
      ConsumerKeepsFresh(w, a, k, before);
    }
  }

  lemma NewChainIsFresh(w: World, a: Action, k: nat)
    requires InScope(w, a) && |w.slots| <= k
    ensures NextLatest(w, a, k, None) == None
    ensures k < |Apply(w, a).slots| ==> Fresh(Apply(w, a).slots[k], None)
  {
  }

  lemma {:induction false} RunKeepsFresh(actions: seq<Action>, k: nat)
    requires LegalRun(actions) && OneConsumerRun(actions, k) && NoFailedSwap(actions, k)
    ensures if k < |After(actions).slots| then Fresh(After(actions).slots[k], Latest(actions, k))
            else Latest(actions, k) == None
  {
    if actions != [] {
      var before := actions[..|actions| - 1];
      var w, a := After(before), actions[|actions| - 1];
      RunKeepsFresh(before, k);
      if k < |w.slots| {
        LegalRunKeepsInv(before);
        if Latest(before, k).Some? {
          OnceInSlot(before, k, Latest(before, k).value);
        }
        StepKeepsFresh(w, a, k, Latest(before, k));
      } else {
        NewChainIsFresh(w, a, k);
      }
    }
  }

  /** Whenever the consumer may take a surface, it gets the frame of the latest successful swap; it
      gets none only if there is no such frame left. */
  lemma TakesLatestFrame(actions: seq<Action>, k: nat)
    requires LegalRun(actions) && OneConsumerRun(actions, k) && NoFailedSwap(actions, k)
    requires k < |After(actions).slots| && After(actions).slots[k].held == []
    ensures S.TakeSurface(After(actions).slots[k].chain).1 == Latest(actions, k)
  {
    RunKeepsFresh(actions, k);
  }

  // ----- the frame that nobody has seen

  /** The frame of the last successful swap of chain `k`, if since then no consumer has taken a surface,
      the producer has not swapped in vain, and the chain has not been destroyed. */
  function Unseen(actions: seq<Action>, k: nat): Option<Surface> {
    if actions == [] then None
    else
      var before := actions[..|actions| - 1];
      NextUnseen(After(before), actions[|actions| - 1], k, Unseen(before, k))
  }

  function NextUnseen(w: World, a: Action, k: nat, unseen: Option<Surface>): Option<Surface> {
    if (a.TakeSurface? || a.TakePending?) && a.k == k then None
    else if !(Legal(w, a) && ByProducer(w, a, k)) || a.Resize? then unseen
    else if a.SwapBuffers? && Expected(w, a) == Ok(()) then BackOf(w.slots[k].chain, w.ctxs[a.c])
    else None
  }

  lemma StepKeepsUnseen(w: World, a: Action, k: nat)
    requires Inv(w) && Legal(w, a) && k < |w.slots|
    ensures k < |Apply(w, a).slots|
    ensures Apply(w, a).slots[k].chain.pending == NextUnseen(w, a, k, w.slots[k].chain.pending)
  {
    if !Moves(w, a, k) {
      OtherActionKeepsUnseen(w, a, k);
    } else if a.SwapBuffers? {
      SwapKeepsUnseen(w, a, k);
    } else if a.Resize? {
      ResizeKeepsUnseen(w, a, k);
    } else if a.Destroy? {
      DestroyKeepsUnseen(w, a, k);
    } else {
      ConsumerKeepsUnseen(w, a, k);
    }
  }

  lemma SwapKeepsUnseen(w: World, a: Action, k: nat)
    requires Inv(w) && Legal(w, a) && a.SwapBuffers? && ByProducer(w, a, k)
    ensures Apply(w, a).slots[k].chain.pending == NextUnseen(w, a, k, w.slots[k].chain.pending)
  {
    if CanSwap(w.slots[k].chain, a.creates) {
      SuccessfulSwapIsUnseen(w, a, k);
    } else {
      FailedSwapMovesPending(w, a, k);
    }
  }

  lemma SuccessfulSwapIsUnseen(w: World, a: Action, k: nat)
    requires Inv(w) && Legal(w, a) && a.SwapBuffers? && ByProducer(w, a, k) && CanSwap(w.slots[k].chain, a.creates)
    ensures Apply(w, a).slots[k].chain.pending == BackOf(w.slots[k].chain, w.ctxs[a.c])
    ensures Expected(w, a) == Ok(())
  {
    var st := View(w, k, a.c);
    ReadyInWorld(w, k, a.c);
    SwapBuffersLaw(st, a.preserve, a.creates);
  }

  lemma ResizeKeepsUnseen(w: World, a: Action, k: nat)
    requires Inv(w) && Legal(w, a) && a.Resize? && ByProducer(w, a, k)
    ensures Apply(w, a).slots[k].chain.pending == w.slots[k].chain.pending
  {
    ReadyInWorld(w, k, a.c);
    ResizeLaw(View(w, k, a.c), a.size, a.creates);
  }

  lemma OtherActionKeepsUnseen(w: World, a: Action, k: nat)
    requires Inv(w) && Legal(w, a) && k < |w.slots| && !Moves(w, a, k)
    ensures k < |Apply(w, a).slots| && Apply(w, a).slots[k].chain.pending == w.slots[k].chain.pending
    ensures !ByProducer(w, a, k) && !((a.TakeSurface? || a.TakePending?) && a.k == k)
  {
    OtherActionsKeepQueues(w, a, k);
  }

  lemma DestroyKeepsUnseen(w: World, a: Action, k: nat)
    requires Inv(w) && Legal(w, a) && a.Destroy? && ByProducer(w, a, k)
    ensures Apply(w, a).slots[k].chain.pending == None
  {
    var st := View(w, k, a.c);
    if st.chain.back.Taken() {
      DestroyAgainLaw(st);
    } else {
      ReadyInWorld(w, k, a.c);
      DestroyLaw(st);
    }
  }

  lemma ConsumerKeepsUnseen(w: World, a: Action, k: nat)
    requires Legal(w, a) && (a.TakeSurface? || a.TakePending? || a.Recycle?) && a.k == k
    ensures Apply(w, a).slots[k].chain.pending == NextUnseen(w, a, k, w.slots[k].chain.pending)
  {
  }

  lemma {:induction false} PendingIsUnseen(actions: seq<Action>, k: nat)
    requires LegalRun(actions)
    ensures Unseen(actions, k) == if k < |After(actions).slots| then After(actions).slots[k].chain.pending else None
  {
    if actions != [] {
      var before := actions[..|actions| - 1];
      var w, a := After(before), actions[|actions| - 1];
      PendingIsUnseen(before, k);
      LegalRunKeepsInv(before);
      if k < |w.slots| {
        StepKeepsUnseen(w, a, k);
      } else {
        NewChainIsUnseen(w, a, k);
      }
    }
  }

  lemma NewChainIsUnseen(w: World, a: Action, k: nat)
    requires InScope(w, a) && |w.slots| <= k
    ensures NextUnseen(w, a, k, None) == None
    ensures k < |Apply(w, a).slots| ==> Apply(w, a).slots[k].chain.pending == None
  {
  }

  /** In every legal run, with any number of consumers: `TakePending` returns exactly the frame that
      nobody has seen, and a second call right after it returns none; `TakeSurface` returns that frame
      if there is one. */
  lemma TakesUnseenFrame(actions: seq<Action>, k: nat)
    requires LegalRun(actions) && k < |After(actions).slots|
    ensures var chain := After(actions).slots[k].chain;
            && S.TakePending(chain).1 == Unseen(actions, k)
            && S.TakePending(S.TakePending(chain).0).1 == None
            && (Unseen(actions, k).Some? ==> S.TakeSurface(chain).1 == Unseen(actions, k))
  {
    PendingIsUnseen(actions, k);
  }

  /** For a single consumer that frame is the latest one. */
  lemma TakesPendingLatest(actions: seq<Action>, k: nat)
    requires LegalRun(actions) && OneConsumerRun(actions, k) && NoFailedSwap(actions, k)
    requires k < |After(actions).slots| && After(actions).slots[k].chain.pending.Some?
    ensures S.TakePending(After(actions).slots[k].chain).1 == Latest(actions, k) == Unseen(actions, k)
  {
    RunKeepsFresh(actions, k);
    PendingIsUnseen(actions, k);
  }

  // ----- a chain that is never resized

  lemma {:induction false} HoldsOne(actions: seq<Action>, k: nat)
    requires LegalRun(actions) && OneConsumerRun(actions, k) && NoFailedSwap(actions, k)
    ensures HoldAtMost(actions, k, 1)
  {
    RunKeepsFresh(actions, k);
    if actions != [] {
      HoldsOne(actions[..|actions| - 1], k);
    }
  }

  lemma {:induction false} AllMatch(s: seq<Surface>, size: Size)
    requires Matching(s, size) == |s|
    ensures forall i :: 0 <= i < |s| ==> s[i].size == size
  {
    if s != [] {
      var last := |s| - 1;
      MatchingConcat([], s[..last], size);
      AllMatch(s[..last], size);
    }
  }

  /** A frame that waits still fits, so a swap need not create a surface. */
  lemma WaitingFits(slot: Slot)
    requires Stale(slot) == 0 && slot.chain.pending.Some?
    ensures CanSwap(slot.chain, false)
  {
    AllMatch(Circulating(slot), slot.chain.size);
    assert Circulating(slot)[0] == slot.chain.pending.value;
    var pool := RecyclePending(slot.chain).recycled;
    assert pool[|pool| - 1].size == slot.chain.size;
  }

  lemma {:induction false} UnresizedNeverFails(actions: seq<Action>, k: nat)
    requires LegalRun(actions) && OneConsumerRun(actions, k) && NeverResized(actions, k)
    ensures NoFailedSwap(actions, k)
  {
    if actions != [] {
      var before := actions[..|actions| - 1];
      UnresizedNeverFails(before, k);
      var w := After(before);
      if k < |w.slots| && w.slots[k].chain.pending.Some? {
        HoldsOne(before, k);
        RunKeepsBound(before, k, 1);
        WaitingFits(w.slots[k]);
      }
    }
  }

  /** Without resizes the consumer always gets the latest frame, whichever creations fail. */
  lemma TakesLatestFrameUnresized(actions: seq<Action>, k: nat)
    requires LegalRun(actions) && OneConsumerRun(actions, k) && NeverResized(actions, k)
    requires k < |After(actions).slots| && After(actions).slots[k].held == []
    ensures S.TakeSurface(After(actions).slots[k].chain).1 == Latest(actions, k)
  {
    UnresizedNeverFails(actions, k);
    TakesLatestFrame(actions, k);
  }

  // ----- a run in which the consumer is shown an older frame

  const SMALL := Size(1, 1)
  const LARGE := Size(2, 2)

  function SwapCall(creates: bool): Action {
    Action.SwapBuffers(0, 0, false, creates)
  }

  /** The second frame waits while the consumer still holds the first; a resize and a failed swap
      follow, and the consumer returns the first frame. */
  function UnluckyRun(): seq<Action> {
    [NewContext(false)] + [Action.CreateDetached(0, SMALL, true)] + [SwapCall(true)] + [Action.TakeSurface(0)]
    + [SwapCall(true)] + [Action.Resize(0, 0, LARGE, true)] + [SwapCall(false)] + [Action.Recycle(0, 0, 0)]
  }

  /** A legal run with one consumer to a single detached chain. */
  ghost predicate Reaches(actions: seq<Action>, slot: Slot, created: nat, latest: Option<Surface>) {
    && LegalRun(actions) && OneConsumerRun(actions, 0)
    && var w := After(actions);
    && w.slots == [slot] && w.ctxs == [Ctx(0, NoFramebuffer)] && |w.dev.born| == created
    && Latest(actions, 0) == latest
  }

  lemma Extend(actions: seq<Action>, a: Action)
    requires LegalRun(actions) && OneConsumerRun(actions, 0)
    requires Legal(After(actions), a) && OneConsumer(After(actions), a, 0)
    ensures LegalRun(actions + [a]) && OneConsumerRun(actions + [a], 0)
    ensures After(actions + [a]) == Apply(After(actions), a)
    ensures Latest(actions + [a], 0) == NextLatest(After(actions), a, 0, Latest(actions, 0))
  {
    assert (actions + [a])[..|actions|] == actions;
  }

  function New(id: nat, size: Size): Surface {
    Surface(id, size, 0, Generic)
  }

  lemma Begins()
    ensures Reaches([NewContext(false)] + [Action.CreateDetached(0, SMALL, true)],
                    Slot(Chain(SMALL, 0, Detached(New(0, SMALL)), None, []), [], []), 1, None)
  {
    Extend([], NewContext(false));
    assert [] + [NewContext(false)] == [NewContext(false)];
    Extend([NewContext(false)], Action.CreateDetached(0, SMALL, true));
  }

  lemma Swaps(actions: seq<Action>, back: Surface, held: seq<Surface>, created: nat, latest: Option<Surface>)
    requires Reaches(actions, Slot(Chain(SMALL, 0, Detached(back), None, []), held, []), created, latest)
    ensures Reaches(actions + [SwapCall(true)],
                    Slot(Chain(SMALL, 0, Detached(New(created, SMALL)), Some(back), []), held, []), created + 1, Some(back))
  {
    LegalRunKeepsInv(actions);
    ReadyInWorld(After(actions), 0, 0);
    SwapBuffersLaw(View(After(actions), 0, 0), false, true);
    Extend(actions, SwapCall(true));
  }

  lemma Takes(actions: seq<Action>, back: Surface, frame: Surface, created: nat)
    requires Reaches(actions, Slot(Chain(SMALL, 0, Detached(back), Some(frame), []), [], []), created, Some(frame))
    ensures Reaches(actions + [Action.TakeSurface(0)],
                    Slot(Chain(SMALL, 0, Detached(back), None, []), [frame], []), created, Some(frame))
  {
    assert [] + [frame] == [frame];
    Extend(actions, Action.TakeSurface(0));
  }

  lemma Resizes(actions: seq<Action>, back: Surface, frame: Surface, held: seq<Surface>, created: nat)
    requires Reaches(actions, Slot(Chain(SMALL, 0, Detached(back), Some(frame), []), held, []), created, Some(frame))
    ensures Reaches(actions + [Action.Resize(0, 0, LARGE, true)],
                    Slot(Chain(LARGE, 0, Detached(New(created, LARGE)), Some(frame), []), held, []),
                    created + 1, Some(frame))
  {
    LegalRunKeepsInv(actions);
    ReadyInWorld(After(actions), 0, 0);
    ResizeLaw(View(After(actions), 0, 0), LARGE, true);
    Extend(actions, Action.Resize(0, 0, LARGE, true));
  }

  lemma FailsToSwap(actions: seq<Action>, back: Surface, frame: Surface, held: seq<Surface>, created: nat)
    requires Reaches(actions, Slot(Chain(LARGE, 0, Detached(back), Some(frame), []), held, []), created, Some(frame))
    requires frame.size == SMALL
    ensures Reaches(actions + [SwapCall(false)],
                    Slot(Chain(LARGE, 0, Detached(back), None, [frame]), held, []), created, Some(frame))
  {
    var w := After(actions);
    SwapFails(w, back, frame, held);
    Extend(actions, SwapCall(false));
    LegalRunKeepsInv(actions);
    FailedSwapMovesPending(w, SwapCall(false), 0);
  }

  lemma SwapFails(w: World, back: Surface, frame: Surface, held: seq<Surface>)
    requires w.slots == [Slot(Chain(LARGE, 0, Detached(back), Some(frame), []), held, [])]
    requires w.ctxs == [Ctx(0, NoFramebuffer)] && frame.size == SMALL
    ensures !CanSwap(w.slots[0].chain, false) && RecyclePending(w.slots[0].chain).recycled == [frame]
    ensures var w' := Apply(w, SwapCall(false));
            w'.slots == [Slot(Chain(LARGE, 0, Detached(back), None, [frame]), held, [])]
            && w'.ctxs == w.ctxs && w'.dev == w.dev
  {
    assert [] + [frame] == [frame];
  }

  lemma Returns(actions: seq<Action>, back: Surface, frame: Surface, older: Surface, created: nat)
    requires Reaches(actions, Slot(Chain(LARGE, 0, Detached(back), None, [frame]), [older], []), created, Some(frame))
    ensures Reaches(actions + [Action.Recycle(0, 0, 0)],
                    Slot(Chain(LARGE, 0, Detached(back), None, [frame, older]), [], []), created, Some(frame))
  {
    assert RemoveAt([older], 0) == [];
    assert [frame] + [older] == [frame, older];
    Extend(actions, Action.Recycle(0, 0, 0));
  }

  /** A legal run with one consumer after which the consumer gets the first frame, although the second
      is the latest and has not been destroyed. */
  lemma OlderFrameShown()
    ensures LegalRun(UnluckyRun()) && OneConsumerRun(UnluckyRun(), 0)
    ensures var slots := After(UnluckyRun()).slots;
            var first, second := New(0, SMALL), New(1, SMALL);
            && |slots| == 1 && slots[0].held == []
            && Latest(UnluckyRun(), 0) == Some(second) && second in slots[0].chain.recycled
            && S.TakeSurface(slots[0].chain).1 == Some(first)
  {
    var first, second, third, large := New(0, SMALL), New(1, SMALL), New(2, SMALL), New(3, LARGE);
    Begins();
    var r2 := [NewContext(false)] + [Action.CreateDetached(0, SMALL, true)];
    Swaps(r2, first, [], 1, None);
    var r3 := r2 + [SwapCall(true)];
    Takes(r3, second, first, 2);
    var r4 := r3 + [Action.TakeSurface(0)];
    Swaps(r4, second, [first], 2, Some(first));
    var r5 := r4 + [SwapCall(true)];
    Resizes(r5, third, second, [first], 3);
    var r6 := r5 + [Action.Resize(0, 0, LARGE, true)];
    FailsToSwap(r6, large, second, [first], 4);
    var r7 := r6 + [SwapCall(false)];
    Returns(r7, large, second, first, 4);
  }
}
