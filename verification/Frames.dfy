/** What the consumers of one chain see, and how many surfaces the chain needs, in every legal run.
    Other chains, contexts and consumers run freely in between. */
module Frames {
  import opened Surfaces
  import opened DeviceApi
  import S = ChainSpec
  import opened ChainSpec
  import opened Conservation
  import opened ChainLaws
  import opened World
  import opened Discipline
  import opened Guarantees

  // ----- how one action changes one chain

  /** A legal action leaves chain `k`'s queues and its consumers alone unless it is one of the calls
      listed here. */
  predicate Moves(w: World, a: Action, k: nat)
    requires InScope(w, a)
  {
    match a
    case SwapBuffers(j, c, _, _) => j == k && c == w.slots[k].chain.contextId
    case Resize(j, c, _, _) => j == k && c == w.slots[k].chain.contextId
    case Destroy(j, c) => j == k && c == w.slots[k].chain.contextId
    case TakeSurface(j) => j == k
    case TakePending(j) => j == k
    case Recycle(j, _, _) => j == k
    case _ => false
  }

  ghost predicate SameQueues(a: Slot, b: Slot) {
    && b.chain.size == a.chain.size
    && b.chain.pending == a.chain.pending
    && b.chain.recycled == a.chain.recycled
    && b.held == a.held
  }

  lemma OtherActionsKeepQueues(w: World, a: Action, k: nat)
    requires Inv(w) && Legal(w, a) && k < |w.slots| && !Moves(w, a, k)
    ensures k < |Apply(w, a).slots| && SameQueues(w.slots[k], Apply(w, a).slots[k])
  {
    match a
    case TakeAttachment(i, c, j) => TakeAttachmentKeepsQueues(w, i, c, j, k);
    case ClearSurface(i, c) => ClearSurfaceKeepsWorld(w, i, c);
    case TakeTexture(i, c, current) => TakeTextureKeepsQueues(w, i, c, current, k);
    case RecycleTexture(i, c, from, j, current) => RecycleTextureKeepsQueues(w, i, c, from, j, current, k);
    case SwapBuffers(_, _, _, _) => ForeignCallKeepsQueues(w, a, k);
    case Resize(_, _, _, _) => ForeignCallKeepsQueues(w, a, k);
    case Destroy(_, _) => ForeignCallKeepsQueues(w, a, k);
    case TakeSurface(_) => ConsumerElsewhereKeepsQueues(w, a, k);
    case TakePending(_) => ConsumerElsewhereKeepsQueues(w, a, k);
    case Recycle(_, _, _) => ConsumerElsewhereKeepsQueues(w, a, k);
    case RecycleNew(_, _, _, _, _) =>
    case RecycleNewTexture(_, _, _, _, _, _) =>
    case _ => SetupKeepsQueues(w, a, k);
  }

  lemma SetupKeepsQueues(w: World, a: Action, k: nat)
    requires InScope(w, a) && k < |w.slots|
    requires a.NewContext? || a.BindNew? || a.DestroyBound? || a.CreateAttached? || a.CreateDetached?
    ensures k < |Apply(w, a).slots| && SameQueues(w.slots[k], Apply(w, a).slots[k])
  {
    assert k < |Apply(w, a).slots| && Apply(w, a).slots[k] == w.slots[k];
  }

  lemma ConsumerElsewhereKeepsQueues(w: World, a: Action, k: nat)
    requires Legal(w, a) && k < |w.slots| && (a.TakeSurface? || a.TakePending? || a.Recycle?) && a.k != k
    ensures k < |Apply(w, a).slots| && SameQueues(w.slots[k], Apply(w, a).slots[k])
  {
    assert Apply(w, a).slots[k] == w.slots[k];
  }

  lemma TakeAttachmentKeepsQueues(w: World, i: nat, c: nat, j: nat, k: nat)
    requires Inv(w) && Legal(w, Action.TakeAttachment(i, c, j)) && k < |w.slots|
    ensures SameQueues(w.slots[k], Apply(w, Action.TakeAttachment(i, c, j)).slots[k])
  {
    var self, other := w.slots[i].chain, w.slots[j].chain;
    if self.contextId == c && other.contextId == c {
      ReadyInWorld(w, i, c);
      ReadyInWorld(w, j, c);
      TakeAttachmentLaw(self, other, w.ctxs[c], w.dev);
    }
  }

  lemma TakeTextureKeepsQueues(w: World, i: nat, c: nat, current: bool, k: nat)
    requires i < |w.slots| && c < |w.ctxs| && k < |w.slots|
    ensures SameQueues(w.slots[k], Apply(w, Action.TakeTexture(i, c, current)).slots[k])
  {
    var st := View(w, i, c);
    assert S.TakeTexture(st, current).0.chain == st.chain.(back := S.TakeTexture(st, current).0.chain.back);
  }

  lemma RecycleTextureKeepsQueues(w: World, i: nat, c: nat, from: nat, j: nat, current: bool, k: nat)
    requires InScope(w, Action.RecycleTexture(i, c, from, j, current)) && k < |w.slots|
    ensures SameQueues(w.slots[k], Apply(w, Action.RecycleTexture(i, c, from, j, current)).slots[k])
  {
    var st := View(w, i, c);
    var after := S.RecycleTexture(st, w.slots[from].textures[j], current).0;
    assert after.chain == st.chain.(back := after.chain.back);
  }

  /** A call on another chain, or one that the chain rejects. */
  lemma ForeignCallKeepsQueues(w: World, a: Action, k: nat)
    requires Inv(w) && InScope(w, a) && k < |w.slots| && !Moves(w, a, k)
    requires a.SwapBuffers? || a.Resize? || a.Destroy?
    ensures SameQueues(w.slots[k], Apply(w, a).slots[k])
  {
    if a.k == k {
      assert !View(w, k, a.c).Valid();
    }
  }

  // ----- allocation bound

  function Matching(s: seq<Surface>, size: Size): nat {
    if s == [] then 0 else Matching(s[..|s| - 1], size) + if s[|s| - 1].size == size then 1 else 0
  }

  lemma {:induction false} MatchingConcat(s: seq<Surface>, t: seq<Surface>, size: Size)
    ensures Matching(s + t, size) == Matching(s, size) + Matching(t, size)
    ensures Matching(t, size) <= |t|
  {
    if t == [] {
      assert s + t == s;
    } else {
      var last := |t| - 1;
      assert (s + t)[..|s + t| - 1] == s + t[..last];
      MatchingConcat(s, t[..last], size);
    }
  }

  lemma MatchingOne(s: Surface, size: Size)
    ensures Matching([s], size) == if s.size == size then 1 else 0
  {
    assert [s][..0] == [];
  }

  /** Replacing or removing one element changes the count by that element. */
  lemma MatchingSplit(s: seq<Surface>, i: nat, size: Size)
    requires i < |s|
    ensures Matching(s, size) == Matching(s[..i], size) + Matching([s[i]], size) + Matching(s[i + 1..], size)
  {
    assert s == s[..i] + [s[i]] + s[i + 1..];
    MatchingConcat(s[..i] + [s[i]], s[i + 1..], size);
    MatchingConcat(s[..i], [s[i]], size);
  }

  lemma MatchingRemoveAt(s: seq<Surface>, i: nat, size: Size)
    requires i < |s|
    ensures Matching(RemoveAt(s, i), size) + Matching([s[i]], size) == Matching(s, size)
    ensures |RemoveAt(s, i)| + 1 == |s|
  {
    MatchingSplit(s, i, size);
    MatchingConcat(s[..i], s[i + 1..], size);
  }

  lemma MatchingSwapRemove(s: seq<Surface>, i: nat, size: Size)
    requires i < |s|
    ensures Matching(SwapRemove(s, i), size) + Matching([s[i]], size) == Matching(s, size)
    ensures |SwapRemove(s, i)| + 1 == |s|
  {
    var last := s[|s| - 1];
    var moved := s[i := last];
    MatchingSplit(s, i, size);
    MatchingSplit(moved, i, size);
    assert moved[..i] == s[..i] && moved[i + 1..] == s[i + 1..];
    assert moved == SwapRemove(s, i) + [last];
    MatchingConcat(SwapRemove(s, i), [last], size);
  }

  lemma {:induction false} NoneMatching(s: seq<Surface>, size: Size)
    requires forall i :: 0 <= i < |s| ==> s[i].size != size
    ensures Matching(s, size) == 0
  {
    if s != [] {
      NoneMatching(s[..|s| - 1], size);
    }
  }

  function PendingSeq(chain: Chain): seq<Surface> {
    if chain.pending.Some? then [chain.pending.value] else []
  }

  /** The surfaces of a chain other than its back buffer: waiting, recycled or held by consumers. */
  function Circulating(slot: Slot): seq<Surface> {
    PendingSeq(slot.chain) + slot.chain.recycled + slot.held
  }

  /** How many live surfaces the chain and its consumers own. */
  function Live(slot: Slot): nat {
    (if slot.chain.back.Taken() then 0 else 1) + |slot.textures| + |Circulating(slot)|
  }

  function Usable(slot: Slot): nat {
    Matching(Circulating(slot), slot.chain.size)
  }

  function Stale(slot: Slot): int {
    |Circulating(slot)| - Usable(slot)
  }

  /** With at most `n` surfaces in the hands of consumers. */
  ghost predicate Bounded(slot: Slot, n: nat) {
    |slot.held| <= n && Usable(slot) <= n + 1 && Stale(slot) <= n + 1
  }

  lemma UsableParts(slot: Slot)
    ensures Usable(slot) == Matching(PendingSeq(slot.chain), slot.chain.size)
                            + Matching(slot.chain.recycled, slot.chain.size)
                            + Matching(slot.held, slot.chain.size)
    ensures |Circulating(slot)| == |PendingSeq(slot.chain)| + |slot.chain.recycled| + |slot.held|
    ensures Matching(slot.held, slot.chain.size) <= |slot.held|
    ensures Matching(slot.chain.recycled, slot.chain.size) <= |slot.chain.recycled|
    ensures 0 <= Stale(slot)
  {
    MatchingConcat(PendingSeq(slot.chain) + slot.chain.recycled, slot.held, slot.chain.size);
    MatchingConcat(PendingSeq(slot.chain), slot.chain.recycled, slot.chain.size);
    if slot.chain.pending.Some? {
      MatchingOne(slot.chain.pending.value, slot.chain.size);
    }
  }

  /** Recycling the pending surface only moves it. */
  lemma RecyclePendingParts(slot: Slot)
    ensures var after := slot.(chain := RecyclePending(slot.chain));
            && Usable(after) == Usable(slot) && Stale(after) == Stale(slot)
            && |Circulating(after)| == |Circulating(slot)|
  {
    UsableParts(slot);
    UsableParts(slot.(chain := RecyclePending(slot.chain)));
    MatchingConcat(slot.chain.recycled, PendingSeq(slot.chain), slot.chain.size);
  }

  /** A swap creates a surface only if no surface of the chain's size is waiting, so afterwards the
      usable ones are the new pending surface and those held by consumers. */
  lemma SwapBuffersBound(w: World, k: nat, c: nat, preserve: bool, creates: bool, n: nat)
    requires Inv(w) && Legal(w, Action.SwapBuffers(k, c, preserve, creates)) && c == w.slots[k].chain.contextId
    requires |w.slots[k].held| <= n
    ensures var before, after := w.slots[k], Apply(w, Action.SwapBuffers(k, c, preserve, creates)).slots[k];
            && after.held == before.held
            && (Usable(after) == Usable(before) || Usable(after) <= n + 1)
            && Stale(after) == Stale(before)
  {
    var before := w.slots[k];
    var st := View(w, k, c);
    ReadyInWorld(w, k, c);
    SwapBuffersLaw(st, preserve, creates);
    RecyclePendingParts(before);
    if CanSwap(st.chain, creates) {
      var queued := before.(chain := RecyclePending(before.chain));
      var after := Apply(w, Action.SwapBuffers(k, c, preserve, creates)).slots[k];
      assert after.chain.recycled == NextBack(st).1 && after.chain.pending == Some(Back(st.chain, st.ctx));
      SwapParts(queued, after, Back(st.chain, st.ctx), n);
    }
  }

  /** `shown` becomes pending after the first usable surface, if any, has left the queue. */
  lemma SwapParts(queued: Slot, after: Slot, shown: Surface, n: nat)
    requires queued.chain.pending.None? && after.chain.pending == Some(shown)
    requires after.held == queued.held && |after.held| <= n
    requires after.chain.size == queued.chain.size == shown.size
    requires var i := FirstOfSize(queued.chain.recycled, queued.chain.size);
             after.chain.recycled == if i < |queued.chain.recycled| then SwapRemove(queued.chain.recycled, i)
                                     else queued.chain.recycled
    ensures Usable(after) == Usable(queued) || Usable(after) <= n + 1
    ensures Stale(after) == Stale(queued)
  {
    var pool, size := queued.chain.recycled, queued.chain.size;
    var i := FirstOfSize(pool, size);
    UsableParts(queued);
    UsableParts(after);
    MatchingOne(shown, size);
    if i < |pool| {
      MatchingSwapRemove(pool, i, size);
      MatchingOne(pool[i], size);
    } else {
      NoneMatching(pool, size);
    }
  }

  /** After a resize only the pending surface and those held by consumers are left in circulation. */
  lemma ResizeBound(w: World, k: nat, c: nat, size: Size, creates: bool, n: nat)
    requires Inv(w) && Legal(w, Action.Resize(k, c, size, creates)) && c == w.slots[k].chain.contextId
    requires Bounded(w.slots[k], n)
    ensures Bounded(Apply(w, Action.Resize(k, c, size, creates)).slots[k], n)
  {
    var after := Apply(w, Action.Resize(k, c, size, creates)).slots[k];
    ReadyInWorld(w, k, c);
    ResizeLaw(View(w, k, c), size, creates);
    UsableParts(after);
    MatchingConcat([], PendingSeq(after.chain), after.chain.size);
  }

  /** `x` has been handed to a consumer. */
  lemma HandedParts(before: Slot, after: Slot, x: Surface)
    requires after.chain.size == before.chain.size && after.held == before.held + [x]
    requires var size := before.chain.size;
             Matching(PendingSeq(before.chain), size) + Matching(before.chain.recycled, size)
             == Matching(PendingSeq(after.chain), size) + Matching(after.chain.recycled, size) + Matching([x], size)
    requires |PendingSeq(before.chain)| + |before.chain.recycled|
          == |PendingSeq(after.chain)| + |after.chain.recycled| + 1
    ensures Usable(after) == Usable(before) && Stale(after) == Stale(before)
  {
    UsableParts(before);
    UsableParts(after);
    MatchingConcat(before.held, [x], before.chain.size);
  }

  lemma TakePendingParts(slot: Slot)
    requires slot.chain.pending.Some?
    ensures var after := TakeFrom(slot, S.TakePending(slot.chain));
            Usable(after) == Usable(slot) && Stale(after) == Stale(slot)
  {
    HandedParts(slot, TakeFrom(slot, S.TakePending(slot.chain)), slot.chain.pending.value);
  }

  lemma TakeRecycledParts(slot: Slot)
    requires slot.chain.pending.None? && slot.chain.recycled != []
    ensures var after := TakeFrom(slot, S.TakeSurface(slot.chain));
            Usable(after) == Usable(slot) && Stale(after) == Stale(slot)
  {
    var recycled := slot.chain.recycled;
    var last := |recycled| - 1;
    assert recycled == recycled[..last] + [recycled[last]];
    MatchingConcat(recycled[..last], [recycled[last]], slot.chain.size);
    HandedParts(slot, TakeFrom(slot, S.TakeSurface(slot.chain)), recycled[last]);
  }

  lemma TakeNothing(slot: Slot)
    ensures slot.chain.pending.None? ==> TakeFrom(slot, S.TakePending(slot.chain)) == slot
    ensures slot.chain.pending.None? && slot.chain.recycled == [] ==> TakeFrom(slot, S.TakeSurface(slot.chain)) == slot
  {
    assert slot.held + [] == slot.held;
  }

  lemma TakeParts(slot: Slot)
    ensures var after := TakeFrom(slot, S.TakeSurface(slot.chain));
            Usable(after) == Usable(slot) && Stale(after) == Stale(slot)
    ensures var after := TakeFrom(slot, S.TakePending(slot.chain));
            Usable(after) == Usable(slot) && Stale(after) == Stale(slot)
  {
    TakeNothing(slot);
    if slot.chain.pending.Some? {
      TakePendingParts(slot);
      assert S.TakeSurface(slot.chain) == S.TakePending(slot.chain);
    } else if slot.chain.recycled != [] {
      TakeRecycledParts(slot);
    }
  }

  lemma RecycleParts(w: World, k: nat, i: nat)
    requires k < |w.slots| && i < |w.slots[k].held|
    ensures var after := Apply(w, Action.Recycle(k, k, i)).slots[k];
            && Usable(after) == Usable(w.slots[k]) && Stale(after) == Stale(w.slots[k])
            && |after.held| + 1 == |w.slots[k].held|
  {
    var slot, after := w.slots[k], Apply(w, Action.Recycle(k, k, i)).slots[k];
    UsableParts(slot);
    UsableParts(after);
    MatchingRemoveAt(slot.held, i, slot.chain.size);
    MatchingConcat(slot.chain.recycled, [slot.held[i]], slot.chain.size);
  }

  lemma DestroyKeepsBound(w: World, k: nat, c: nat)
    requires Inv(w) && Legal(w, Action.Destroy(k, c)) && c == w.slots[k].chain.contextId
    ensures var before, after := w.slots[k], Apply(w, Action.Destroy(k, c)).slots[k];
            && after.held == before.held && Usable(after) <= Usable(before) && Stale(after) <= Stale(before)
  {
    var before, after := w.slots[k], Apply(w, Action.Destroy(k, c)).slots[k];
    var st := View(w, k, c);
    if st.chain.back.Taken() {
      DestroyAgainLaw(st);
    } else {
      ReadyInWorld(w, k, c);
      DestroyLaw(st);
    }
    UsableParts(before);
    UsableParts(after);
    MatchingConcat([], PendingSeq(before.chain), before.chain.size);
  }

  /** One legal action keeps the bounds, and keeps a chain free of stale surfaces unless it resizes
      that chain. */
  lemma ApplyKeepsBound(w: World, a: Action, k: nat, n: nat)
    requires Inv(w) && Legal(w, a) && k < |w.slots| && Bounded(w.slots[k], n)
    requires k < |Apply(w, a).slots| && |Apply(w, a).slots[k].held| <= n
    ensures Bounded(Apply(w, a).slots[k], n)
    ensures Stale(w.slots[k]) == 0 && !(a.Resize? && a.k == k) ==> Stale(Apply(w, a).slots[k]) == 0
  {
    if !Moves(w, a, k) {
      OtherActionsKeepQueues(w, a, k);
    } else {
      UsableParts(Apply(w, a).slots[k]);
      match a
      case SwapBuffers(_, c, preserve, creates) => SwapBuffersBound(w, k, c, preserve, creates, n);
      case Resize(_, c, size, creates) => ResizeBound(w, k, c, size, creates, n);
      case Destroy(_, c) => DestroyKeepsBound(w, k, c);
      case TakeSurface(_) => TakeParts(w.slots[k]);
      case TakePending(_) => TakeParts(w.slots[k]);
      case Recycle(_, _, i) => RecycleParts(w, k, i);
    }
  }

  /** Consumers of chain `k` never hold more than `n` of its surfaces at once. */
  predicate HoldAtMost(actions: seq<Action>, k: nat, n: nat) {
    var w := After(actions);
    && (k < |w.slots| ==> |w.slots[k].held| <= n)
    && (actions != [] ==> HoldAtMost(actions[..|actions| - 1], k, n))
  }

  predicate NeverResized(actions: seq<Action>, k: nat) {
    forall i :: 0 <= i < |actions| ==> !(actions[i].Resize? && actions[i].k == k)
  }

  lemma NewChainBounded(w: World, a: Action, k: nat, n: nat)
    requires Legal(w, a) && |w.slots| <= k < |Apply(w, a).slots|
    ensures Bounded(Apply(w, a).slots[k], n) && Stale(Apply(w, a).slots[k]) == 0
  {
    assert Circulating(Apply(w, a).slots[k]) == [];
  }

  lemma {:induction false} RunKeepsBound(actions: seq<Action>, k: nat, n: nat)
    requires LegalRun(actions) && HoldAtMost(actions, k, n) && k < |After(actions).slots|
    ensures Bounded(After(actions).slots[k], n)
    ensures NeverResized(actions, k) ==> Stale(After(actions).slots[k]) == 0
  {
    var before := actions[..|actions| - 1];
    var w, a := After(before), actions[|actions| - 1];
    if k < |w.slots| {
      LegalRunKeepsInv(before);
      RunKeepsBound(before, k, n);
      ApplyKeepsBound(w, a, k, n);
    } else {
      NewChainBounded(w, a, k, n);
    }
  }

  /** A chain and its consumers own at most `2n + 3` live surfaces, however often it is resized, and
      at most `n + 2` if it never is. */
  lemma AllocationBound(actions: seq<Action>, k: nat, n: nat)
    requires LegalRun(actions) && HoldAtMost(actions, k, n) && k < |After(actions).slots|
    ensures Live(After(actions).slots[k]) <= 2 * n + 3
    ensures NeverResized(actions, k) ==> Live(After(actions).slots[k]) <= n + 2
  {
    RunKeepsBound(actions, k, n);
    LegalRunKeepsInv(actions);
  }
}
