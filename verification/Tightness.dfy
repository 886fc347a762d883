/** The allocation bounds are exact: for every number of surfaces that consumers hold, and any two
    sizes, some legal run reaches them. */
module Tightness {
  import opened Surfaces
  import opened DeviceApi
  import opened ChainSpec
  import opened ChainLaws
  import opened World
  import opened Discipline
  import opened Guarantees
  import opened Frames

  const SWAP := Action.SwapBuffers(0, 0, false, true)

  /** Frames that are all shown and kept. */
  function Fill(n: nat): seq<Action> {
    if n == 0 then [] else Fill(n - 1) + [SWAP, Action.TakeSurface(0)]
  }

  function ReturnAll(n: nat): seq<Action> {
    if n == 0 then [] else [Action.Recycle(0, 0, 0)] + ReturnAll(n - 1)
  }

  function FillRun(n: nat, size: Size): seq<Action> {
    [NewContext(false)] + [Action.CreateDetached(0, size, true)] + Fill(n) + [SWAP]
  }

  function ResizeRun(n: nat, size: Size, size': Size): seq<Action> {
    FillRun(n, size) + [Action.Resize(0, 0, size', true)] + ReturnAll(n) + Fill(n) + [SWAP]
  }

  /** A legal run to a single detached chain, nothing bound, with consumers holding at most `n`. */
  ghost predicate Single(actions: seq<Action>, n: nat, size: Size) {
    && LegalRun(actions) && HoldAtMost(actions, 0, n)
    && var w := After(actions);
    && |w.slots| == 1 && w.ctxs == [Ctx(0, NoFramebuffer)]
    && var slot := w.slots[0];
    && slot.chain.size == size && slot.chain.contextId == 0
    && slot.chain.back.Detached? && slot.chain.back.surface.size == size
    && slot.textures == []
  }

  /** `stale` surfaces of the chain have another size than it, and consumers hold `held` others. */
  ghost predicate Holding(actions: seq<Action>, n: nat, size: Size, stale: nat, held: nat) {
    && Single(actions, n, size)
    && var slot := After(actions).slots[0];
    && |PendingSeq(slot.chain)| + |slot.chain.recycled| == stale
    && (slot.chain.pending.Some? ==> slot.chain.pending.value.size != size)
    && (forall i :: 0 <= i < |slot.chain.recycled| ==> slot.chain.recycled[i].size != size)
    && |slot.held| == held
  }

  ghost predicate HeldHaveSize(actions: seq<Action>, size: Size) {
    forall slot, i :: slot in After(actions).slots && 0 <= i < |slot.held| ==> slot.held[i].size == size
  }

  lemma Extend(actions: seq<Action>, a: Action, n: nat)
    requires LegalRun(actions) && Legal(After(actions), a)
    ensures LegalRun(actions + [a]) && After(actions + [a]) == Apply(After(actions), a)
    ensures var w := Apply(After(actions), a);
            HoldAtMost(actions, 0, n) && (|w.slots| > 0 ==> |w.slots[0].held| <= n) ==> HoldAtMost(actions + [a], 0, n)
  {
    assert (actions + [a])[..|actions|] == actions;
  }

  /** The new frame joins the surfaces in circulation, whose sizes no longer fit, so the next back
      buffer is new. */
  lemma Swap(actions: seq<Action>, n: nat, size: Size, stale: nat, held: nat)
    requires Holding(actions, n, size, stale, held) && held <= n
    ensures Single(actions + [SWAP], n, size)
    ensures var before, slot := After(actions).slots[0], After(actions + [SWAP]).slots[0];
            && slot.held == before.held
            && slot.chain.recycled == RecyclePending(before.chain).recycled
            && slot.chain.pending == Some(before.chain.back.surface)
  {
    LegalRunKeepsInv(actions);
    var w := After(actions);
    ReadyInWorld(w, 0, 0);
    SwapBuffersLaw(View(w, 0, 0), false, true);
    Extend(actions, SWAP, n);
  }

  lemma SwapAndTake(actions: seq<Action>, n: nat, size: Size, stale: nat, held: nat)
    requires Holding(actions, n, size, stale, held) && held < n
    ensures Holding(actions + [SWAP, Action.TakeSurface(0)], n, size, stale, held + 1)
    ensures HeldHaveSize(actions, size) ==> HeldHaveSize(actions + [SWAP, Action.TakeSurface(0)], size)
  {
    Swap(actions, n, size, stale, held);
    Extend(actions + [SWAP], Action.TakeSurface(0), n);
    assert actions + [SWAP, Action.TakeSurface(0)] == actions + [SWAP] + [Action.TakeSurface(0)];
  }

  lemma {:induction false} FillHolds(actions: seq<Action>, n: nat, size: Size, stale: nat, m: nat)
    requires Holding(actions, n, size, stale, 0) && m <= n
    ensures Holding(actions + Fill(m), n, size, stale, m)
    ensures HeldHaveSize(actions + Fill(m), size)
  {
    if m == 0 {
      assert actions + [] == actions;
    } else {
      FillHolds(actions, n, size, stale, m - 1);
      SwapAndTake(actions + Fill(m - 1), n, size, stale, m - 1);
      assert actions + Fill(m) == actions + Fill(m - 1) + [SWAP, Action.TakeSurface(0)];
    }
  }

  lemma ReturnOne(actions: seq<Action>, n: nat, size: Size, heldSize: Size, stale: nat, held: nat)
    requires Holding(actions, n, size, stale, held + 1) && HeldHaveSize(actions, heldSize) && heldSize != size
    ensures Holding(actions + [Action.Recycle(0, 0, 0)], n, size, stale + 1, held)
    ensures HeldHaveSize(actions + [Action.Recycle(0, 0, 0)], heldSize)
  {
    var w := After(actions);
    var slot := w.slots[0];
    var returned := Slot(ChainSpec.Recycle(slot.chain, slot.held[0]), RemoveAt(slot.held, 0), []);
    assert slot in w.slots;
    assert Apply(w, Action.Recycle(0, 0, 0)) == World([returned], w.ctxs, w.dev);
    Extend(actions, Action.Recycle(0, 0, 0), n);
  }

  lemma {:induction false} ReturnHolds(actions: seq<Action>, n: nat, size: Size, heldSize: Size, stale: nat, m: nat)
    requires Holding(actions, n, size, stale, m) && HeldHaveSize(actions, heldSize) && heldSize != size
    ensures Holding(actions + ReturnAll(m), n, size, stale + m, 0)
    decreases m
  {
    if m == 0 {
      assert actions + [] == actions;
    } else {
      var next := actions + [Action.Recycle(0, 0, 0)];
      ReturnOne(actions, n, size, heldSize, stale, m - 1);
      ReturnHolds(next, n, size, heldSize, stale + 1, m - 1);
      Regroup(actions, m);
    }
  }

  lemma Regroup(actions: seq<Action>, m: nat)
    requires m > 0
    ensures actions + ReturnAll(m) == actions + [Action.Recycle(0, 0, 0)] + ReturnAll(m - 1)
  {
    assert ReturnAll(m) == [Action.Recycle(0, 0, 0)] + ReturnAll(m - 1);
  }

  lemma Begin(n: nat, size: Size)
    ensures Holding([NewContext(false)] + [Action.CreateDetached(0, size, true)], n, size, 0, 0)
  {
    assert LegalRun([]) && HoldAtMost([], 0, n);
    Extend([], NewContext(false), n);
    assert [] + [NewContext(false)] == [NewContext(false)];
    Extend([NewContext(false)], Action.CreateDetached(0, size, true), n);
  }

  lemma FillRunHolds(n: nat, size: Size)
    ensures Single(FillRun(n, size), n, size) && HeldHaveSize(FillRun(n, size), size)
    ensures var slot := After(FillRun(n, size)).slots[0];
            && |slot.held| == n && slot.chain.recycled == []
            && slot.chain.pending.Some? && slot.chain.pending.value.size == size
  {
    Begin(n, size);
    var start := [NewContext(false)] + [Action.CreateDetached(0, size, true)];
    FillHolds(start, n, size, 0, n);
    Swap(start + Fill(n), n, size, 0, n);
  }

  /** A run without resizes that ends with `n + 2` live surfaces. */
  lemma FillRunIsTight(n: nat, size: Size)
    ensures var run := FillRun(n, size);
            && LegalRun(run) && HoldAtMost(run, 0, n) && NeverResized(run, 0)
            && |After(run).slots| == 1 && Live(After(run).slots[0]) == n + 2
  {
    FillRunHolds(n, size);
    FillRunNeverResizes(n, size);
  }

  lemma FillRunNeverResizes(n: nat, size: Size)
    ensures NeverResized(FillRun(n, size), 0)
  {
    FillNeverResizes(n);
  }

  lemma {:induction false} FillNeverResizes(n: nat)
    ensures NeverResized(Fill(n), 0)
  {
    if n != 0 {
      FillNeverResizes(n - 1);
    }
  }

  /** After the resize one surface of the old size waits, and consumers hold `n` more. */
  lemma ResizedHolds(n: nat, size: Size, size': Size)
    requires size' != size && size'.width >= 1 && size'.height >= 1
    ensures var run := FillRun(n, size) + [Action.Resize(0, 0, size', true)];
            Holding(run, n, size', 1, n) && HeldHaveSize(run, size)
  {
    var filled := FillRun(n, size);
    FillRunHolds(n, size);
    LegalRunKeepsInv(filled);
    ReadyInWorld(After(filled), 0, 0);
    ResizeLaw(View(After(filled), 0, 0), size', true);
    Extend(filled, Action.Resize(0, 0, size', true), n);
  }

  /** One resize is enough to reach `2n + 3` live surfaces. */
  lemma ResizeRunIsTight(n: nat, size: Size, size': Size)
    requires size' != size && size'.width >= 1 && size'.height >= 1
    ensures var run := ResizeRun(n, size, size');
            && LegalRun(run) && HoldAtMost(run, 0, n)
            && |After(run).slots| == 1 && Live(After(run).slots[0]) == 2 * n + 3
  {
    var resized := FillRun(n, size) + [Action.Resize(0, 0, size', true)];
    ResizedHolds(n, size, size');
    ReturnHolds(resized, n, size', size, 1, n);
    FillHolds(resized + ReturnAll(n), n, size', n + 1, n);
    Swap(resized + ReturnAll(n) + Fill(n), n, size', n + 1, n);
  }
}
