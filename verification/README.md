# Swap chains, surfaces and contexts of surfman, in Dafny

surfman manages OpenGL surfaces that several threads share. This project states what its swap-chain
protocol promises and proves it, from the locked record of one chain up to whole interleavings of
producers and consumers, and does the same for the layers below: EGL contexts and their guards, the
OpenGL and EGL objects owned by surfaces, and the keyed mutexes of ANGLE. The two-thread `threads`
example is a protocol of its own and is proved separately.

Verify with `dafny verify dfyconfig.toml`.

## How it is built

Code that changes state in place is written as classes whose methods change the same fields. Each such
method is proved to have exactly the effect and the result of a function on values, on every path
including errors and panics. The promises are then lemmas about these functions, about single calls
and about all runs.

| part | methods | functions | promises |
|---|---|---|---|
| device seen by a chain | `DeviceApi` | `DeviceApi` | |
| one swap chain | `Chains` | `ChainSpec` | `ChainLaws`, `Conservation`, `Outcomes`, `Remains` |
| clearing, with OpenGL state | `Chains`, `Gl` | `Clearing` | `Clearing` |
| many chains, contexts and consumers | | `World` | `World`, `Discipline`, `Guarantees`, `Rules`, `Frames`, `Tightness`, `LatestFrame` |
| the collection of chains | `SwapChains` | `Registry` | `Registry` |
| locks | | `Locks` | `Locks` |
| EGL contexts and guards | `Egl` | `EglSpec` | `EglSafety`, `EglResults`, `Guards` |
| object ledger | `Ledger` | `LedgerSpec` | `LedgerLaws` |
| ANGLE keyed mutexes | `Angle` | `AngleSpec` | `AngleLaws` |
| `threads` example | `PingPong` | `PingPongSpec` | `PingPongSpec` |

A surface carries a serial number, its size, the context that made it and whether it belongs to a
widget. The device keeps lists of the surfaces created, destroyed and dropped; a surface is *dropped*
when it goes out of scope without having been destroyed. Whether a surface can be created, a context
made current, a texture bound and so on are parameters of the calls, so a lemma holds for all answers
of the driver unless it says otherwise: legal runs need the context to be current when a texture goes
back, and the result on keyed mutexes needs textures to be bound successfully.

A run is a sequence of actions, each of them one call under the lock of its chain, by any thread. A
run is *legal* if callers keep to the rules of swap chains (`Discipline.Legal`): one attached chain
per context; no swap, resize, exchange or clear of a chain while its back buffer is out as a texture;
surfaces and textures go back to the chain they came from, textures in a call with the producer's
context that can be made current; no clear while nothing is bound; and client code neither unbinds an
attached chain's surface nor binds its own in the place of one that is out. Calls with a foreign
context are allowed wherever the chain rejects them.

`World.LinearOwnership` needs no rule at all. `Rules.HarmlessIff` gives the exact condition under
which any call leaves the world in order; there is a lemma for each kind of call that can do harm, and
the others, taking surfaces or textures out of a chain and destroying it, never do. The rules imply
this condition, and ask for more in these cases, in which ownership stays in order:

- a surface or texture goes to another chain of the same context where it fits, or client code made it;
- a swap, resize or exchange of a chain whose back buffer is out fails for another reason first;
- an attached chain is created while nothing is bound, which panics, or client code fails to bind;
- a chain whose back buffer is out is cleared, which fails or reaches another surface;
- a detached chain is cleared while nothing is bound and no texture of an attached chain is due, which
  costs the chain its back buffer.

## Where the code differs from what one may expect

The code is modelled as it is. Each of these is stated with the exact condition under which it happens.

- `take_attachment_from` is documented to fail if this chain is attached or the other detached. It
  succeeds and exchanges the states (`ChainLaws.TakeAttachmentLaw`).
- A swap or a resize finds its new surface before it looks at the back buffer, and drops that surface
  if the back buffer is out (`ChainLaws.SwapBuffersDropsIff`, `ChainLaws.ResizeDropsIff`). Moving the
  attachment from a chain whose back buffer is out drops this chain's back buffer
  (`ChainLaws.TakeAttachmentDropsIff`).
- Returning a texture loses its surface if the context cannot be made current: the chain drops the
  texture that comes back with the error (`Rules.RecycleOwnTextureIff`).
- Destroying a generic surface deletes its OpenGL objects in whatever context is current, because
  `destroy_surface` does not make the surface's own context current. In another context this deletes
  objects of the same names there and leaks the surface's own (`LedgerLaws.DestroyKeepsInvIff`,
  `LedgerLaws.DestroyHitsForeignSurface`). This is also how swap chains and `destroy_context` destroy.
- `destroy_surface_texture` is documented to reject a context that did not create the texture. It
  deletes the name in the context passed (`LedgerLaws.UnwrapKeepsInvIff`).
- Clearing a detached chain while nothing is bound reports success and leaves the chain without its
  back buffer (`ChainLaws.ClearSurfaceStrands`); with an external context it drops it
  (`ChainLaws.ClearSurfaceDropsIff`).
- Clearing an attached chain whose back buffer is out, for example one that has been destroyed,
  succeeds if another surface has been bound, and clears that one (`Clearing.ClearReaches`).
- A clear saves the front stencil mask and restores it for both faces (`Clearing.ClearsBackBufferOnly`).
- `create_attached` does not look for another attached chain (`Rules.CreateAttachedIff`).
- `SwapChains::destroy` removes the table entry before the chain can reject the context; a stale id
  then stays listed (`Registry.RemoveKeepsCoherentIff`).
- A swap that fails while a frame is pending and the consumer holds an older one makes the consumer
  see the older one again (`LatestFrame.SwapKeepsFreshIff`, `LatestFrame.OlderFrameShown`).
- Presenting an unbound window surface while nothing is current leaves it current
  (`EglSafety.PresentKeepsInvIff`).
- On ANGLE a texture that could be imported but not bound keeps the mutex held
  (`AngleLaws.CreateTextureKeepsInvIff`).
- Destroying a generic EGL surface twice panics (`LedgerLaws.DestroyPanicsIff`).

## Model

| member | source | states |
|---|---|---|
| `World.LinearOwnership` | src/chains.rs:68-467 | In every interleaving of calls, with any arguments (also surfaces and textures that client code made or took from another chain), errors and panics: a created surface is in exactly one place (bound, in a chain, with a consumer, in a texture, destroyed, or dropped), and anything else is nowhere |
| `World.ApplyConserves` | src/chains.rs:132-348 | One action only adds surfaces it creates, with fresh serial numbers; for every surface the number of places changes by the number of creations |
| `Discipline.LegalRunKeepsInv` | src/chains.rs:68-130 | In every run that follows the rules for callers: contexts and chains agree on what is bound, back buffers have the size on record, at most one chain per context has the attachment, no surface is ever dropped and no fallback destruction happens |
| `Discipline.ApplyKeepsInv` | src/chains.rs:132-348 | Each of the seventeen kinds of legal action keeps that order |
| `Guarantees.LiveInOnePlace` | src/chains.rs:145-225 | In a legal run a created surface is either destroyed, once, or live in exactly one place; none is dropped, also when swaps and resizes fail |
| `Guarantees.AttachmentIsUnique` | src/chains.rs:98-118 | The context of the chain with the attachment has a bound surface iff that chain is attached, and no other chain of the context has the attachment |
| `Guarantees.SizesAgree` | src/chains.rs:194-215 | The back buffer, or the texture made from it, has the recorded size, and every preserving copy had equal source and destination rectangles |
| `Guarantees.CallResult` | src/chains.rs:145-467 | The exact result of every legal call: the only errors are a foreign context, a failed creation, a bad size, and a back buffer that is out or cannot be a texture; no bind, unbind or destroy inside a call fails |
| `Guarantees.EveryResult` | src/chains.rs:145-467 | What every call on a chain returns, in every state of the world, legal or not, in terms of the caller’s view: producer context, back buffer, what is bound, owners of the surfaces, size, and what the driver answers |
| `Guarantees.OkLosesNothing` | src/chains.rs:68-467 | No call on a chain that drops a surface returns success |
| `Guarantees.DestroyLeavesHeld` | src/chains.rs:455-467 | Destroying a chain does not touch what consumers or textures hold, and leaves nothing of the chain iff they hold nothing |
| `Guarantees.Teardown` | src/chains.rs:742-755 | When every chain of a context has been destroyed and its surfaces returned, and nothing is bound, each surface the context ever made has been destroyed exactly once |
| `Guarantees.AlwaysDestroyable` | src/chains.rs:455-467 | In every legal run each chain meets the condition under which its producer can destroy it |
| `Guarantees.CollectionIsCoherent` | src/chains.rs:693-771 | If chains in the collection are destroyed by their producers and callers keep to the rules of swap chains, the two tables agree and every iteration finds exactly the chains of its context |
| `Guarantees.AttachmentMoves` | src/chains.rs:231-248 | Over any sequence of exchanges among the chains of a context that are in place, every chain keeps its own back surface and stays in place, exactly one chain is attached, namely the one that the token has moved to, and nothing else changes |
| `Guarantees.AttachmentStep` | src/chains.rs:231-248 | One exchange in an orderly world is legal, keeps it in order, keeps all back surfaces and moves the attachment as the token moves |
| `Frames.AllocationBound` | src/chains.rs:154-180 | With at most n surfaces in the hands of consumers, a chain and its consumers own at most n + 2 live surfaces in a run without resizes of it, and at most 2n + 3 in any legal run |
| `Frames.SwapBuffersBound` | src/chains.rs:164-180 | A swap either keeps the number of usable surfaces in circulation or leaves at most n + 1, and does not change the number of outdated ones |
| `Frames.ResizeBound` | src/chains.rs:256-282 | A resize keeps the bounds: only the pending surface and those held by consumers stay in circulation |
| `Frames.OtherActionsKeepQueues` | src/chains.rs:145-348 | Any other legal action, by any thread, leaves a chain’s size, pending surface, recycled surfaces and held surfaces alone |
| `Tightness.FillRunIsTight` | src/chains.rs:154-180 | For every n and size there is a legal run without resizes that reaches n + 2 live surfaces |
| `Tightness.ResizeRunIsTight` | src/chains.rs:256-282 | For every n and two different sizes there is a legal run with one resize that reaches 2n + 3 live surfaces |
| `LatestFrame.TakesLatestFrame` | src/chains.rs:317-321 | A single consumer that returns each surface before taking the next always gets the surface of the latest successful swap, and none only if there is no such surface left, despite the reordering of the recycle list, if no swap fails at a bad moment |
| `LatestFrame.TakesLatestFrameUnresized` | src/chains.rs:317-321 | The same for a chain that is never resized, whichever creations fail |
| `LatestFrame.UnresizedNeverFails` | src/chains.rs:164-180 | Without resizes a frame that is pending still fits, so no swap can fail at a bad moment |
| `LatestFrame.TakesUnseenFrame` | src/chains.rs:326-328 | In every legal run, with any number of consumers: taking the pending surface returns exactly the frame of the last successful swap if nobody has taken since and no swap failed since, and a second call right after it returns none; taking a surface returns that frame too if there is one |
| `LatestFrame.TakesPendingLatest` | src/chains.rs:326-328 | For a single consumer with a frame pending, it is the latest frame that is returned |
| `LatestFrame.RunKeepsFresh` | src/chains.rs:164-173 | In every such run the latest frame is pending, or else with the consumer, or else last in the recycle list, which is empty only if there is no latest frame |
| `LatestFrame.ResizeStepKeepsFresh` | src/chains.rs:277-279 | A resize keeps this; the latest frame is gone iff it was among the recycled surfaces that the resize destroyed |
| `LatestFrame.SwapKeepsFreshIff` | src/chains.rs:154-180 | A legal swap by the producer keeps track of the latest frame iff it does not fail while a frame is pending and the consumer holds an older one |
| `LatestFrame.FailedSwapShowsOlderFrame` | src/chains.rs:317-321 | After a swap that fails at such a moment the consumer returns the older surface and is handed it again |
| `LatestFrame.OlderFrameShown` | src/chains.rs:256-282 | A legal run with one consumer that gets there: swap, take, swap, resize, failed swap; the consumer then gets the first frame although the second is the latest and still exists |
| `Rules.HarmlessIff` | src/chains.rs:68-467 | From a world in order, any call with any arguments leaves the world in order iff it is harmless, a condition that can be checked before the call |
| `Rules.AlwaysInOrderIff` | src/chains.rs:68-467 | A run is in order all the time iff each of its calls is harmless |
| `Rules.LegalIsHarmless` | src/chains.rs:68-467 | Calls that follow the rules for callers are harmless |
| `Rules.CreateAttachedIff` | src/chains.rs:587-601 | Creating an attached chain keeps the order iff no chain of the context is attached; the code does not check |
| `Rules.SwapBuffersIff` | src/chains.rs:164-192 | A swap with any context keeps the order iff it is rejected, or the back buffer is in place, or no next surface was found |
| `Rules.ResizeIff` | src/chains.rs:268-275 | A resize with any context keeps the order iff it is rejected, or the back buffer is in place, or no surface was created |
| `Rules.TakeAttachmentIff` | src/chains.rs:237-246 | An exchange with any context keeps the order iff it is rejected or it is not the case that only the other chain’s back buffer is out |
| `Rules.ClearSurfaceIff` | src/chains.rs:371-416 | A clear with any context keeps the order iff it is rejected, or the chain is not detached, or a surface is bound, or nothing is bound and no texture of an attached chain is due back |
| `Rules.RecycleTextureIff` | src/chains.rs:303-312 | A texture taken from any chain may go to any chain in a call with any context iff the call is accepted, the chain’s back buffer is out and no texture of its own is due, the surface fits in context and size, and for an attached chain the context is free and no other chain has the attachment |
| `Rules.RecycleOwnTextureIff` | src/chains.rs:119-129 | To the chain it came from a texture may go back iff the context is the producer’s and can be made current |
| `Rules.RecycleNewIff` | src/chains.rs:332-334 | Client code may give a chain a surface of its own making iff its context is the producer’s |
| `Rules.RecycleNewTextureIff` | src/chains.rs:303-312 | Client code may give a chain a texture of its own making iff the conditions for a texture from another chain hold |
| `Rules.RecycleIff` | src/chains.rs:332-334 | Returning a surface to a chain keeps the order iff the chain it was taken from has the same producer context |
| `Rules.BindNewIff` | src/base/egl/context.rs:228-249 | Client code may bind a surface of its own iff no texture of an attached chain of the context is due back, or nothing is bound by the call |
| `Rules.DestroyBoundIff` | src/base/egl/context.rs:251-274 | Client code may unbind and destroy the bound surface iff no chain of the context is attached |
| `ChainLaws.SwapBuffersLaw` | src/chains.rs:145-225 | A swap on a chain in place presents the old back buffer and continues with the first recycled surface of the right size or a new one; it fails only for want of a surface, and then has only recycled the pending one |
| `ChainLaws.RenewBackLaw` | src/chains.rs:190-192 | Replacing the back buffer succeeds from both states of the chain, returns the old surface and keeps the state |
| `ChainLaws.ResizeLaw` | src/chains.rs:256-282 | A resize destroys exactly the old back buffer and the recycled surfaces and records the size; on a bad size or failed creation nothing changes |
| `ChainLaws.DestroyAllLaw` | src/chains.rs:277-279 | A list of surfaces of the context is destroyed completely, each once |
| `ChainLaws.DestroyLaw` | src/chains.rs:455-467 | Destroying a chain in place destroys its pending surface, back buffer and recycled surfaces, each once, and unbinds an attached back buffer |
| `ChainLaws.DestroyAgainLaw` | src/chains.rs:455-467 | Destroying a chain whose back buffer is out destroys what has been queued since and succeeds |
| `ChainLaws.DestroyTwice` | src/chains.rs:455-467 | A second destroy right after the first changes nothing |
| `ChainLaws.DestroyOkIff` | src/chains.rs:455-467 | From any state, destroying a chain succeeds iff the context is the producer’s, an attached chain does not lack a bound surface, and all surfaces concerned are the context’s own |
| `ChainLaws.TakeTextureLaw` | src/chains.rs:85-97 | Taking the back buffer of a chain in place as a texture succeeds for a generic surface, unbinds it if it was attached, and changes nothing else |
| `ChainLaws.TextureRoundTrip` | src/chains.rs:85-129 | Taking the back buffer as a texture and recycling the texture is the identity on chain, context and device, attached or detached |
| `ChainLaws.TextureRollback` | src/chains.rs:91-96 | A texture that cannot be made leaves chain, context and device as they were and returns the cause |
| `ChainLaws.TakeAttachmentLaw` | src/chains.rs:231-248 | Both chains keep their surfaces and exchange their attachment states, whichever way round; contrary to the comment there, an attached first chain or a detached second one is not rejected |
| `ChainLaws.TakeAttachmentInverse` | src/chains.rs:231-248 | Repeating the call with the chains exchanged restores both chains, the context and the device |
| `ChainLaws.SwapBuffersDropsIff` | src/chains.rs:165-190 | A swap drops a surface iff it found one while the back buffer is out |
| `ChainLaws.ResizeDropsIff` | src/chains.rs:271-273 | A resize drops a surface iff it created one while the back buffer is out |
| `ChainLaws.TakeAttachmentDropsIff` | src/chains.rs:239-240 | An exchange drops a surface iff this chain’s back buffer is in place and the other’s is out |
| `ChainLaws.ClearSurfaceLaw` | src/chains.rs:339-416 | The result of a clear in every state of chain and context, and that it leaves all surfaces where they were iff the chain is not detached or a surface is bound or the call is rejected |
| `ChainLaws.ClearSurfaceStrands` | src/chains.rs:374-406 | With nothing bound, clearing a detached chain returns success but leaves the back buffer bound to the context and the chain without one |
| `ChainLaws.ClearSurfaceDropsIff` | src/chains.rs:374-375 | A clear drops a surface iff the call is accepted, the chain is detached and the context is managed externally |
| `Clearing.ClearsBackBufferOnly` | src/chains.rs:339-442 | With a surface bound: exactly the chain’s back buffer is cleared, once and entirely; chain, context and device end as they were, and so does the OpenGL state iff the two stencil masks were equal |
| `Clearing.ClearReaches` | src/chains.rs:371-404 | Every clear that returns success clears one surface entirely; it is the chain’s back buffer, except that on an attached chain whose back buffer is out it is another surface that has been bound meanwhile |
| `Clearing.FailedClearIsClean` | src/chains.rs:371-389 | A clear of a chain and context in order that does not return success has not touched the OpenGL state |
| `Clearing.FailedClearStaysSet` | src/chains.rs:402-413 | If the surface bound before belongs to another context, the back buffer has been cleared when the clear fails, and what the clear set stays set |
| `Clearing.RefusedClearOnlyUnbinds` | src/chains.rs:375-383 | If the back buffer itself belongs to another context, nothing is cleared, and of the OpenGL state only the bindings of the surface bound before are gone |
| `Clearing.UnboundExactly` | src/gl_utils.rs:28-40 | Unbinding a framebuffer undoes its bindings for drawing and reading, each by itself, and no other |
| `Clearing.ClearBackEffect` | src/chains.rs:339-442 | The clear with its OpenGL state has the same effect on surfaces, and the same result, as the clear without it, on every path |
| `Conservation.SwapBuffersConserves` | src/chains.rs:145-225 | No surface is lost or duplicated by a swap, on any path from any state |
| `Conservation.ResizeConserves` | src/chains.rs:256-282 | The same for a resize |
| `Conservation.TakeAttachmentConserves` | src/chains.rs:231-248 | The same for an exchange between two chains |
| `Conservation.TakeTextureConserves` | src/chains.rs:292-299 | The same for taking the back buffer as a texture, including the rollback |
| `Conservation.RecycleTextureConserves` | src/chains.rs:303-312 | The same for recycling a texture |
| `Conservation.ClearSurfaceConserves` | src/chains.rs:371-416 | The same for a clear |
| `Conservation.DestroyConserves` | src/chains.rs:455-467 | The same for destroying a chain |
| `Conservation.ReplaceBackConserves` | src/chains.rs:98-118 | The same for putting a surface back, which may destroy it instead |
| `Outcomes.SwapOrder` | src/chains.rs:154-171 | Of the recycled surfaces with the pending one behind them, a swap by the producer takes out the first that fits; the last takes its place, and all others stay where they are, whatever becomes of the swap |
| `Outcomes.SwapWithoutFit` | src/chains.rs:154-180 | If none fits, all of them stay in their order |
| `Outcomes.SwapGoesOnWith` | src/chains.rs:164-223 | A successful swap makes the surface it found, or a new one, the back buffer, and the old back buffer pending |
| `Outcomes.TakesAfterSwap` | src/chains.rs:317-321 | After a successful swap a consumer first gets the frame just drawn, and then the surface that the reordering has left last |
| `Outcomes.TakesInOrder` | src/chains.rs:317-334 | Consumers take the pending surface first and then the last recycled one; what is taken is gone; taking the pending surface hands out no recycled one |
| `Outcomes.SwapOutcome` | src/chains.rs:145-225 | From any state, with surfaces of any context: what a swap returns, and exactly which surfaces it drops |
| `Outcomes.ResizeOutcome` | src/chains.rs:256-282 | The same for a resize, with what it destroys; the size on record changes iff it succeeds |
| `Outcomes.TakeTextureOutcome` | src/chains.rs:85-97 | The same for taking the back buffer as a texture |
| `Outcomes.RecycleTextureOutcome` | src/chains.rs:119-129 | The same for recycling a texture; if it fails, chain and context are as before |
| `Outcomes.ClearOutcome` | src/chains.rs:371-416 | The same for a clear, including the surfaces given up when one cannot be bound |
| `Outcomes.DestroyOutcome` | src/chains.rs:455-467 | The same for destroying a chain: surfaces are destroyed in order up to the first of another context, and the rest is dropped |
| `Outcomes.TakeAttachmentOutcome` | src/chains.rs:231-248 | The same for an exchange between two chains |
| `Remains.SwapLeaves` | src/chains.rs:145-225 | From any state: the back buffer, what is bound, and the pending surface after a swap that succeeds, is rejected, finds no surface, cannot take the back buffer or cannot bind the next one |
| `Remains.ResizeLeaves` | src/chains.rs:256-282 | The same for a resize, and whether the recycled surfaces are gone |
| `Remains.TakeTextureLeaves` | src/chains.rs:85-97 | The same for taking the back buffer as a texture |
| `Remains.RecycleTextureLeaves` | src/chains.rs:119-129 | The same for recycling a texture |
| `Remains.ClearLeaves` | src/chains.rs:371-416 | The same for a clear |
| `Remains.DestroyLeaves` | src/chains.rs:455-467 | The same for destroying a chain; after a panic the recycled surfaces are still there |
| `Remains.TakeAttachmentLeaves` | src/chains.rs:231-248 | The same for both chains of an exchange, wherever it stops |
| `Remains.ChainsBegin` | src/chains.rs:587-620 | A new chain belongs to its context, can be drawn to, has the size of its back buffer and nothing to show; its back buffer is what is bound, or a new surface of the size asked for |
| `Chains.SwapChainData.TakeBack` | src/chains.rs:68-84 | The new state and result are those of the specification: the state of the back buffer changes even if unbinding fails, and panics if nothing was bound |
| `Chains.SwapChainData.ReplaceBack` | src/chains.rs:98-118 | The same for putting a surface back, with the destruction of one that cannot be bound |
| `Chains.SwapChainData.Position` | src/chains.rs:165-168 | The index of the first recycled surface of the chain’s size, or the length of the list |
| `Chains.SwapChainData.Fetch` | src/chains.rs:164-180 | A recycled surface of the right size leaves the list, its place taken by the last one; else a surface is created |
| `Chains.SwapChainData.RenewBack` | src/chains.rs:190-192 | Takes the back buffer and puts another surface in its place, with the drops of an early return |
| `Chains.SwapChainData.SwapBuffers` | src/chains.rs:145-225 | New state and result of a swap, on every path |
| `Chains.SwapChainData.TakeAttachmentFrom` | src/chains.rs:231-248 | New states of both chains, context and device, and result, on every path |
| `Chains.SwapChainData.DestroyEach` | src/chains.rs:277-279 | Destroys surfaces in order and drops the rest at the first refusal |
| `Chains.SwapChainData.Resize` | src/chains.rs:256-282 | New state and result of a resize, on every path |
| `Chains.SwapChainData.TakeSurfaceTexture` | src/chains.rs:292-299 | New state and result of taking the back buffer as a texture |
| `Chains.SwapChainData.RecycleSurfaceTexture` | src/chains.rs:303-312 | New state and result of recycling a texture |
| `Chains.SwapChainData.TakeSurface` | src/chains.rs:317-321 | The pending surface, or else the last recycled one, leaves the chain |
| `Chains.SwapChainData.TakePendingSurface` | src/chains.rs:326-328 | The pending surface leaves the chain |
| `Chains.SwapChainData.RecycleSurface` | src/chains.rs:332-334 | The surface becomes the last recycled one |
| `Chains.SwapChainData.EnterClear` | src/chains.rs:371-385 | First part of a clear: state, OpenGL bindings and the surface to put back |
| `Chains.SwapChainData.LeaveClear` | src/chains.rs:406-416 | Last part of a clear, with both fallbacks |
| `Chains.SwapChainData.ClearSurface` | src/chains.rs:339-442 | State, OpenGL state, clears issued and result of a clear, on every path |
| `Chains.SwapChainData.Destroy` | src/chains.rs:455-467 | New state and result of destroying a chain, on every path |
| `Chains.CreateAttached` | src/chains.rs:587-601 | A chain of the bound surface’s size, or a panic if nothing is bound |
| `Chains.CreateDetached` | src/chains.rs:604-620 | A chain around a new surface, or the creation error |
| `DeviceApi.Context.Bind` | src/base/egl/context.rs:228-241 | Binding succeeds iff the surface is the context’s own and nothing is bound; otherwise the error says why and nothing changes |
| `DeviceApi.Context.Unbind` | src/base/egl/context.rs:259-273 | The bound surface, or none, or an error for an external context |
| `DeviceApi.Device.DestroySurface` | src/base/egl/surface.rs:205-213 | A surface is destroyed iff the context is its own; otherwise nothing changes |
| `DeviceApi.Device.CreateSurface` | src/wayland/device.rs:335-352 | A new surface of the context with a fresh serial number, or an error |
| `Registry.IndexComplete` | src/chains.rs:693-755 | In every run, even with destructions through foreign contexts, a chain in the table is listed for its producer or just being created by it |
| `Registry.IndexCoherent` | src/chains.rs:693-755 | If chains are destroyed by their producers while they can be destroyed, the two tables agree for every context up to the call its thread is in |
| `Registry.IterationExact` | src/chains.rs:759-771 | An iteration that looked its ids up one by one, under separate locks, has found exactly the chains that its context produced |
| `Registry.RemoveKeepsCoherentIff` | src/chains.rs:748-755 | The first half of a destruction keeps the tables coherent iff the producer destroys and the chain, as found, can be destroyed; otherwise an id without a table entry stays listed |
| `Registry.StepKeepsCoherent` | src/chains.rs:693-771 | Each locked step by any thread keeps the agreement for every context |
| `Registry.StepKeepsComplete` | src/chains.rs:693-755 | Each locked step, with any arguments, keeps every chain listed |
| `SwapChains.Collection.CreateAttachedSwapChain` | src/chains.rs:693-711 | Rejects a known id; otherwise both tables gain the chain, unless nothing is bound |
| `SwapChains.Collection.CreateDetachedSwapChain` | src/chains.rs:715-737 | Rejects a known id before creating anything; otherwise both tables gain the chain, or nothing changes |
| `SwapChains.Collection.Destroy` | src/chains.rs:742-755 | The entry goes in any case; the id is forgotten iff the chain could be destroyed or was not there |
| `SwapChains.Collection.Iter` | src/chains.rs:759-771 | Exactly the listed chains that are in the table, by a loop of lookups |
| `SwapChains.Collection.Get` | src/chains.rs:784-787 | A chain is returned iff the abstract table has the id, and it is the stored object with the producer recorded there |
| `Locks.NoDeadlock` | src/chains.rs:482-510 | No reachable set of calls in progress contains threads that wait for each other, if attachment is moved between distinct chains and by the one thread that drives their contexts |
| `Locks.SomeCallAdvances` | src/chains.rs:482-510 | As long as a call is in progress, some call in progress can take its next step |
| `Locks.ProgramOrdered` | src/chains.rs:700-786 | Every call acquires ids before table before chain locks, releases what it holds, and holds two chain locks only as their driver |
| `Locks.HoldsTogetherIff` | src/chains.rs:693-787 | Every call takes exactly the locks it needs, and holds two at once iff they are the two chains of an exchange, the table and the chain being destroyed, or the ids and the table in a lookup |
| `Locks.SameChainDeadlocks` | src/chains.rs:508-509 | Naming one chain twice waits for itself |
| `Locks.TwoProducersDeadlock` | src/chains.rs:508-509 | Two threads that move the attachment between the same chains in opposite directions can wait for each other |
| `EglSafety.CurrentSurfaceIsOwn` | src/base/egl/context.rs:198-274 | In every legal run on one thread: a current window surface is not destroyed and is the one bound to the current context, and a current pbuffer is that context’s own (sections 3.7.3 and 3.5.5 of EGL 1.5) |
| `EglSafety.RunKeepsInv` | src/base/egl/context.rs:112-281 | Every legal run keeps contexts, bound and unbound surfaces and the current binding in order |
| `EglSafety.PresentKeepsInvIff` | src/base/egl/surface.rs:257-290 | Presenting an unbound window surface keeps the order iff some context was current; otherwise the surface stays current, and destroying it leaves a destroyed surface current |
| `EglSafety.GuardedWork` | src/wayland/device.rs:203-210 | Work under a guard leaves the binding as it was if something was current, and the working context current otherwise |
| `EglSafety.TargetCanBind` | src/base/egl/context.rs:198-221 | Making a living context current never fails in such a run |
| `EglResults.CallResult` | src/base/egl/context.rs:198-281 | What every call returns in a legal run: presenting a living window surface succeeds iff the buffer swap does, a generic surface is refused, binding fails for a foreign surface, an external context or an occupied one, and no context fails to become current |
| `EglResults.PresentsNoneOfTheDead` | src/base/egl/surface.rs:269-275 | Presenting a destroyed window surface, or through a destroyed context, fails and leaves what was current |
| `EglResults.CurrentIs` | src/base/egl/context.rs:198-274 | What is current after every call in a legal run, in terms of how the context came about: an adopted context with its two surfaces, each on its side; else the bound surface on both; else the pbuffer; nothing attached after unbinding |
| `EglResults.DestroysExactly` | src/base/egl/context.rs:160-182 | Which window surfaces, pbuffers and contexts each call in a legal run destroys; an adopted context is left alone |
| `EglResults.OriginsKept` | src/base/egl/context.rs:112-158 | In a legal run a context stays what it was created or adopted as |
| `EglResults.BindUnbindRoundTrip` | src/base/egl/context.rs:228-274 | A bound surface comes back when it is unbound and the context is as before; a refused bind changes nothing |
| `Guards.ScopesRestore` | src/base/egl/context.rs:64-101 | Any number of guarded scopes, nested to any depth, with bindings changed and surfaces, pbuffers and contexts destroyed inside, restore display, both surfaces and context, if these are not destroyed meanwhile |
| `Guards.ScopeRestoresIff` | src/base/egl/context.rs:77-101 | One scope restores the binding iff what was saved is still alive, or nothing was current before and nothing is after |
| `Egl.CurrentContextGuard.Drop` | src/base/egl/context.rs:77-101 | The binding after the end of a guard |
| `Egl.EGLBackedContext.New` | src/base/egl/context.rs:113-142 | A new context owns its EGL context and perhaps a pbuffer and has nothing bound |
| `Egl.EGLBackedContext.FromNativeContext` | src/base/egl/context.rs:144-158 | An adopted context is external, not owned and without pbuffer |
| `Egl.EGLBackedContext.MakeCurrent` | src/base/egl/context.rs:198-221 | What becomes current for each kind of framebuffer |
| `Egl.EGLBackedContext.BindSurface` | src/base/egl/context.rs:228-249 | Binding, and switching to the surface if the context is current |
| `Egl.EGLBackedContext.UnbindSurface` | src/base/egl/context.rs:251-274 | Unbinding; a current context stays current without a surface |
| `Egl.EGLBackedContext.Present` | src/base/egl/surface.rs:257-290 | The binding and result of presenting a surface under a guard |
| `Egl.EGLBackedContext.PresentBoundSurface` | src/base/egl/context.rs:276-281 | Presents the bound surface, if any |
| `Egl.EGLBackedContext.Destroy` | src/base/egl/context.rs:160-182 | Destroys the pbuffer, makes nothing current, and destroys an owned context |
| `LedgerLaws.LedgerBalances` | src/base/egl/surface.rs:75-254 | In every legal run with any number of contexts, sharing or not: each existing object has exactly one owner and no owner has a missing one; nothing is deleted twice, no deleted framebuffer is bound in any context, and the drop check of renderbuffers never fires |
| `LedgerLaws.NothingLeaks` | src/base/egl/surface.rs:205-254 | When in such a run every surface has been destroyed, no object exists |
| `LedgerLaws.DestroyKeepsInvIff` | src/wayland/device.rs:412-427 | A destroy keeps the ledger iff the surface is a window surface or already destroyed, or the call is rejected, or the surface’s context is current; the code does not make it current |
| `LedgerLaws.UnwrapKeepsInvIff` | src/wayland/device.rs:436-445 | Destroying a surface texture keeps the ledger iff the context passed shares with the one the texture was created in; the code does not check |
| `LedgerLaws.DestroyHitsForeignSurface` | src/base/egl/surface.rs:216-238 | A run of four calls after which destroying one surface deletes the objects of another context’s surface and leaks its own |
| `LedgerLaws.DestroyElsewhereLeaks` | src/base/egl/surface.rs:223-238 | While another context or none is current, a destroy reports success and loses the name of a framebuffer that still exists |
| `LedgerLaws.DestroyLaw` | src/base/egl/surface.rs:215-239 | While its context is current, destroying a surface deletes exactly the objects it owns, each once, and unbinds framebuffers |
| `LedgerLaws.DestroyWindowLaw` | src/base/egl/surface.rs:240-251 | Destroying a window surface deletes exactly its window surface, whatever is current |
| `LedgerLaws.CreateGenericLaw` | src/wayland/device.rs:335-352 | Whatever was current, a new surface owns exactly the objects its creation added in its context, its framebuffer is left bound there, and the guard restores what was current |
| `LedgerLaws.NewWindowLaw` | src/base/egl/surface.rs:158-185 | A new window surface belongs to its context, owns exactly the window surface that came to exist, and leaves OpenGL alone |
| `LedgerLaws.MisdeletionIsNoticed` | src/base/egl/surface.rs:223-235 | A new object can be deleted once; a second deletion, or one without a current context, deletes nothing and is counted |
| `LedgerLaws.AttachmentsAsAsked` | src/renderbuffers.rs:38-88 | A new surface has a depth buffer iff depth was asked for and a stencil buffer iff stencil was, one combined renderbuffer iff both were, each existing in the share group of its context |
| `LedgerLaws.DestroyReturns` | src/base/egl/surface.rs:205-254 | What destroying a surface returns in every state, that a rejected call changes nothing, and when the surface counts as destroyed |
| `LedgerLaws.UnbindsOnly` | src/gl_utils.rs:28-40 | Only bindings of the given framebuffer in the current context are undone |
| `LedgerLaws.DestroysFramebuffer` | src/gl_utils.rs:43-48 | A framebuffer of the current context is afterwards neither bound nor in existence |
| `LedgerLaws.SharesAsAsked` | src/base/egl/context.rs:113-142 | In every run a new context shares names with the context it was asked to share with and its group, and with no other, and it becomes current |
| `LedgerLaws.DestroyPanicsIff` | src/base/egl/surface.rs:229-231 | Destroying panics iff it is a second time, with the right context, on a generic surface |
| `LedgerLaws.DropPanicsIff` | src/renderbuffers.rs:20-35 | Dropping a new surface panics iff it has depth or stencil buffers; after a destroy it does not, unless the destroy was refused |
| `Ledger.Renderbuffers.constructor` | src/renderbuffers.rs:38-88 | Which renderbuffers exist for each choice of depth and stencil, in the current context |
| `Ledger.Renderbuffers.Destroy` | src/renderbuffers.rs:128-151 | Deletes the renderbuffers once, after which they can be dropped |
| `Ledger.EGLBackedSurface.NewGeneric` | src/base/egl/surface.rs:75-156 | Objects created for a generic surface |
| `Ledger.EGLBackedSurface.NewWindow` | src/base/egl/surface.rs:158-185 | Objects created for a window surface |
| `Ledger.EGLBackedSurface.Destroy` | src/base/egl/surface.rs:205-254 | Objects deleted in whatever context is current, handles emptied and result, on every path |
| `Ledger.EGLBackedSurface.ToSurfaceTexture` | src/base/egl/surface.rs:187-203 | A new texture for a generic surface, an error for a window surface |
| `Ledger.CreateGenericSurface` | src/wayland/device.rs:335-352 | Creation under a guard with the surface’s context current |
| `Ledger.CreateSurfaceTexture` | src/wayland/device.rs:389-403 | A texture created under a guard with the given context current |
| `Ledger.DestroySurfaceTexture` | src/wayland/device.rs:436-445 | The texture’s name is deleted with the given context current |
| `Ledger.GlTables.CreateAndBindFramebuffer` | src/gl_utils.rs:9-26 | The new framebuffer is bound |
| `Ledger.GlTables.UnbindFramebufferIfNecessary` | src/gl_utils.rs:28-40 | Unbinds the framebuffer from the targets it is bound to, and only from these |
| `Ledger.GlTables.DestroyFramebuffer` | src/gl_utils.rs:43-48 | Unbinds before deleting |
| `AngleLaws.MutexFollowsOwner` | src/angle/device.rs:571-650 | If binding an imported surface to a texture never fails: in every run a keyed mutex is held iff its surface is bound or in a texture, no acquisition meets a held mutex and no release an unheld one |
| `AngleLaws.CreateTextureKeepsInvIff` | src/angle/device.rs:971-987 | Making a texture keeps this iff the import fails or the binding succeeds; otherwise the mutex stays held and the next bind of the surface waits for ever |
| `AngleLaws.BindsAsEverywhere` | src/angle/device.rs:571-650 | Binding and unbinding return what they return on the base backend and change the context alike; the mutex of a keyed surface is acquired and released exactly when the surface is bound and unbound |
| `AngleLaws.TexturesAsDriven` | src/angle/device.rs:892-987 | What making a texture returns; it takes the mutex iff the imported surface has one, and destroying the texture gives it back with the surface |
| `AngleLaws.MisuseIsNoticed` | src/angle/device.rs:598-647 | Acquiring and releasing a mutex leaves all as it was, and doing either twice is counted as a fault |
| `AngleLaws.ApplyKeepsInv` | src/angle/device.rs:571-650 | Each action by any context keeps this |
| `Angle.AngleContext.BindSurface` | src/angle/device.rs:571-617 | Binding acquires the mutex of a keyed surface, after the checks |
| `Angle.AngleContext.UnbindSurface` | src/angle/device.rs:623-650 | Unbinding releases it |
| `Angle.CreateSurfaceTexture` | src/angle/device.rs:892-1007 | Importing acquires the mutex; a failed texture binding does not release it |
| `Angle.DestroySurfaceTexture` | src/angle/device.rs:1072-1098 | Releases the mutex that the texture holds |
| `PingPongSpec.TickShowsRendering` | examples/threads.rs:269-285 | For every schedule: after n ticks the texture shows the worker’s n-th rendering, and the frame carries the position it was rendered with; before the first tick it shows nothing rendered, with the position at the start |
| `PingPongSpec.TwoSurfaces` | examples/threads.rs:500-599 | For every schedule there are exactly two surfaces, each in one place, so the sampled one is never the rendered one |
| `PingPongSpec.ChannelsAndProgress` | examples/threads.rs:584-599 | For every schedule at most one message is in flight, and some thread can run |
| `PingPong.Worker.Prologue` | examples/threads.rs:453-498 | The first step of the worker: bind one surface and send the other |
| `PingPong.Worker.RenderAndUnbind` | examples/threads.rs:500-584 | The loop body up to the receive is two steps of the protocol |
| `PingPong.Worker.ReceiveAndSend` | examples/threads.rs:585-603 | The rest of the loop body is four steps of the protocol |
| `PingPong.App.constructor` | examples/threads.rs:245-254 | The main thread receives and shows the first frame |
| `PingPong.App.SendBack` | examples/threads.rs:270-275 | The first half of a tick is one step: the surface goes back |
| `PingPong.App.FetchFrame` | examples/threads.rs:277-285 | The second half is one step: the next frame is shown |

## Left out

- Drivers and foreign functions: EGL, D3D and OpenGL calls appear only by their effect on the current binding, on locks and on object tables.
- Pixel contents, shaders, the float ball animation of `examples/threads.rs` and logging. A rendering is a number.
- `src/multi`, `src/glutin`, `src/wgl`, `src/cgl`, `src/x11`, `src/hardware_buffer`, `src/mesa_surfaceless` and the macOS backends; of `src/wayland`, only how surfaces and textures are made and presented under a guard.
- Configuration choice, error codes, native handles and surface access modes, which swap chains only pass on.
- Mutex poisoning, panics while unwinding and closed channels. After a panic a run goes on with the state at that point.
- Wrap-around of context ids. Context ids are positions in the list of contexts; the different numbering inside the ANGLE backend is not modelled.
- Reuse of surface ids: a surface is known by the serial number of its creation.
- Device calls that resize a surface, and client code that destroys a surface it took from a chain.
- Resizing of widget surfaces by the client. During a chain's resize or swap one more surface may exist than before and after it; the allocation bound is about the states between calls.
- The OpenGL state other than what a clear saves and sets, and the framebuffer bindings that a preserving swap leaves behind. The producer's context is taken to be current in a clear, and clear values are real numbers without rounding.
- `Ledger.EGLBackedSurface.NewGeneric`: creation of every object is taken to succeed with a name that is not in use; contents, renderbuffer bindings and texture bindings are not modelled.
- `LedgerLaws.LedgerBalances`: contexts outlive their surfaces and textures, and all calls are on one thread. OpenGL calls without a current context are taken to have no effect.
- `Guarantees.Teardown`: a surface counts as destroyed when it has been given to `destroy_surface` with its own context; whether its OpenGL objects go with it depends on the current context, as `LedgerLaws.DestroyKeepsInvIff` states.
- `Ledger.EGLBackedSurface.Destroy`: destruction of an image that exists is taken to succeed.
- `Egl.EGLBackedContext.MakeCurrent`: `eglMakeCurrent` is taken to succeed on handles that have not been destroyed, and other threads do not use the same context.
- `EglSafety.CurrentSurfaceIsOwn`: surfaces of external contexts are managed elsewhere and may be destroyed there.
- Creating ANGLE textures from a D3D11 texture, and surfaces synchronized by `glFinish` beyond the fact that they have no keyed mutex.
- `AngleLaws.MutexFollowsOwner`: an imported surface is taken to have a keyed mutex iff the surface was created with one.
- `Locks.NoDeadlock`: the reader-writer lock of the table is taken to be exclusive, which can only add waiting. Locks inside the device or the driver are not modelled.
- `Registry.IterationExact`: destruction by a foreign context, or of a chain that cannot be destroyed, is excluded; then `Registry.IndexComplete` still says that no chain is missed in the list.
- `LatestFrame.TakesLatestFrame`: the chain has one consumer and is not destroyed while it is used.
