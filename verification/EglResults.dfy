/** What device calls return, what they leave current and what they destroy, in every legal run on one
    thread, in terms of how the contexts came about and of what is bound to them. */
module EglResults {
  import opened Surfaces
  import Api = DeviceApi
  import S = EglSpec
  import opened EglSpec
  import opened EglSafety

  // ----- how contexts came about

  /** A context that the device created, or one that it adopted with the surfaces that it had. */
  datatype Origin = Own(display: nat, hasPbuffer: bool) | Adopted(display: nat, draw: nat, read: nat)

  function Origins(actions: seq<Action>): seq<Origin> {
    if actions == [] then []
    else
      Origins(actions[..|actions| - 1])
      + match actions[|actions| - 1]
        case NewContext(display, hasPbuffer) => [Own(display, hasPbuffer)]
        case AdoptContext(display, draw, read) => [Adopted(display, draw, read)]
        case _ => []
  }

  ghost predicate CameFrom(ctx: Ctx, c: nat, origin: Origin) {
    && ctx.core.id == c && ctx.display == origin.display
    && (ctx.owned <==> origin.Own?)
    && (ctx.core.framebuffer.External? <==> origin.Adopted?)
    && ctx.pbuffer == (if origin.Own? && origin.hasPbuffer && !ctx.destroyed then Pbuffer(c) else NoSurface)
    && (origin.Adopted? ==> ctx.draw == Foreign(origin.draw) && ctx.read == Foreign(origin.read))
  }

  ghost predicate Traced(s: State, origins: seq<Origin>) {
    |origins| == |s.ctxs| && forall c :: 0 <= c < |origins| ==> CameFrom(s.ctxs[c], c, origins[c])
  }

  lemma StepKeepsTraced(s: State, a: Action, origins: seq<Origin>)
    requires Inv(s) && Legal(s, a) && Traced(s, origins)
    requires !a.NewContext? && !a.AdoptContext?
    ensures Traced(Apply(s, a), origins)
  {
  }

  lemma {:induction false} OriginsKept(actions: seq<Action>)
    requires LegalRun(actions)
    ensures Traced(After(actions), Origins(actions))
  {
    if actions != [] {
      var before := actions[..|actions| - 1];
      var a := actions[|actions| - 1];
      OriginsKept(before);
      RunKeepsInv(before);
      if !a.NewContext? && !a.AdoptContext? {
        assert Origins(actions) == Origins(before);
        StepKeepsTraced(After(before), a, Origins(before));
      }
    }
  }

  // ----- results

  /** What a call returns; `Ok` stands for any value. */
  function Result(s: State, a: Action): Outcome<()>
    requires InScope(s, a)
  {
    match a
    case MakeCurrent(c) => if s.driver.CanBind(s.ctxs[c].Target()) then Ok(()) else Err(MakeCurrentFailed)
    case Bind(c, i) => S.BindSurface(s.driver, s.ctxs[c], s.loose[i]).2
    case Unbind(c) => Plain(S.UnbindSurface(s.driver, s.ctxs[c]).2)
    case PresentBound(c, swaps) => S.PresentBound(s.driver, s.ctxs[c], swaps).1
    case Present(c, i, swaps) => S.Present(s.driver, s.ctxs[c], s.loose[i], swaps).1
    case DestroySurface(c, i) => S.DestroySurface(s.driver, s.ctxs[c], s.loose[i]).1
    case _ => Ok(())
  }

  /** Presenting a window surface tells whether the buffer swap succeeded. */
  function Presented(s: Surface, swaps: bool): Outcome<()> {
    if s.kind == Generic then Err(NoWidgetAttached)
    else if swaps then Ok(())
    else Err(PresentFailed)
  }

  /** What legal calls return. In particular no context fails to become current. */
  function Expected(s: State, a: Action): Outcome<()>
    requires InScope(s, a)
  {
    match a
    case Bind(c, i) =>
      if s.loose[i].contextId != c then Err(IncompatibleSurface)
      else if s.ctxs[c].core.framebuffer.External? then Err(ExternalRenderTarget)
      else if s.ctxs[c].core.framebuffer.Bound? then Err(SurfaceAlreadyBound)
      else Ok(())
    case Unbind(c) => if s.ctxs[c].core.framebuffer.External? then Err(ExternalRenderTarget) else Ok(())
    case PresentBound(c, swaps) =>
      if s.ctxs[c].core.framebuffer.Bound? then Presented(s.ctxs[c].core.framebuffer.surface, swaps) else Ok(())
    case Present(_, i, swaps) => Presented(s.loose[i], swaps)
    case DestroySurface(c, i) => if s.loose[i].contextId != c then Err(IncompatibleSurface) else Ok(())
    case _ => Ok(())
  }

  lemma CallResult(actions: seq<Action>, a: Action)
    requires LegalRun(actions) && Legal(After(actions), a)
    ensures Result(After(actions), a) == Expected(After(actions), a)
    ensures Result(After(actions), a) != Err(MakeCurrentFailed)
  {
    RunKeepsInv(actions);
    ResultIsExpected(After(actions), a);
  }

  lemma ResultIsExpected(s: State, a: Action)
    requires Inv(s) && Legal(s, a)
    ensures Result(s, a) == Expected(s, a)
  {
    if !(a.NewContext? || a.AdoptContext? || a.MakeNoneCurrent?) {
      assert CtxOk(s, a.c);
      TargetCanBind(s, a.c);
    }
  }

  /** A surface that has been bound comes back when it is unbound, and the context is as it was; a bind
      that is refused changes nothing. */
  lemma BindUnbindRoundTrip(d: Driver, ctx: Ctx, s: Surface)
    ensures var (d', ctx', r) := S.BindSurface(d, ctx, s);
            if r == Ok(()) then
              var (_, ctx'', back) := S.UnbindSurface(d', ctx');
              ctx' == ctx.(core := ctx.core.(framebuffer := Bound(s))) && back == Ok(Some(s)) && ctx'' == ctx
            else d' == d && ctx' == ctx
    ensures ctx.core.framebuffer.NoFramebuffer? ==> S.UnbindSurface(d, ctx) == (d, ctx, Ok(None))
    ensures ctx.core.framebuffer.External? ==> S.UnbindSurface(d, ctx) == (d, ctx, Err(ExternalRenderTarget))
  {
  }

  /** Presenting a window surface that has been destroyed, or through a context that has, fails and
      leaves what was current. */
  lemma PresentsNoneOfTheDead(d: Driver, ctx: Ctx, s: Surface, swaps: bool)
    requires s.kind == Widget && (s.id in d.deadWindows || ctx.core.id in d.deadContexts)
    ensures S.Present(d, ctx, s, swaps) == (d, Err(MakeCurrentFailed))
  {
  }

  // ----- what is current afterwards

  function HandleOf(s: Surface): Handle {
    match s.kind
    case Widget => Window(s.id)
    case Generic => NoSurface
  }

  /** What a context renders to when it is current: the surfaces it was adopted with, each on its side;
      or else the bound surface; or else its pbuffer, if it has one. */
  function Home(origin: Origin, framebuffer: Framebuffer<Surface>, c: nat): Binding {
    match origin
    case Adopted(display, draw, read) => Binding(display, Foreign(draw), Foreign(read), c)
    case Own(display, hasPbuffer) =>
      var h := if framebuffer.Bound? then HandleOf(framebuffer.surface)
               else if hasPbuffer then Pbuffer(c) else NoSurface;
      Binding(display, h, h, c)
  }

  function HomeOf(s: State, origins: seq<Origin>, c: nat): Binding
    requires c < |s.ctxs| && |origins| == |s.ctxs|
  {
    Home(origins[c], s.ctxs[c].core.framebuffer, c)
  }

  function CurrentAfter(s: State, origins: seq<Origin>, a: Action): Option<Binding>
    requires InScope(s, a) && |origins| == |s.ctxs|
  {
    var current := s.driver.current;
    match a
    case NewContext(display, hasPbuffer) => Some(Home(Own(display, hasPbuffer), NoFramebuffer, |s.ctxs|))
    case MakeCurrent(c) => Some(HomeOf(s, origins, c))
    case MakeNoneCurrent => None
    case NewGeneric(c, _) => if current.Some? then current else Some(HomeOf(s, origins, c))
    case WrapTexture(c) => if current.Some? then current else Some(HomeOf(s, origins, c))
    case Bind(c, i) =>
      if Expected(s, a) == Ok(()) && s.driver.IsCurrent(c) then Some(Home(origins[c], Bound(s.loose[i]), c))
      else current
    case Unbind(c) =>
      if s.ctxs[c].core.framebuffer.Bound? && s.driver.IsCurrent(c) then
        Some(Binding(origins[c].display, NoSurface, NoSurface, c))
      else current
    case PresentBound(c, _) =>
      var f := s.ctxs[c].core.framebuffer;
      if f.Bound? && f.surface.kind == Widget && current.None? then Some(HomeOf(s, origins, c)) else current
    case DestroyContext(_) => None
    case _ => current
  }

  /** In every legal run each call leaves current exactly this. */
  lemma CurrentIs(actions: seq<Action>, a: Action)
    requires LegalRun(actions) && Legal(After(actions), a)
    ensures |Origins(actions)| == |After(actions).ctxs|
    ensures Apply(After(actions), a).driver.current == CurrentAfter(After(actions), Origins(actions), a)
  {
    OriginsKept(actions);
    RunKeepsInv(actions);
    CurrentInState(After(actions), Origins(actions), a);
  }

  lemma TargetIsHome(s: State, origins: seq<Origin>, c: nat)
    requires Inv(s) && Traced(s, origins) && c < |s.ctxs| && !s.ctxs[c].destroyed
    ensures s.ctxs[c].Target() == HomeOf(s, origins, c) && s.driver.CanBind(HomeOf(s, origins, c))
  {
    assert CameFrom(s.ctxs[c], c, origins[c]);
    TargetCanBind(s, c);
  }

  lemma CurrentInState(s: State, origins: seq<Origin>, a: Action)
    requires Inv(s) && Legal(s, a) && Traced(s, origins)
    ensures Apply(s, a).driver.current == CurrentAfter(s, origins, a)
  {
    match a
    case NewContext(_, _) => NewContextCanBind(s);
    case AdoptContext(_, _, _) =>
    case MakeNoneCurrent =>
    case MakeCurrent(c) => TargetIsHome(s, origins, c);
    case NewGeneric(c, _) => TargetIsHome(s, origins, c); GuardedWork(s, c);
    case WrapTexture(c) => TargetIsHome(s, origins, c); GuardedWork(s, c);
    case Bind(c, i) => BindCurrent(s, origins, c, i);
    case Unbind(c) => UnbindCurrent(s, origins, c);
    case PresentBound(c, swaps) => PresentCurrent(s, origins, a);
    case Present(_, _, _) => PresentCurrent(s, origins, a);
    case _ =>
  }

  lemma NewContextCanBind(s: State)
    requires Inv(s)
    ensures |s.ctxs| !in s.driver.deadContexts && |s.ctxs| !in s.driver.deadPbuffers
  {
  }

  lemma BindCurrent(s: State, origins: seq<Origin>, c: nat, i: nat)
    requires Inv(s) && Legal(s, Bind(c, i)) && Traced(s, origins)
    ensures Apply(s, Bind(c, i)).driver.current == CurrentAfter(s, origins, Bind(c, i))
  {
    assert CameFrom(s.ctxs[c], c, origins[c]) && CtxOk(s, c);
    assert LiveSurface(s, s.loose[i]);
  }

  lemma UnbindCurrent(s: State, origins: seq<Origin>, c: nat)
    requires Inv(s) && Legal(s, Unbind(c)) && Traced(s, origins)
    ensures Apply(s, Unbind(c)).driver.current == CurrentAfter(s, origins, Unbind(c))
  {
    assert CameFrom(s.ctxs[c], c, origins[c]);
    TargetCanBind(s, c);
  }

  lemma PresentCurrent(s: State, origins: seq<Origin>, a: Action)
    requires Inv(s) && Legal(s, a) && Traced(s, origins) && (a.PresentBound? || a.Present?)
    ensures Apply(s, a).driver.current == CurrentAfter(s, origins, a)
  {
    TargetIsHome(s, origins, a.c);
    if s.driver.current.Some? {
      PresentUnderGuard(s, a);
    }
  }

  lemma PresentUnderGuard(s: State, a: Action)
    requires Inv(s) && (a.PresentBound? || a.Present?) && InScope(s, a) && s.driver.current.Some?
    ensures Apply(s, a) == s
  {
  }

  // ----- what a call destroys

  /** The windows, pbuffers and contexts that a call destroys. */
  function Casualties(s: State, origins: seq<Origin>, a: Action): (set<nat>, set<nat>, set<nat>)
    requires InScope(s, a) && |origins| == |s.ctxs|
  {
    match a
    case DestroySurface(c, i) =>
      (if s.loose[i].contextId == c && s.loose[i].kind == Widget then {s.loose[i].id} else {}, {}, {})
    case DestroyContext(c) =>
      var f := s.ctxs[c].core.framebuffer;
      (if f.Bound? && f.surface.kind == Widget then {f.surface.id} else {},
       if origins[c].Own? && origins[c].hasPbuffer then {c} else {},
       if origins[c].Own? then {c} else {})
    case _ => ({}, {}, {})
  }

  predicate Destroys(s: State, s': State, dead: (set<nat>, set<nat>, set<nat>)) {
    && s'.driver.deadWindows == s.driver.deadWindows + dead.0
    && s'.driver.deadPbuffers == s.driver.deadPbuffers + dead.1
    && s'.driver.deadContexts == s.driver.deadContexts + dead.2
  }

  /** In every legal run each call destroys exactly these; an adopted context is left alone. */
  lemma DestroysExactly(actions: seq<Action>, a: Action)
    requires LegalRun(actions) && Legal(After(actions), a)
    ensures |Origins(actions)| == |After(actions).ctxs|
    ensures Destroys(After(actions), Apply(After(actions), a), Casualties(After(actions), Origins(actions), a))
  {
    OriginsKept(actions);
    RunKeepsInv(actions);
    CasualtiesInState(After(actions), Origins(actions), a);
  }

  lemma CasualtiesInState(s: State, origins: seq<Origin>, a: Action)
    requires Inv(s) && Legal(s, a) && Traced(s, origins)
    ensures Destroys(s, Apply(s, a), Casualties(s, origins, a))
  {
    match a
    case DestroySurface(c, i) => assert CtxOk(s, c);
    case DestroyContext(c) => ContextCasualties(s, origins, c);
    case _ => OthersDestroyNothing(s, a);
  }

  lemma ContextCasualties(s: State, origins: seq<Origin>, c: nat)
    requires Inv(s) && Legal(s, DestroyContext(c)) && Traced(s, origins)
    ensures Destroys(s, Apply(s, DestroyContext(c)), Casualties(s, origins, DestroyContext(c)))
  {
    assert CtxOk(s, c) && CameFrom(s.ctxs[c], c, origins[c]);
  }

  lemma OthersDestroyNothing(s: State, a: Action)
    requires InScope(s, a) && !a.DestroySurface? && !a.DestroyContext?
    ensures Destroys(s, Apply(s, a), ({}, {}, {}))
  {
  }
}
