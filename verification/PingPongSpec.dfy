/** The two threads of the `threads` example: a worker renders to one surface while the main thread
    samples the other, and two channels pass the surfaces back and forth. */
module PingPongSpec {

  /** What a surface shows: the worker's `number`-th rendering, with the ball at `position`. Positions
      are numbered by how often the ball was advanced. */
  datatype Picture = Picture(number: nat, position: nat)

  /** A message to the main thread: a surface and the position that was current when it was sent. */
  datatype Frame = Frame(surface: nat, position: nat)

  /** The next thing the worker does; surfaces it has in hand between two steps are named. */
  datatype WorkerPc =
    | Create
    | Render(bound: nat)
    | Unbind(bound: nat)
    | Receive(previous: nat)
    | Bind(previous: nat, next: nat)
    | Send(previous: nat, bound: nat)
    | Advance(bound: nat)

  /** The main thread waits for its first frame, waits for a frame inside a tick, or shows a texture
      between two ticks. */
  datatype MainPc = AwaitFirst | Await | Show(frame: Frame)

  datatype State = State(
    worker: WorkerPc,
    main: MainPc,
    toMain: seq<Frame>,
    toWorker: seq<nat>,
    pictures: map<nat, Picture>,
    position: nat,
    renders: nat,
    ticks: nat)

  const START := State(Create, AwaitFirst, [], [], map[], 0, 0, 0)

  predicate WorkerEnabled(s: State) {
    s.worker.Receive? ==> s.toWorker != []
  }

  /** One step of the worker thread. It creates surface 0 to render to and sends surface 1. */
  function WorkerStep(s: State): State
    requires WorkerEnabled(s)
  {
    match s.worker
    case Create => s.(worker := Render(0), toMain := s.toMain + [Frame(1, s.position)])
    case Render(bound) =>
      s.(worker := Unbind(bound), pictures := s.pictures[bound := Picture(s.renders, s.position)],
         renders := s.renders + 1)
    case Unbind(bound) => s.(worker := Receive(bound))
    case Receive(previous) => s.(worker := Bind(previous, s.toWorker[0]), toWorker := s.toWorker[1..])
    case Bind(previous, next) => s.(worker := Send(previous, next))
    case Send(previous, bound) => s.(worker := Advance(bound), toMain := s.toMain + [Frame(previous, s.position)])
    case Advance(bound) => s.(worker := Render(bound), position := s.position + 1)
  }

  predicate MainEnabled(s: State) {
    !s.main.Show? ==> s.toMain != []
  }

  /** One step of the main thread: receive a frame and wrap its surface in a texture, or, at the start
      of a tick, destroy the texture and send the surface back. */
  function MainStep(s: State): State
    requires MainEnabled(s)
  {
    match s.main
    case AwaitFirst => s.(main := Show(s.toMain[0]), toMain := s.toMain[1..])
    case Await => s.(main := Show(s.toMain[0]), toMain := s.toMain[1..], ticks := s.ticks + 1)
    case Show(frame) => s.(main := Await, toWorker := s.toWorker + [frame.surface])
  }

  /** A schedule says which thread runs next; a thread that is blocked does not move. */
  function After(schedule: seq<bool>): State {
    if schedule == [] then START
    else
      var s := After(schedule[..|schedule| - 1]);
      if schedule[|schedule| - 1] then
        (if WorkerEnabled(s) then WorkerStep(s) else s)
      else
        (if MainEnabled(s) then MainStep(s) else s)
  }

  // ----- invariant

  /** The surface that the worker has, and how many frames it has sent that it rendered. */
  function Mine(w: WorkerPc): nat
    requires !w.Create?
  {
    match w
    case Render(bound) => bound
    case Unbind(bound) => bound
    case Receive(previous) => previous
    case Bind(previous, _) => previous
    case Send(_, bound) => bound
    case Advance(bound) => bound
  }

  function Sent(s: State): int {
    match s.worker
    case Create => 0
    case Render(_) => s.renders
    case Advance(_) => s.renders
    case _ => s.renders - 1
  }

  /** The `sent`-th frame shows the rendering before it; the first frame shows none, and carries the
      position at the start. */
  ghost predicate FrameOk(s: State, f: Frame) {
    if Sent(s) > 0 then
      && f.position == Sent(s) - 1
      && f.surface in s.pictures
      && s.pictures[f.surface] == Picture(Sent(s) - 1, f.position)
    else f.position == 0 && f.surface !in s.pictures
  }

  /** The surface that the worker does not have is in exactly one of four places. */
  ghost predicate OtherOk(s: State, other: nat) {
    match s.main
    case AwaitFirst =>
      s.toWorker == [] && s.ticks == 0 && Sent(s) == 0 && s.toMain == [Frame(other, 0)] && other !in s.pictures
    case Show(frame) =>
      s.toWorker == [] && s.toMain == [] && frame.surface == other && s.ticks == Sent(s) && FrameOk(s, frame)
    case Await =>
      || (s.toWorker == [other] && s.toMain == [] && s.ticks == Sent(s))
      || (s.toWorker == [] && |s.toMain| == 1 && s.toMain[0].surface == other
          && s.ticks == Sent(s) - 1 && FrameOk(s, s.toMain[0]))
  }

  /** The worker has both surfaces in hand. */
  predicate HasBoth(w: WorkerPc) {
    w.Bind? || w.Send?
  }

  /** What the worker has rendered, and where the ball is. */
  ghost predicate WorkerOk(s: State)
    requires !s.worker.Create?
  {
    match s.worker
    case Render(_) => s.position == s.renders
    case Advance(_) => s.renders > 0 && s.position == s.renders - 1
    case Send(previous, bound) => bound == 1 - previous && Rendered(s, previous)
    case Bind(previous, next) => next == 1 - previous && Rendered(s, previous)
    case Unbind(bound) => Rendered(s, bound)
    case Receive(previous) => Rendered(s, previous)
  }

  ghost predicate Rendered(s: State, surface: nat) {
    && s.renders > 0
    && s.position == s.renders - 1
    && surface in s.pictures && s.pictures[surface] == Picture(s.renders - 1, s.position)
  }

  ghost predicate Inv(s: State) {
    if s.worker.Create? then s == START
    else
      && Mine(s.worker) <= 1
      && WorkerOk(s)
      && if HasBoth(s.worker) then Idle(s) else OtherOk(s, 1 - Mine(s.worker))
  }

  /** Both surfaces are with the worker. */
  ghost predicate Idle(s: State) {
    s.main.Await? && s.toMain == [] && s.toWorker == [] && s.ticks == Sent(s)
  }

  lemma MainKeepsOther(s: State, other: nat)
    requires !s.worker.Create? && OtherOk(s, other) && MainEnabled(s)
    ensures OtherOk(MainStep(s), other)
  {
  }

  /** While the worker works on its own surface, the other one is not affected. */
  lemma WorkerKeepsOther(s: State, s': State, other: nat)
    requires !s.worker.Create? && !s'.worker.Create? && OtherOk(s, other)
    requires s'.main == s.main && s'.toMain == s.toMain && s'.toWorker == s.toWorker && s'.ticks == s.ticks
    requires Sent(s') == Sent(s) && (other in s.pictures <==> other in s'.pictures)
    requires other in s.pictures ==> s'.pictures[other] == s.pictures[other]
    ensures OtherOk(s', other)
  {
  }

  lemma MainStepKeepsInv(s: State)
    requires Inv(s) && MainEnabled(s)
    ensures Inv(MainStep(s))
  {
    if !s.worker.Create? && !HasBoth(s.worker) {
      MainKeepsOther(s, 1 - Mine(s.worker));
    }
  }

  lemma RenderKeepsInv(s: State)
    requires Inv(s) && s.worker.Render?
    ensures Inv(WorkerStep(s))
  {
    WorkerKeepsOther(s, WorkerStep(s), 1 - s.worker.bound);
  }

  lemma UnbindKeepsInv(s: State)
    requires Inv(s) && s.worker.Unbind?
    ensures Inv(WorkerStep(s))
  {
    WorkerKeepsOther(s, WorkerStep(s), 1 - s.worker.bound);
  }

  lemma AdvanceKeepsInv(s: State)
    requires Inv(s) && s.worker.Advance?
    ensures Inv(WorkerStep(s))
  {
    WorkerKeepsOther(s, WorkerStep(s), 1 - s.worker.bound);
  }

  lemma ReceiveKeepsInv(s: State)
    requires Inv(s) && s.worker.Receive? && WorkerEnabled(s)
    ensures Inv(WorkerStep(s))
  {
    assert s.toWorker == [1 - s.worker.previous] && WorkerStep(s).toWorker == [];
  }

  lemma SendKeepsInv(s: State)
    requires Inv(s) && s.worker.Send?
    ensures Inv(WorkerStep(s))
  {
    var s' := WorkerStep(s);
    assert s'.toMain == [Frame(s.worker.previous, s.position)];
    assert FrameOk(s', s'.toMain[0]);
  }

  lemma WorkerStepKeepsInv(s: State)
    requires Inv(s) && WorkerEnabled(s)
    ensures Inv(WorkerStep(s))
  {
    match s.worker
    case Create => assert Sent(WorkerStep(s)) == 0 && WorkerStep(s).toMain == [Frame(1, 0)];
    case Receive(_) => ReceiveKeepsInv(s);
    case Bind(_, _) =>
    case Send(_, _) => SendKeepsInv(s);
    case Render(_) => RenderKeepsInv(s);
    case Unbind(_) => UnbindKeepsInv(s);
    case Advance(_) => AdvanceKeepsInv(s);
  }

  lemma {:induction false} RunKeepsInv(schedule: seq<bool>)
    ensures Inv(After(schedule))
  {
    if schedule != [] {
      RunKeepsInv(schedule[..|schedule| - 1]);
      var s := After(schedule[..|schedule| - 1]);
      if WorkerEnabled(s) {
        WorkerStepKeepsInv(s);
      }
      if MainEnabled(s) {
        MainStepKeepsInv(s);
      }
    }
  }

  // ----- what this means

  /** Every channel has room for its one message, and some thread can always run. */
  lemma ChannelsAndProgress(schedule: seq<bool>)
    ensures var s := After(schedule);
            && |s.toMain| <= 1 && |s.toWorker| <= 1 && |s.toMain| + |s.toWorker| <= 1
            && (WorkerEnabled(s) || MainEnabled(s))
  {
    RunKeepsInv(schedule);
  }

  /** How often a surface occurs: in the worker's hands, on a channel, or in the texture. */
  function Places(s: State, x: nat): nat {
    (match s.worker
     case Create => 0
     case Bind(previous, next) => (if previous == x then 1 else 0) + (if next == x then 1 else 0)
     case Send(previous, bound) => (if previous == x then 1 else 0) + (if bound == x then 1 else 0)
     case w => if Mine(w) == x then 1 else 0)
    + (if s.main.Show? && s.main.frame.surface == x then 1 else 0)
    + OnSurfaces(s.toWorker, x)
    + OnFrames(s.toMain, x)
  }

  function OnSurfaces(surfaces: seq<nat>, x: nat): nat {
    if surfaces == [] then 0 else OnSurfaces(surfaces[1..], x) + if surfaces[0] == x then 1 else 0
  }

  function OnFrames(frames: seq<Frame>, x: nat): nat {
    if frames == [] then 0 else OnFrames(frames[1..], x) + if frames[0].surface == x then 1 else 0
  }

  /** There are exactly two surfaces, each in one place, whatever the schedule; so the surface being
      sampled is never the one being rendered to. */
  lemma TwoSurfaces(schedule: seq<bool>, x: nat)
    ensures var s := After(schedule); !s.worker.Create? ==> Places(s, x) == if x <= 1 then 1 else 0
  {
    RunKeepsInv(schedule);
    if !After(schedule).worker.Create? {
      PlacesInState(After(schedule), x);
    }
  }

  lemma PlacesInState(s: State, x: nat)
    requires Inv(s) && !s.worker.Create?
    ensures Places(s, x) == if x <= 1 then 1 else 0
  {
    if !HasBoth(s.worker) {
      var other := 1 - Mine(s.worker);
      assert OtherOk(s, other);
      if s.toMain != [] {
        assert s.toMain == [s.toMain[0]] && s.toMain[0].surface == other;
        assert OnFrames(s.toMain, x) == if other == x then 1 else 0;
      } else if s.toWorker != [] {
        assert s.toWorker == [other];
        assert OnSurfaces(s.toWorker, x) == if other == x then 1 else 0;
      } else {
        assert s.main.Show?;
      }
    } else if s.worker.Bind? {
      assert Places(s, x) == if x <= 1 then 1 else 0;
    } else {
      assert s.worker.Send?;
      assert Places(s, x) == if x <= 1 then 1 else 0;
    }
  }

  /** After `n` ticks the texture shows the worker's `n`-th rendering, and the frame carries the
      position that it was rendered with. Before the first tick it shows nothing rendered, with the
      position at the start. */
  lemma TickShowsRendering(schedule: seq<bool>)
    ensures var s := After(schedule);
            s.main.Show? && s.ticks > 0 ==>
              && s.main.frame.surface in s.pictures
              && s.pictures[s.main.frame.surface] == Picture(s.ticks - 1, s.main.frame.position)
              && s.main.frame.position == s.ticks - 1
    ensures var s := After(schedule);
            s.main.Show? && s.ticks == 0 ==> s.main.frame.position == 0 && s.main.frame.surface !in s.pictures
  {
    RunKeepsInv(schedule);
  }
}
