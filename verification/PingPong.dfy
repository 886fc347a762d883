/** The worker loop and the tick of the `threads` example as methods. A method runs up to the next
    receive that may block; each is proved to be a sequence of steps of `PingPongSpec`. */
module PingPong {
  import opened Surfaces
  import opened PingPongSpec

  class Channel<T> {
    var queue: seq<T>

    method Send(x: T)
      modifies this
      ensures queue == old(queue) + [x]
    {
      queue := queue + [x];
    }

    /** Runs only when there is a message to receive. */
    method Recv() returns (x: T)
      requires queue != []
      modifies this
      ensures x == old(queue)[0] && queue == old(queue)[1..]
    {
      x := queue[0];
      queue := queue[1..];
    }
  }

  /** What the surfaces show. */
  class Gpu {
    var pictures: map<nat, Picture>
  }

  class Worker {
    const gpu: Gpu
    const toMain: Channel<Frame>
    const fromMain: Channel<nat>
    /** The surface bound to the worker's context, if any. */
    var bound: Option<nat>
    var position: nat
    var renders: nat

    constructor (gpu: Gpu, toMain: Channel<Frame>, fromMain: Channel<nat>)
      ensures this.gpu == gpu && this.toMain == toMain && this.fromMain == fromMain
      ensures bound == None && position == 0 && renders == 0
    {
      this.gpu, this.toMain, this.fromMain := gpu, toMain, fromMain;
      bound, position, renders := None, 0, 0;
    }

    /** The state of both threads, as far as the worker can see it: it is at `pc`, and the main thread
        at `main` after `ticks` ticks. */
    function State(pc: WorkerPc, main: MainPc, ticks: nat): State
      reads this, gpu, toMain, fromMain
    {
      PingPongSpec.State.State(pc, main, toMain.queue, fromMain.queue, gpu.pictures, position, renders, ticks)
    }

    /** Binds surface 0 and sends surface 1 as the first frame. */
    method Prologue(ghost main: MainPc, ghost ticks: nat)
      modifies this, toMain
      ensures bound == Some(0)
      ensures State(Render(0), main, ticks) == WorkerStep(old(State(Create, main, ticks)))
    {
      bound := Some(0);
      toMain.Send(Frame(1, position));
    }

    /** First half of the loop body: renders to the bound surface and unbinds it. */
    method RenderAndUnbind(ghost main: MainPc, ghost ticks: nat) returns (previous: nat)
      requires bound.Some?
      modifies this, gpu
      ensures bound == None && previous == old(bound).value
      ensures State(Receive(previous), main, ticks)
           == WorkerStep(WorkerStep(old(State(Render(bound.value), main, ticks))))
    {
      previous := bound.value;
      gpu.pictures := gpu.pictures[previous := Picture(renders, position)];
      renders := renders + 1;
      bound := None;
    }

    /** Second half: binds the surface that came back, sends the rendered one and advances the ball. */
    method ReceiveAndSend(previous: nat, ghost main: MainPc, ghost ticks: nat)
      requires bound == None && fromMain.queue != []
      modifies this, toMain, fromMain
      ensures bound == Some(old(fromMain.queue)[0])
      ensures State(Render(bound.value), main, ticks)
           == WorkerStep(WorkerStep(WorkerStep(WorkerStep(old(State(Receive(previous), main, ticks))))))
    {
      var next := fromMain.Recv();
      bound := Some(next);
      toMain.Send(Frame(previous, position));
      position := position + 1;
    }
  }

  class App {
    const fromWorker: Channel<Frame>
    const toWorker: Channel<nat>
    /** The frame on show and whether its surface is wrapped in a texture. */
    var frame: Frame
    var hasTexture: bool
    var ticks: nat

    /** Waits for the first frame. */
    constructor (fromWorker: Channel<Frame>, toWorker: Channel<nat>)
      requires fromWorker.queue != []
      modifies fromWorker
      ensures this.fromWorker == fromWorker && this.toWorker == toWorker && hasTexture && ticks == 0
      ensures forall s: State :: s.main.AwaitFirst? && s.toMain == old(fromWorker.queue) ==>
                MainStep(s) == s.(main := Show(frame), toMain := fromWorker.queue)
    {
      var first := fromWorker.Recv();
      this.fromWorker, this.toWorker := fromWorker, toWorker;
      frame, hasTexture, ticks := first, true, 0;
    }

    function Pc(): MainPc
      reads this
    {
      if hasTexture then Show(frame) else Await
    }

    /** The state of both threads, as far as the main thread can see it. */
    function State(worker: WorkerPc, pictures: map<nat, Picture>, position: nat, renders: nat): State
      reads this, fromWorker, toWorker
    {
      PingPongSpec.State.State(worker, Pc(), fromWorker.queue, toWorker.queue, pictures, position, renders, ticks)
    }

    /** First half of a tick: destroys the texture and sends the surface back. */
    method SendBack(ghost worker: WorkerPc, ghost pictures: map<nat, Picture>, ghost position: nat, ghost renders: nat)
      requires hasTexture
      modifies this, toWorker
      ensures !hasTexture
      ensures State(worker, pictures, position, renders) == MainStep(old(State(worker, pictures, position, renders)))
    {
      hasTexture := false;
      toWorker.Send(frame.surface);
    }

    /** Second half: fetches a new frame and wraps it in a texture. */
    method FetchFrame(ghost worker: WorkerPc, ghost pictures: map<nat, Picture>, ghost position: nat, ghost renders: nat)
      requires !hasTexture && fromWorker.queue != []
      modifies this, fromWorker
      ensures hasTexture && frame == old(fromWorker.queue)[0]
      ensures State(worker, pictures, position, renders) == MainStep(old(State(worker, pictures, position, renders)))
    {
      frame := fromWorker.Recv();
      hasTexture := true;
      ticks := ticks + 1;
    }
  }
}
