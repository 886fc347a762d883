/** The values that devices, contexts and swap chains pass to each other. */
module Surfaces {
  datatype Option<+T> = None | Some(value: T)

  /** The dimensions of a surface, in device pixels. */
  datatype Size = Size(width: int, height: int)

  datatype Kind = Generic | Widget

  /** A surface. `id` is the serial number of its creation and `contextId` the context that made it;
      none of the four fields changes while a swap chain owns the surface. */
  datatype Surface = Surface(id: nat, size: Size, contextId: nat, kind: Kind)

  /** What a context renders to: nothing, surfaces managed elsewhere, or a surface of its own. */
  datatype Framebuffer<+S> = NoFramebuffer | External | Bound(surface: S)

  datatype Error =
    | Failed
    | IncompatibleContext
    | IncompatibleSurface
    | ExternalRenderTarget
    | SurfaceAlreadyBound
    | WidgetAttached
    | NoWidgetAttached
    | SurfaceCreationFailed
    | MakeCurrentFailed
    | PresentFailed
    | SurfaceImportFailed
    | SurfaceTextureCreationFailed

  /** The result of a call: a value, an error return, or an unwinding panic. */
  datatype Outcome<+T> = Ok(value: T) | Err(error: Error) | Panic

  /** A result without its value. */
  function Plain<T>(r: Outcome<T>): Outcome<()> {
    match r
    case Ok(_) => Ok(())
    case Err(e) => Err(e)
    case Panic => Panic
  }

  function OptionOwned(o: Option<Surface>): multiset<Surface> {
    match o
    case None => multiset{}
    case Some(s) => multiset{s}
  }

  /** Index of the first surface of the given size, or `|s|` if there is none. */
  function FirstOfSize(s: seq<Surface>, size: Size): (i: nat)
    ensures i <= |s|
    ensures i < |s| ==> s[i].size == size
    ensures forall j :: 0 <= j < i ==> s[j].size != size
  {
    if s == [] || s[0].size == size then 0 else 1 + FirstOfSize(s[1..], size)
  }

  /** Removes element `i`, moving the last element into its place. */
  function SwapRemove(s: seq<Surface>, i: nat): (r: seq<Surface>)
    requires i < |s|
    ensures multiset(r) + multiset{s[i]} == multiset(s)
  {
    var last := s[|s| - 1];
    var moved := s[i := last];
    assert multiset(moved[..|s| - 1]) + multiset{s[i]} == multiset(s) by {
      assert moved == moved[..|s| - 1] + [last];
      assert multiset(moved) == multiset(s) - multiset{s[i]} + multiset{last};
    }
    moved[..|s| - 1]
  }
}
