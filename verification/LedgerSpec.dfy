/** The OpenGL and EGL objects behind surfaces: which exist, and which surface or texture owns each.
    An OpenGL name means something only in a context, and every OpenGL call goes to the context that is
    current on the thread. Creation calls are taken to succeed. */
module LedgerSpec {
  import opened Surfaces

  datatype Kind = Texture | Framebuffer | Renderbuffer | Image | WindowSurface

  /** Where a name is valid: a framebuffer's in one context, a texture's or a renderbuffer's in a group
      of contexts that share with each other, and the rest on the display. */
  datatype Space = Display | Group(g: nat) | Context(c: nat)

  datatype Object = Object(kind: Kind, space: Space, name: nat)

  /** `groups` gives the share group of each context, `current` the thread's current context, and
      `drawFbo` and `readFbo` the framebuffers bound in each context. `misdeletions` counts the
      deletions that named nothing. */
  datatype Tables = Tables(
    groups: seq<nat>,
    current: Option<nat>,
    live: set<Object>,
    drawFbo: map<nat, nat>,
    readFbo: map<nat, nat>,
    misdeletions: nat)
  {
    function GroupOf(c: nat): nat {
      if c < |groups| then groups[c] else c
    }

    /** The object that a name stands for in context `c`. */
    function Named(kind: Kind, c: nat, name: nat): Object {
      match kind
      case Framebuffer => Object(kind, Context(c), name)
      case Texture => Object(kind, Group(GroupOf(c)), name)
      case Renderbuffer => Object(kind, Group(GroupOf(c)), name)
      case _ => Object(kind, Display, name)
    }

    function Add(o: Object): Tables {
      this.(live := live + {o})
    }

    function Delete(o: Object): Tables {
      if o in live then this.(live := live - {o}) else this.(misdeletions := misdeletions + 1)
    }

    // ----- the current context

    function MakeCurrent(c: nat): Tables {
      this.(current := Some(c))
    }

    /** The end of a guard. Nothing is restored if nothing was current when it was created. */
    function DropGuard(saved: Option<nat>): Tables {
      if saved.None? then this else this.(current := saved)
    }

    /** A new context becomes current. */
    function NewContext(share: Option<nat>): Tables {
      this.(groups := groups + [if share.Some? then GroupOf(share.value) else |groups|], current := Some(|groups|))
    }

    // ----- OpenGL calls, which go to the current context and without one do nothing

    function GlCreate(kind: Kind, name: nat): Tables {
      if current.Some? then Add(Named(kind, current.value, name)) else this
    }

    function GlDelete(kind: Kind, name: nat): Tables {
      if current.Some? then Delete(Named(kind, current.value, name)) else this.(misdeletions := misdeletions + 1)
    }

    function GlDeleteIfSome(kind: Kind, name: Option<nat>): Tables {
      if name.Some? then GlDelete(kind, name.value) else this
    }

    function GlBindFramebuffer(fbo: Option<nat>): Tables {
      if current.None? then this
      else if fbo.None? then this.(drawFbo := drawFbo - {current.value}, readFbo := readFbo - {current.value})
      else this.(drawFbo := drawFbo[current.value := fbo.value], readFbo := readFbo[current.value := fbo.value])
    }

    function GlUnbindIfNecessary(fbo: nat): Tables {
      if current.None? then this
      else
        var c := current.value;
        this.(drawFbo := if c in drawFbo && drawFbo[c] == fbo then drawFbo - {c} else drawFbo,
              readFbo := if c in readFbo && readFbo[c] == fbo then readFbo - {c} else readFbo)
    }

    /** Unbinds a framebuffer before it is deleted. */
    function GlDestroyFramebuffer(fbo: nat): Tables {
      GlUnbindIfNecessary(fbo).GlDelete(Framebuffer, fbo)
    }
  }

  /** The depth and stencil attachments of a surface, by name. */
  datatype Attachments =
    | Individual(depth: Option<nat>, stencil: Option<nat>)
    | Combined(depthStencil: Option<nat>)
  {
    /** Dropping attachments that are not empty panics. */
    predicate Droppable() {
      this == Individual(None, None) || this == Combined(None)
    }
  }

  datatype Objects =
    | TextureImage(image: Option<nat>, framebuffer: Option<nat>, texture: Option<nat>, attachments: Attachments)
    | WindowObjects(window: Option<nat>)

  datatype GlSurface = GlSurface(contextId: nat, objects: Objects, destroyed: bool)

  /** The names that the driver hands out for a new surface; names may be used again after deletion. */
  datatype Names = Names(texture: nat, image: nat, framebuffer: nat, renderbuffer: nat)

  // ----- creation

  /** There is one renderbuffer, or none. */
  function NewAttachments(t: Tables, depth: bool, stencil: bool, name: nat): (Tables, Attachments) {
    if depth && stencil then (t.GlCreate(Renderbuffer, name), Combined(Some(name)))
    else if depth then (t.GlCreate(Renderbuffer, name), Individual(Some(name), None))
    else if stencil then (t.GlCreate(Renderbuffer, name), Individual(None, Some(name)))
    else (t, Individual(None, None))
  }

  /** Runs in the current context and leaves the new framebuffer bound there. */
  function NewGeneric(t: Tables, contextId: nat, depth: bool, stencil: bool, names: Names): (Tables, GlSurface) {
    var t1 := t.GlCreate(Texture, names.texture).Add(Object(Image, Display, names.image));
    var t2 := t1.GlCreate(Framebuffer, names.framebuffer).GlBindFramebuffer(Some(names.framebuffer));
    var (t3, attachments) := NewAttachments(t2, depth, stencil, names.renderbuffer);
    (t3, GlSurface(contextId,
                   TextureImage(Some(names.image), Some(names.framebuffer), Some(names.texture), attachments),
                   false))
  }

  /** The device makes the surface's context current for this. */
  function CreateGeneric(t: Tables, contextId: nat, depth: bool, stencil: bool, names: Names): (Tables, GlSurface) {
    var (t', s) := NewGeneric(t.MakeCurrent(contextId), contextId, depth, stencil, names);
    (t'.DropGuard(t.current), s)
  }

  function NewWindow(t: Tables, contextId: nat, name: nat): (Tables, GlSurface) {
    (t.Add(Object(WindowSurface, Display, name)), GlSurface(contextId, WindowObjects(Some(name)), false))
  }

  // ----- destruction

  function DestroyAttachments(t: Tables, a: Attachments): (Tables, Attachments) {
    match a
    case Individual(depth, stencil) =>
      (t.GlDeleteIfSome(Renderbuffer, stencil).GlDeleteIfSome(Renderbuffer, depth), Individual(None, None))
    case Combined(both) => (t.GlDeleteIfSome(Renderbuffer, both), Combined(None))
  }

  /** Runs in whatever context is current. Panics if the image has been destroyed before. */
  function Destroy(t: Tables, contextId: nat, s: GlSurface): (Tables, GlSurface, Outcome<()>) {
    if contextId != s.contextId then
      (t, s, Err(IncompatibleSurface))
    else
      match s.objects
      case TextureImage(image, framebuffer, texture, attachments) =>
        var unbound := t.GlBindFramebuffer(None).GlDeleteIfSome(Framebuffer, framebuffer);
        var (t1, emptied) := DestroyAttachments(unbound, attachments);
        if image.None? then
          (t1, s.(objects := TextureImage(None, None, texture, emptied)), Panic)
        else
          (t1.Delete(Object(Image, Display, image.value)).GlDeleteIfSome(Texture, texture),
           s.(objects := TextureImage(None, None, None, emptied), destroyed := true),
           Ok(()))
      case WindowObjects(window) =>
        (if window.Some? then t.Delete(Object(WindowSurface, Display, window.value)) else t,
         s.(objects := WindowObjects(None), destroyed := true), Ok(()))
  }

  // ----- surface textures

  /** The texture gets the given name in the current context. */
  function ToSurfaceTexture(t: Tables, s: GlSurface, name: nat): (Tables, Outcome<nat>) {
    if s.objects.TextureImage? then (t.GlCreate(Texture, name), Ok(name)) else (t, Err(WidgetAttached))
  }

  /** The device makes context `c` current for this, which need not be the surface's. */
  function CreateTexture(t: Tables, c: nat, s: GlSurface, name: nat): (Tables, Outcome<nat>) {
    var (t', r) := ToSurfaceTexture(t.MakeCurrent(c), s, name);
    (t'.DropGuard(t.current), r)
  }

  /** Deletes the name in context `c`, whether or not the texture was created there. */
  function DestroyTexture(t: Tables, c: nat, name: nat): Tables {
    t.MakeCurrent(c).GlDelete(Texture, name).DropGuard(t.current)
  }
}
