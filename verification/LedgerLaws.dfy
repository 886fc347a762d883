/** The ledger of objects over whole runs with any number of contexts: what exists is exactly what live
    surfaces and textures own, as long as deletions go to the right context. */
module LedgerLaws {
  import opened Surfaces
  import opened Sums
  import S = LedgerSpec
  import opened LedgerSpec

  /** The object behind a handle of a surface or texture of context `c`. */
  function Behind(t: Tables, kind: S.Kind, c: nat, name: Option<nat>): set<Object> {
    if name.Some? then {t.Named(kind, c, name.value)} else {}
  }

  function OwnedAttachments(t: Tables, c: nat, a: Attachments): set<Object> {
    match a
    case Individual(depth, stencil) => Behind(t, Renderbuffer, c, depth) + Behind(t, Renderbuffer, c, stencil)
    case Combined(both) => Behind(t, Renderbuffer, c, both)
  }

  /** A surface owns the objects that its names stand for in its own context. */
  function Owned(t: Tables, s: GlSurface): set<Object> {
    match s.objects
    case TextureImage(image, framebuffer, texture, attachments) =>
      Behind(t, Image, s.contextId, image) + Behind(t, Framebuffer, s.contextId, framebuffer)
      + Behind(t, Texture, s.contextId, texture) + OwnedAttachments(t, s.contextId, attachments)
    case WindowObjects(window) => Behind(t, WindowSurface, s.contextId, window)
  }

  /** A live surface has all its objects and a destroyed one has none. */
  predicate WellFormed(s: GlSurface) {
    match s.objects
    case TextureImage(image, framebuffer, texture, attachments) =>
      && (attachments.Individual? ==> attachments.depth.None? || attachments.stencil.None?)
      && (if s.destroyed then image.None? && framebuffer.None? && texture.None? && attachments.Droppable()
          else image.Some? && framebuffer.Some? && texture.Some?)
    case WindowObjects(window) => window.None? <==> s.destroyed
  }

  /** The driver gives a new surface of context `c` names that are not in use there. */
  predicate Unused(t: Tables, c: nat, names: Names) {
    && t.Named(Texture, c, names.texture) !in t.live
    && t.Named(Image, c, names.image) !in t.live
    && t.Named(Framebuffer, c, names.framebuffer) !in t.live
    && t.Named(Renderbuffer, c, names.renderbuffer) !in t.live
  }

  predicate DropPanics(s: GlSurface) {
    s.objects.TextureImage? && !s.objects.attachments.Droppable()
  }

  // ----- one operation

  /** Whatever was current before, a new surface owns exactly the objects that came to exist, and its
      framebuffer is left bound in its context. */
  lemma CreateGenericLaw(t: Tables, contextId: nat, depth: bool, stencil: bool, names: Names)
    requires Unused(t, contextId, names)
    ensures var (t', s) := S.CreateGeneric(t, contextId, depth, stencil, names);
            && WellFormed(s) && !s.destroyed && s.contextId == contextId && s.objects.TextureImage?
            && Owned(t, s) !! t.live
            && t' == t.(live := t.live + Owned(t, s),
                        drawFbo := t.drawFbo[contextId := names.framebuffer],
                        readFbo := t.readFbo[contextId := names.framebuffer],
                        current := AfterGuard(t, contextId))
            && t.Named(Framebuffer, contextId, names.framebuffer) in Owned(t, s)
  {
    var (t', s) := S.CreateGeneric(t, contextId, depth, stencil, names);
    assert t'.live == t.live + Owned(t, s);
  }

  /** A new window surface belongs to its context and owns what came to exist; OpenGL is not touched. */
  lemma NewWindowLaw(t: Tables, contextId: nat, name: nat)
    requires t.Named(WindowSurface, contextId, name) !in t.live
    ensures var (t', s) := S.NewWindow(t, contextId, name);
            && WellFormed(s) && !s.destroyed && s.contextId == contextId && s.objects.WindowObjects?
            && Owned(t, s) !! t.live && Owned(t, s) == {Object(WindowSurface, Display, name)}
            && t' == t.(live := t.live + Owned(t, s))
  {
  }

  /** A new object can be deleted once; a second deletion, or one without a current context, is noticed
      and deletes nothing. */
  lemma MisdeletionIsNoticed(t: Tables, kind: S.Kind, c: nat, name: nat)
    requires t.current == Some(c) && t.Named(kind, c, name) !in t.live
    ensures t.GlCreate(kind, name).GlDelete(kind, name) == t
    ensures t.GlDelete(kind, name) == t.(misdeletions := t.misdeletions + 1)
    ensures var idle := t.(current := None);
            idle.GlCreate(kind, name) == idle && idle.GlDelete(kind, name).misdeletions > t.misdeletions
            && idle.GlDelete(kind, name).live == t.live
  {
  }

  /** A deletion in the context that a name is from. */
  lemma GlDeleteLaw(t: Tables, kind: S.Kind, c: nat, name: Option<nat>)
    requires t.current == Some(c) && Behind(t, kind, c, name) <= t.live
    ensures t.GlDeleteIfSome(kind, name) == t.(live := t.live - Behind(t, kind, c, name))
  {
  }

  lemma DestroyAttachmentsLaw(t: Tables, c: nat, a: Attachments)
    requires t.current == Some(c) && OwnedAttachments(t, c, a) <= t.live
    requires a.Individual? ==> a.depth.None? || a.stencil.None?
    ensures DestroyAttachments(t, a)
         == (t.(live := t.live - OwnedAttachments(t, c, a)), if a.Combined? then Combined(None) else Individual(None, None))
  {
    match a
    case Individual(depth, stencil) =>
      GlDeleteLaw(t, Renderbuffer, c, stencil);
      GlDeleteLaw(t.GlDeleteIfSome(Renderbuffer, stencil), Renderbuffer, c, depth);
      assert t.live - Behind(t, Renderbuffer, c, stencil) - Behind(t, Renderbuffer, c, depth)
          == t.live - OwnedAttachments(t, c, a);
    case Combined(both) => GlDeleteLaw(t, Renderbuffer, c, both);
  }

  /** The surface after it has been destroyed. */
  function Emptied(s: GlSurface): GlSurface {
    s.(destroyed := true,
       objects := if s.objects.WindowObjects? then WindowObjects(None)
                  else TextureImage(None, None, None,
                         if s.objects.attachments.Combined? then Combined(None) else Individual(None, None)))
  }

  /** While its context is current, destroying a surface deletes exactly what it owns, each object
      once, and unbinds framebuffers. */
  lemma DestroyLaw(t: Tables, s: GlSurface)
    requires WellFormed(s) && !s.destroyed && s.objects.TextureImage? && Owned(t, s) <= t.live
    requires t.current == Some(s.contextId)
    ensures S.Destroy(t, s.contextId, s)
         == (t.(live := t.live - Owned(t, s), drawFbo := t.drawFbo - {s.contextId}, readFbo := t.readFbo - {s.contextId}),
             Emptied(s), Ok(()))
  {
    var c, o := s.contextId, s.objects;
    var t0 := t.GlBindFramebuffer(None);
    GlDeleteLaw(t0, Framebuffer, c, o.framebuffer);
    var t1 := t0.GlDeleteIfSome(Framebuffer, o.framebuffer);
    assert OwnedAttachments(t1, c, o.attachments) == OwnedAttachments(t, c, o.attachments);
    DestroyAttachmentsLaw(t1, c, o.attachments);
    var t2 := DestroyAttachments(t1, o.attachments).0;
    var t3 := t2.Delete(Object(Image, Display, o.image.value));
    assert t3.live == t2.live - Behind(t, Image, c, o.image);
    GlDeleteLaw(t3, Texture, c, o.texture);
    assert t3.live - Behind(t, Texture, c, o.texture) == t.live - Owned(t, s);
  }

  /** A window surface needs no current context. */
  lemma DestroyWindowLaw(t: Tables, s: GlSurface)
    requires WellFormed(s) && !s.destroyed && s.objects.WindowObjects? && Owned(t, s) <= t.live
    ensures S.Destroy(t, s.contextId, s) == (t.(live := t.live - Owned(t, s)), Emptied(s), Ok(()))
  {
  }

  lemma GlDeleteElsewhere(t: Tables, kind: S.Kind, name: Option<nat>, fbo: Object)
    requires fbo.space.Context? && t.current != Some(fbo.space.c) && fbo in t.live
    ensures var t' := t.GlDeleteIfSome(kind, name);
            fbo in t'.live && t'.current == t.current && t'.groups == t.groups
  {
  }

  /** With another context current, or none, the surface's framebuffer survives, although the surface
      counts as destroyed and has lost its name. */
  lemma DestroyElsewhereLeaks(t: Tables, s: GlSurface, fbo: Object)
    requires WellFormed(s) && !s.destroyed && s.objects.TextureImage? && fbo in t.live
    requires fbo == t.Named(Framebuffer, s.contextId, s.objects.framebuffer.value) && t.current != Some(s.contextId)
    ensures var (t', s', r) := S.Destroy(t, s.contextId, s);
            r == Ok(()) && s' == Emptied(s) && t'.groups == t.groups && fbo in t'.live
  {
    var o := s.objects;
    var t0 := t.GlBindFramebuffer(None);
    GlDeleteElsewhere(t0, Framebuffer, o.framebuffer, fbo);
    var t1 := t0.GlDeleteIfSome(Framebuffer, o.framebuffer);
    match o.attachments {
      case Individual(depth, stencil) =>
        GlDeleteElsewhere(t1, Renderbuffer, stencil, fbo);
        GlDeleteElsewhere(t1.GlDeleteIfSome(Renderbuffer, stencil), Renderbuffer, depth, fbo);
      case Combined(both) => GlDeleteElsewhere(t1, Renderbuffer, both, fbo);
    }
    var t2 := DestroyAttachments(t1, o.attachments).0;
    GlDeleteElsewhere(t2.Delete(Object(Image, Display, o.image.value)), Texture, o.texture, fbo);
  }

  /** What a guard leaves current. */
  function AfterGuard(t: Tables, c: nat): Option<nat> {
    if t.current.Some? then t.current else Some(c)
  }

  /** A new texture exists in the context it was created in. */
  lemma CreateTextureLaw(t: Tables, c: nat, s: GlSurface, name: nat)
    ensures CreateTexture(t, c, s, name)
         == if s.objects.TextureImage? then
              (t.(live := t.live + {t.Named(Texture, c, name)}, current := AfterGuard(t, c)), Ok(name))
            else (t.(current := AfterGuard(t, c)), Err(WidgetAttached))
  {
  }

  /** Destroying a texture through a context that shares with the one it was created in. */
  lemma DestroyTextureLaw(t: Tables, c: nat, created: nat, name: nat)
    requires t.GroupOf(c) == t.GroupOf(created) && t.Named(Texture, created, name) in t.live
    ensures DestroyTexture(t, c, name)
         == t.(live := t.live - {t.Named(Texture, created, name)}, current := AfterGuard(t, c))
  {
  }

  /** The attachments of a surface, as the renderer sees them: the object for depth and the one for
      stencil. */
  function DepthOf(t: Tables, s: GlSurface): set<Object>
    requires s.objects.TextureImage?
  {
    var a := s.objects.attachments;
    Behind(t, Renderbuffer, s.contextId, if a.Individual? then a.depth else a.depthStencil)
  }

  function StencilOf(t: Tables, s: GlSurface): set<Object>
    requires s.objects.TextureImage?
  {
    var a := s.objects.attachments;
    Behind(t, Renderbuffer, s.contextId, if a.Individual? then a.stencil else a.depthStencil)
  }

  /** A new surface has the attachments that were asked for and no other: one renderbuffer in its share
      group for depth, or for stencil, or a combined one for both. */
  lemma AttachmentsAsAsked(t: Tables, c: nat, depth: bool, stencil: bool, names: Names)
    requires Unused(t, c, names)
    ensures var (t', s) := S.CreateGeneric(t, c, depth, stencil, names);
            var buffer := Object(Renderbuffer, Group(t.GroupOf(c)), names.renderbuffer);
            && s.objects.TextureImage?
            && DepthOf(t', s) == (if depth then {buffer} else {})
            && StencilOf(t', s) == (if stencil then {buffer} else {})
            && (s.objects.attachments.Combined? <==> depth && stencil)
            && (buffer in t'.live <==> depth || stencil)
  {
  }

  /** What destroying a surface returns, in every state of the surface. */
  function DestroyAnswer(contextId: nat, s: GlSurface): Outcome<()> {
    if contextId != s.contextId then Err(IncompatibleSurface)
    else if s.objects.TextureImage? && s.objects.image.None? then Panic
    else Ok(())
  }

  lemma DestroyReturns(t: Tables, contextId: nat, s: GlSurface)
    ensures var (t', s', r) := S.Destroy(t, contextId, s);
            && r == DestroyAnswer(contextId, s)
            && s'.contextId == s.contextId && s'.destroyed == (s.destroyed || r == Ok(()))
            && (r == Err(IncompatibleSurface) ==> t' == t && s' == s)
  {
  }

  /** Only bindings of the given framebuffer in the current context are undone, for drawing and for
      reading each by itself. */
  lemma UnbindsOnly(t: Tables, fbo: nat)
    ensures var t' := t.GlUnbindIfNecessary(fbo);
            && t' == t.(drawFbo := t'.drawFbo, readFbo := t'.readFbo)
            && (forall c: nat :: c in t'.drawFbo <==> c in t.drawFbo && !(t.current == Some(c) && t.drawFbo[c] == fbo))
            && (forall c: nat :: c in t'.readFbo <==> c in t.readFbo && !(t.current == Some(c) && t.readFbo[c] == fbo))
            && (forall c: nat :: c in t'.drawFbo ==> t'.drawFbo[c] == t.drawFbo[c])
            && (forall c: nat :: c in t'.readFbo ==> t'.readFbo[c] == t.readFbo[c])
  {
  }

  /** Destroying a framebuffer of the current context leaves it neither bound nor in existence. */
  lemma DestroysFramebuffer(t: Tables, c: nat, fbo: nat)
    requires t.current == Some(c) && t.Named(Framebuffer, c, fbo) in t.live
    ensures var t' := t.GlDestroyFramebuffer(fbo);
            && t'.live == t.live - {t.Named(Framebuffer, c, fbo)} && t'.misdeletions == t.misdeletions
            && !(c in t'.drawFbo && t'.drawFbo[c] == fbo) && !(c in t'.readFbo && t'.readFbo[c] == fbo)
  {
  }

  /** Exactly when destroying a surface panics: a generic one that has been destroyed before, by a
      call with its own context. */
  lemma DestroyPanicsIff(t: Tables, contextId: nat, s: GlSurface)
    requires WellFormed(s)
    ensures S.Destroy(t, contextId, s).2 == Panic
       <==> contextId == s.contextId && s.objects.TextureImage? && s.destroyed
  {
  }

  /** Exactly when letting a new surface go panics: it has renderbuffers. Once destroyed by its own
      context it can be let go, and a foreign context's attempt does not change that it cannot. */
  lemma DropPanicsIff(t: Tables, contextId: nat, depth: bool, stencil: bool, names: Names, caller: nat)
    ensures var (t', s) := S.CreateGeneric(t, contextId, depth, stencil, names);
            && (DropPanics(s) <==> depth || stencil)
            && (DropPanics(S.Destroy(t', caller, s).1) <==> (depth || stencil) && caller != contextId)
  {
  }

  // ----- runs

  /** A surface, by itself or inside a texture that was created in context `c`. */
  datatype Piece = Loose(surface: GlSurface) | Wrapped(surface: GlSurface, c: nat, texture: nat)

  /** `panics` counts the surfaces that went out of scope with renderbuffers. */
  datatype State = State(tables: Tables, pieces: seq<Piece>, panics: nat)

  /** Calls on one thread. `c` is the context passed to a call. */
  datatype Action =
    | NewContext(share: Option<nat>)
    | MakeCurrent(c: nat)
    | MakeNoneCurrent
    | NewGeneric(c: nat, depth: bool, stencil: bool, names: Names)
    | NewWindow(c: nat, name: nat)
    | Wrap(i: nat, c: nat, name: nat)
    | Unwrap(i: nat, c: nat)
    | Destroy(i: nat, c: nat)
    | Drop(i: nat)

  const START := State(Tables([], None, {}, map[], map[], 0), [], 0)

  predicate IsContext(s: State, c: nat) {
    c < |s.tables.groups|
  }

  predicate IsLoose(s: State, i: nat) {
    i < |s.pieces| && s.pieces[i].Loose?
  }

  predicate InScope(s: State, a: Action) {
    match a
    case NewContext(share) => share.Some? ==> IsContext(s, share.value)
    case MakeCurrent(c) => IsContext(s, c)
    case MakeNoneCurrent => true
    case NewGeneric(c, _, _, names) => IsContext(s, c) && Unused(s.tables, c, names)
    case NewWindow(c, name) => IsContext(s, c) && s.tables.Named(WindowSurface, c, name) !in s.tables.live
    case Wrap(i, c, name) => IsLoose(s, i) && IsContext(s, c) && s.tables.Named(Texture, c, name) !in s.tables.live
    case Unwrap(i, c) => i < |s.pieces| && s.pieces[i].Wrapped? && IsContext(s, c)
    case Destroy(i, c) => IsLoose(s, i) && IsContext(s, c)
    case Drop(i) => IsLoose(s, i)
  }

  function Apply(s: State, a: Action): State
    requires InScope(s, a)
  {
    match a
    case NewContext(share) => s.(tables := s.tables.NewContext(share))
    case MakeCurrent(c) => s.(tables := s.tables.MakeCurrent(c))
    case MakeNoneCurrent => s.(tables := s.tables.(current := None))
    case NewGeneric(c, depth, stencil, names) =>
      var (t, x) := S.CreateGeneric(s.tables, c, depth, stencil, names);
      s.(tables := t, pieces := s.pieces + [Loose(x)])
    case NewWindow(c, name) =>
      var (t, x) := S.NewWindow(s.tables, c, name);
      s.(tables := t, pieces := s.pieces + [Loose(x)])
    case Wrap(i, c, name) =>
      var (t, r) := CreateTexture(s.tables, c, s.pieces[i].surface, name);
      s.(tables := t,
         pieces := if r.Ok? then s.pieces[i := Wrapped(s.pieces[i].surface, c, r.value)] else s.pieces)
    case Unwrap(i, c) =>
      s.(tables := DestroyTexture(s.tables, c, s.pieces[i].texture),
         pieces := s.pieces[i := Loose(s.pieces[i].surface)])
    case Destroy(i, c) =>
      var (t, x, _) := S.Destroy(s.tables, c, s.pieces[i].surface);
      s.(tables := t, pieces := s.pieces[i := Loose(x)])
    case Drop(i) =>
      s.(pieces := s.pieces[..i] + s.pieces[i + 1..],
         panics := s.panics + if DropPanics(s.pieces[i].surface) then 1 else 0)
  }

  /** The deletions of the call, if any, go to the context that the names are from. */
  predicate AtHome(s: State, a: Action)
    requires InScope(s, a)
  {
    match a
    case Destroy(i, c) =>
      var x := s.pieces[i].surface;
      x.objects.WindowObjects? || c != x.contextId || s.tables.current == Some(c)
    case Unwrap(i, c) => s.tables.GroupOf(c) == s.tables.GroupOf(s.pieces[i].c)
    case _ => true
  }

  /** A surface is used and destroyed only while it has not been destroyed, and is let go only after;
      deletions are made at home. */
  predicate Legal(s: State, a: Action) {
    && InScope(s, a)
    && (a.Wrap? || a.Destroy? ==> !s.pieces[a.i].surface.destroyed)
    && (a.Drop? ==> s.pieces[a.i].surface.destroyed)
    && AtHome(s, a)
  }

  function PieceOwned(t: Tables, p: Piece): set<Object> {
    Owned(t, p.surface) + if p.Wrapped? then {t.Named(Texture, p.c, p.texture)} else {}
  }

  function InPiece(t: Tables, p: Piece, o: Object): nat {
    if o in PieceOwned(t, p) then 1 else 0
  }

  function Counts(t: Tables, pieces: seq<Piece>, o: Object): seq<nat> {
    seq(|pieces|, i requires 0 <= i < |pieces| => InPiece(t, pieces[i], o))
  }

  /** How many surfaces and textures own the object. */
  function Owners(s: State, o: Object): nat {
    Sum(Counts(s.tables, s.pieces, o))
  }

  ghost predicate PieceOk(t: Tables, p: Piece) {
    && WellFormed(p.surface)
    && p.surface.contextId < |t.groups|
    && (p.Wrapped? ==>
          && !p.surface.destroyed
          && p.c < |t.groups|
          && t.Named(Texture, p.c, p.texture) !in Owned(t, p.surface))
  }

  ghost predicate PiecesOk(s: State) {
    forall i :: 0 <= i < |s.pieces| ==> PieceOk(s.tables, s.pieces[i])
  }

  ghost predicate TablesOk(t: Tables) {
    && t.misdeletions == 0
    && (t.current.Some? ==> t.current.value < |t.groups|)
    && (forall c :: c in t.drawFbo ==> t.Named(Framebuffer, c, t.drawFbo[c]) in t.live)
    && (forall c :: c in t.readFbo ==> t.Named(Framebuffer, c, t.readFbo[c]) in t.live)
  }

  ghost predicate Balanced(s: State) {
    forall o :: Owners(s, o) == if o in s.tables.live then 1 else 0
  }

  ghost predicate Inv(s: State) {
    PiecesOk(s) && TablesOk(s.tables) && Balanced(s) && s.panics == 0
  }

  // ----- counting owners

  lemma OwnersSet(s: State, i: nat, p: Piece, o: Object)
    requires i < |s.pieces|
    ensures Sum(Counts(s.tables, s.pieces[i := p], o)) + InPiece(s.tables, s.pieces[i], o)
         == Owners(s, o) + InPiece(s.tables, p, o)
  {
    var all := Counts(s.tables, s.pieces, o);
    assert Counts(s.tables, s.pieces[i := p], o) == all[i := InPiece(s.tables, p, o)];
    SumUpdate(all, i, InPiece(s.tables, p, o));
  }

  lemma OwnersAdd(s: State, p: Piece, o: Object)
    ensures Sum(Counts(s.tables, s.pieces + [p], o)) == Owners(s, o) + InPiece(s.tables, p, o)
  {
    var all := Counts(s.tables, s.pieces, o);
    assert Counts(s.tables, s.pieces + [p], o) == all + [InPiece(s.tables, p, o)];
    SumAppend(all, InPiece(s.tables, p, o));
  }

  lemma OwnersRemove(s: State, i: nat, o: Object)
    requires i < |s.pieces|
    ensures Sum(Counts(s.tables, s.pieces[..i] + s.pieces[i + 1..], o)) + InPiece(s.tables, s.pieces[i], o)
         == Owners(s, o)
  {
    var all := Counts(s.tables, s.pieces, o);
    assert Counts(s.tables, s.pieces[..i] + s.pieces[i + 1..], o) == all[..i] + all[i + 1..];
    SumRemove(all, i);
  }

  /** What the pieces own depends only on the share groups of their contexts. */
  lemma OwnersElsewhere(t: Tables, t': Tables, pieces: seq<Piece>, o: Object)
    requires forall i :: 0 <= i < |pieces| ==> PieceOk(t, pieces[i])
    requires |t.groups| <= |t'.groups| && t'.groups[..|t.groups|] == t.groups
    ensures Counts(t', pieces, o) == Counts(t, pieces, o)
    ensures forall i :: 0 <= i < |pieces| ==> PieceOk(t', pieces[i])
  {
    assert forall c: nat :: c < |t.groups| ==> t'.GroupOf(c) == t.GroupOf(c);
    forall i | 0 <= i < |pieces|
      ensures PieceOwned(t', pieces[i]) == PieceOwned(t, pieces[i]) && PieceOk(t', pieces[i])
    {
      assert PieceOk(t, pieces[i]);
      assert Owned(t', pieces[i].surface) == Owned(t, pieces[i].surface);
    }
  }

  lemma PieceIsLive(s: State, i: nat)
    requires Balanced(s) && i < |s.pieces|
    ensures PieceOwned(s.tables, s.pieces[i]) <= s.tables.live
  {
    forall o | o in PieceOwned(s.tables, s.pieces[i]) ensures o in s.tables.live {
      AtMostSum(Counts(s.tables, s.pieces, o), i);
      assert Counts(s.tables, s.pieces, o)[i] == 1;
    }
  }

  // ----- every action

  /** The tables have changed only in what exists, in bindings and in what is current. */
  predicate SameGroups(t: Tables, t': Tables) {
    t'.groups == t.groups
  }

  lemma OwnersKept(s: State, t: Tables, o: Object)
    requires PiecesOk(s) && SameGroups(s.tables, t)
    ensures Owners(s.(tables := t), o) == Owners(s, o)
    ensures PiecesOk(s.(tables := t))
  {
    OwnersElsewhere(s.tables, t, s.pieces, o);
  }

  /** A piece joins, and what it owns has come to exist. */
  ghost predicate Joined(t: Tables, t': Tables, p: Piece) {
    && SameGroups(t, t') && TablesOk(t') && PieceOk(t', p)
    && PieceOwned(t', p) !! t.live && t'.live == t.live + PieceOwned(t', p)
  }

  lemma AddKeepsInv(s: State, p: Piece, t: Tables)
    requires Inv(s) && Joined(s.tables, t, p)
    ensures Inv(s.(tables := t, pieces := s.pieces + [p]))
  {
    var s' := s.(tables := t, pieces := s.pieces + [p]);
    forall o ensures Owners(s', o) == if o in t.live then 1 else 0 {
      OwnersKept(s, t, o);
      OwnersAdd(s.(tables := t), p, o);
      assert Owners(s, o) == if o in s.tables.live then 1 else 0;
    }
    OwnersKept(s, t, Object(Image, Display, 0));
  }

  /** What exists changes by what a piece owned before and owns after. */
  ghost predicate Exchanged(t: Tables, p: Piece, t': Tables, p': Piece) {
    && SameGroups(t, t') && TablesOk(t') && PieceOk(t', p')
    && t'.live == t.live - PieceOwned(t, p) + PieceOwned(t', p')
    && PieceOwned(t', p') - PieceOwned(t, p) !! t.live
  }

  lemma SetKeepsInv(s: State, i: nat, p: Piece, t: Tables)
    requires Inv(s) && i < |s.pieces| && Exchanged(s.tables, s.pieces[i], t, p)
    ensures Inv(s.(tables := t, pieces := s.pieces[i := p]))
  {
    var s1 := s.(tables := t);
    OwnersKept(s, t, Object(Image, Display, 0));
    forall o ensures Owners(s1.(pieces := s.pieces[i := p]), o) == if o in t.live then 1 else 0 {
      OwnersElsewhere(s.tables, t, s.pieces, o);
      OwnersSet(s1, i, p, o);
      assert Owners(s, o) == if o in s.tables.live then 1 else 0;
      AtMostSum(Counts(t, s.pieces, o), i);
      assert Counts(t, s.pieces, o)[i] == Counts(s.tables, s.pieces, o)[i];
    }
  }

  lemma ContextKeepsInv(s: State, a: Action)
    requires Inv(s) && InScope(s, a) && (a.NewContext? || a.MakeCurrent? || a.MakeNoneCurrent?)
    ensures Inv(Apply(s, a))
  {
    var s' := Apply(s, a);
    forall o ensures Owners(s', o) == if o in s'.tables.live then 1 else 0 {
      OwnersElsewhere(s.tables, s'.tables, s.pieces, o);
      assert Owners(s, o) == if o in s.tables.live then 1 else 0;
    }
    OwnersElsewhere(s.tables, s'.tables, s.pieces, Object(Image, Display, 0));
  }

  /** The tables stay in order when no framebuffer goes and no binding changes. */
  lemma TablesStayOk(t: Tables, t': Tables)
    requires TablesOk(t) && t' == t.(live := t'.live, current := t'.current)
    requires t'.current.Some? ==> t'.current.value < |t.groups|
    requires forall o :: o in t.live && o.kind == Framebuffer ==> o in t'.live
    ensures TablesOk(t')
  {
  }

  /** The framebuffers that go are those of a context in which none is bound any more. */
  lemma BindingsStayOk(t: Tables, t': Tables, c: nat)
    requires TablesOk(t) && t' == t.(live := t'.live, drawFbo := t.drawFbo - {c}, readFbo := t.readFbo - {c})
    requires forall o :: o in t.live && o.kind == Framebuffer && o.space != Context(c) ==> o in t'.live
    ensures TablesOk(t')
  {
  }

  lemma CreateGenericJoins(t: Tables, c: nat, depth: bool, stencil: bool, names: Names)
    requires TablesOk(t) && c < |t.groups| && Unused(t, c, names)
    ensures var (t', x) := S.CreateGeneric(t, c, depth, stencil, names); Joined(t, t', Loose(x))
  {
    CreateGenericLaw(t, c, depth, stencil, names);
    var (t', x) := S.CreateGeneric(t, c, depth, stencil, names);
    assert Owned(t', x) == Owned(t, x);
  }

  lemma NewGenericKeepsInv(s: State, c: nat, depth: bool, stencil: bool, names: Names)
    requires Inv(s) && InScope(s, NewGeneric(c, depth, stencil, names))
    ensures Inv(Apply(s, NewGeneric(c, depth, stencil, names)))
  {
    CreateGenericJoins(s.tables, c, depth, stencil, names);
    var (t, x) := S.CreateGeneric(s.tables, c, depth, stencil, names);
    AddKeepsInv(s, Loose(x), t);
  }

  lemma NewWindowKeepsInv(s: State, c: nat, name: nat)
    requires Inv(s) && InScope(s, NewWindow(c, name))
    ensures Inv(Apply(s, NewWindow(c, name)))
  {
    var (t, x) := S.NewWindow(s.tables, c, name);
    TablesStayOk(s.tables, t);
    AddKeepsInv(s, Loose(x), t);
  }

  lemma WrapExchanges(t: Tables, x: GlSurface, c: nat, name: nat)
    requires TablesOk(t) && PieceOk(t, Loose(x)) && !x.destroyed && Owned(t, x) <= t.live
    requires c < |t.groups| && t.Named(Texture, c, name) !in t.live
    ensures var t' := CreateTexture(t, c, x, name).0;
            Exchanged(t, Loose(x), t', if x.objects.TextureImage? then Wrapped(x, c, name) else Loose(x))
  {
    var t' := CreateTexture(t, c, x, name).0;
    CreateTextureLaw(t, c, x, name);
    TablesStayOk(t, t');
    assert Owned(t', x) == Owned(t, x);
  }

  lemma UnwrapExchanges(t: Tables, p: Piece, c: nat)
    requires TablesOk(t) && PieceOk(t, p) && p.Wrapped? && PieceOwned(t, p) <= t.live
    requires c < |t.groups| && t.GroupOf(c) == t.GroupOf(p.c)
    ensures Exchanged(t, p, DestroyTexture(t, c, p.texture), Loose(p.surface))
  {
    var t' := DestroyTexture(t, c, p.texture);
    DestroyTextureLaw(t, c, p.c, p.texture);
    TablesStayOk(t, t');
    assert Owned(t', p.surface) == Owned(t, p.surface);
  }

  lemma EmptiedExchanges(t: Tables, x: GlSurface, t': Tables)
    requires PieceOk(t, Loose(x)) && SameGroups(t, t') && TablesOk(t') && t'.live == t.live - Owned(t, x)
    ensures Exchanged(t, Loose(x), t', Loose(Emptied(x)))
  {
    assert Owned(t', Emptied(x)) == {};
  }

  lemma DestroyExchanges(t: Tables, x: GlSurface)
    requires TablesOk(t) && PieceOk(t, Loose(x)) && !x.destroyed && Owned(t, x) <= t.live
    requires x.objects.TextureImage? ==> t.current == Some(x.contextId)
    ensures var (t', x', _) := S.Destroy(t, x.contextId, x);
            Exchanged(t, Loose(x), t', Loose(x'))
  {
    var c := x.contextId;
    if x.objects.WindowObjects? {
      var t' := t.(live := t.live - Owned(t, x));
      DestroyWindowLaw(t, x);
      TablesStayOk(t, t');
      EmptiedExchanges(t, x, t');
    } else {
      var t' := t.(live := t.live - Owned(t, x), drawFbo := t.drawFbo - {c}, readFbo := t.readFbo - {c});
      DestroyLaw(t, x);
      BindingsStayOk(t, t', c);
      EmptiedExchanges(t, x, t');
    }
  }

  lemma WrapKeepsInv(s: State, i: nat, c: nat, name: nat)
    requires Inv(s) && Legal(s, Wrap(i, c, name))
    ensures Inv(Apply(s, Wrap(i, c, name)))
  {
    var x := s.pieces[i].surface;
    PieceIsLive(s, i);
    WrapExchanges(s.tables, x, c, name);
    var p := if x.objects.TextureImage? then Wrapped(x, c, name) else Loose(x);
    SetKeepsInv(s, i, p, CreateTexture(s.tables, c, x, name).0);
    assert s.pieces[i := Loose(x)] == s.pieces;
  }

  lemma UnwrapKeepsInv(s: State, i: nat, c: nat)
    requires Inv(s) && Legal(s, Unwrap(i, c))
    ensures Inv(Apply(s, Unwrap(i, c)))
  {
    PieceIsLive(s, i);
    UnwrapExchanges(s.tables, s.pieces[i], c);
    SetKeepsInv(s, i, Loose(s.pieces[i].surface), DestroyTexture(s.tables, c, s.pieces[i].texture));
  }

  lemma DestroyKeepsInv(s: State, i: nat, c: nat)
    requires Inv(s) && Legal(s, Destroy(i, c))
    ensures Inv(Apply(s, Destroy(i, c)))
  {
    var x := s.pieces[i].surface;
    var (t, x', _) := S.Destroy(s.tables, c, x);
    if c == x.contextId {
      PieceIsLive(s, i);
      DestroyExchanges(s.tables, x);
      SetKeepsInv(s, i, Loose(x'), t);
    } else {
      assert Apply(s, Destroy(i, c)) == s;
    }
  }

  lemma DropKeepsInv(s: State, i: nat)
    requires Inv(s) && Legal(s, Drop(i))
    ensures Inv(Apply(s, Drop(i)))
  {
    var s' := Apply(s, Drop(i));
    assert PieceOk(s.tables, s.pieces[i]) && PieceOwned(s.tables, s.pieces[i]) == {};
    forall o ensures Owners(s', o) == if o in s'.tables.live then 1 else 0 {
      OwnersRemove(s, i, o);
      assert Owners(s, o) == if o in s.tables.live then 1 else 0;
    }
    forall j | 0 <= j < |s'.pieces| ensures PieceOk(s'.tables, s'.pieces[j]) {
      assert s'.pieces[j] == s.pieces[if j < i then j else j + 1];
    }
  }

  lemma ApplyKeepsInv(s: State, a: Action)
    requires Inv(s) && Legal(s, a)
    ensures Inv(Apply(s, a))
  {
    match a
    case Wrap(i, c, name) => WrapKeepsInv(s, i, c, name);
    case Unwrap(i, c) => UnwrapKeepsInv(s, i, c);
    case Destroy(i, c) => DestroyKeepsInv(s, i, c);
    case Drop(i) => DropKeepsInv(s, i);
    case NewGeneric(c, depth, stencil, names) => NewGenericKeepsInv(s, c, depth, stencil, names);
    case NewWindow(c, name) => NewWindowKeepsInv(s, c, name);
    case _ => ContextKeepsInv(s, a);
  }

  // ----- the rule about current contexts is exact

  /** Piece `i` no longer owns an object that still exists. */
  lemma OrphanBreaksInv(s: State, i: nat, p: Piece, t: Tables, o: Object)
    requires Inv(s) && i < |s.pieces| && SameGroups(s.tables, t)
    requires o in PieceOwned(s.tables, s.pieces[i]) && o !in PieceOwned(t, p) && o in t.live
    ensures !Inv(s.(tables := t, pieces := s.pieces[i := p]))
  {
    var s' := s.(tables := t, pieces := s.pieces[i := p]);
    PieceIsLive(s, i);
    OwnersKept(s, t, o);
    OwnersSet(s.(tables := t), i, p, o);
    assert Counts(t, s.pieces, o)[i] == Counts(s.tables, s.pieces, o)[i] by {
      OwnersElsewhere(s.tables, t, s.pieces, o);
    }
    assert Owners(s, o) == 1;
    assert Owners(s', o) == 0;
  }

  lemma DestroyElsewhereBreaksInv(s: State, i: nat, c: nat)
    requires Inv(s) && InScope(s, Destroy(i, c)) && !s.pieces[i].surface.destroyed && !AtHome(s, Destroy(i, c))
    ensures !Inv(Apply(s, Destroy(i, c)))
  {
    var x := s.pieces[i].surface;
    assert PieceOk(s.tables, s.pieces[i]);
    PieceIsLive(s, i);
    var fbo := s.tables.Named(Framebuffer, c, x.objects.framebuffer.value);
    assert fbo in Owned(s.tables, x);
    DestroyElsewhereLeaks(s.tables, x, fbo);
    var t := S.Destroy(s.tables, c, x).0;
    assert PieceOwned(t, Loose(Emptied(x))) == {};
    OrphanBreaksInv(s, i, Loose(Emptied(x)), t, fbo);
  }

  /** A surface that has been destroyed has nothing to delete. */
  lemma DestroyAgainKeepsInv(s: State, i: nat, c: nat)
    requires Inv(s) && InScope(s, Destroy(i, c)) && s.pieces[i].surface.destroyed
    ensures Inv(Apply(s, Destroy(i, c)))
  {
    var x, t := s.pieces[i].surface, Apply(s, Destroy(i, c)).tables;
    assert PieceOk(s.tables, s.pieces[i]);
    assert s.pieces[i := Loose(x)] == s.pieces;
    assert Owned(t, x) == {} == Owned(s.tables, x);
    SetKeepsInv(s, i, Loose(x), t);
  }

  /** Exactly when destroying a surface keeps the ledger: it is a window surface or has been destroyed
      before, or the call is rejected, or the surface's context is current. */
  lemma DestroyKeepsInvIff(s: State, i: nat, c: nat)
    requires Inv(s) && InScope(s, Destroy(i, c))
    ensures var x := s.pieces[i].surface;
            Inv(Apply(s, Destroy(i, c)))
            <==> x.destroyed || x.objects.WindowObjects? || c != x.contextId || s.tables.current == Some(c)
  {
    if s.pieces[i].surface.destroyed {
      DestroyAgainKeepsInv(s, i, c);
    } else if AtHome(s, Destroy(i, c)) {
      DestroyKeepsInv(s, i, c);
    } else {
      DestroyElsewhereBreaksInv(s, i, c);
    }
  }

  lemma DestroyTextureElsewhere(t: Tables, p: Piece, c: nat)
    requires PieceOk(t, p) && p.Wrapped? && PieceOwned(t, p) <= t.live && t.GroupOf(c) != t.GroupOf(p.c)
    ensures var t' := DestroyTexture(t, c, p.texture);
            var o := t.Named(Texture, p.c, p.texture);
            t'.groups == t.groups && o in t'.live && o !in PieceOwned(t', Loose(p.surface))
  {
    var t' := DestroyTexture(t, c, p.texture);
    assert Owned(t', p.surface) == Owned(t, p.surface);
  }

  /** Exactly when destroying a surface texture keeps the ledger: the context passed shares with the
      one that the texture was created in. */
  lemma UnwrapKeepsInvIff(s: State, i: nat, c: nat)
    requires Inv(s) && InScope(s, Unwrap(i, c))
    ensures Inv(Apply(s, Unwrap(i, c))) <==> s.tables.GroupOf(c) == s.tables.GroupOf(s.pieces[i].c)
  {
    if AtHome(s, Unwrap(i, c)) {
      UnwrapKeepsInv(s, i, c);
    } else {
      var p := s.pieces[i];
      PieceIsLive(s, i);
      DestroyTextureElsewhere(s.tables, p, c);
      OrphanBreaksInv(s, i, Loose(p.surface), DestroyTexture(s.tables, c, p.texture),
                      s.tables.Named(Texture, p.c, p.texture));
    }
  }

  // ----- every run

  function After(actions: seq<Action>): State {
    if actions == [] then START
    else
      var s := After(actions[..|actions| - 1]);
      var a := actions[|actions| - 1];
      if InScope(s, a) then Apply(s, a) else s
  }

  predicate LegalRun(actions: seq<Action>) {
    actions == [] ||
    var before := actions[..|actions| - 1];
    LegalRun(before) && Legal(After(before), actions[|actions| - 1])
  }

  lemma {:induction false} RunKeepsInv(actions: seq<Action>)
    requires LegalRun(actions)
    ensures Inv(After(actions))
  {
    if actions != [] {
      RunKeepsInv(actions[..|actions| - 1]);
      ApplyKeepsInv(After(actions[..|actions| - 1]), actions[|actions| - 1]);
    }
  }

  /** In every legal run each existing object is owned by exactly one surface or texture and nothing
      owns an object that does not exist; no deletion ever named a missing object, no deleted
      framebuffer is bound, and no surface was let go with renderbuffers. */
  lemma LedgerBalances(actions: seq<Action>, o: Object)
    requires LegalRun(actions)
    ensures var s := After(actions);
            && Owners(s, o) == (if o in s.tables.live then 1 else 0)
            && s.tables.misdeletions == 0 && s.panics == 0
    ensures var t := After(actions).tables;
            forall c :: && (c in t.drawFbo ==> t.Named(Framebuffer, c, t.drawFbo[c]) in t.live)
                        && (c in t.readFbo ==> t.Named(Framebuffer, c, t.readFbo[c]) in t.live)
  {
    RunKeepsInv(actions);
  }

  /** Once every surface has been destroyed or let go, no object exists. */
  lemma NothingLeaks(actions: seq<Action>)
    requires LegalRun(actions)
    requires forall i :: 0 <= i < |After(actions).pieces| ==> After(actions).pieces[i].surface.destroyed
    ensures After(actions).tables.live == {}
  {
    RunKeepsInv(actions);
    var s := After(actions);
    forall o ensures o !in s.tables.live {
      forall i | 0 <= i < |s.pieces| ensures Counts(s.tables, s.pieces, o)[i] == 0 {
        assert PieceOk(s.tables, s.pieces[i]);
      }
      SumOfZeros(Counts(s.tables, s.pieces, o));
      assert Owners(s, o) == if o in s.tables.live then 1 else 0;
    }
  }

  // ----- sharing

  ghost predicate GroupsOk(t: Tables) {
    forall c :: 0 <= c < |t.groups| ==> t.groups[c] <= c
  }

  lemma GlDeleteKeepsGroups(t: Tables, kind: S.Kind, name: Option<nat>)
    ensures t.GlDeleteIfSome(kind, name).groups == t.groups
  {
  }

  lemma DestroyAttachmentsKeepsGroups(t: Tables, a: Attachments)
    ensures DestroyAttachments(t, a).0.groups == t.groups
  {
    match a
    case Individual(depth, stencil) =>
      GlDeleteKeepsGroups(t, Renderbuffer, stencil);
      GlDeleteKeepsGroups(t.GlDeleteIfSome(Renderbuffer, stencil), Renderbuffer, depth);
    case Combined(both) => GlDeleteKeepsGroups(t, Renderbuffer, both);
  }

  lemma DestroyKeepsGroups(t: Tables, c: nat, s: GlSurface)
    ensures S.Destroy(t, c, s).0.groups == t.groups
  {
    if c == s.contextId && s.objects.TextureImage? {
      var o := s.objects;
      var t0 := t.GlBindFramebuffer(None);
      GlDeleteKeepsGroups(t0, Framebuffer, o.framebuffer);
      var t1 := t0.GlDeleteIfSome(Framebuffer, o.framebuffer);
      DestroyAttachmentsKeepsGroups(t1, o.attachments);
      if o.image.Some? {
        var t2 := DestroyAttachments(t1, o.attachments).0;
        GlDeleteKeepsGroups(t2.Delete(Object(Image, Display, o.image.value)), Texture, o.texture);
      }
    }
  }

  lemma OnlyNewContextsJoin(s: State, a: Action)
    requires InScope(s, a) && !a.NewContext?
    ensures Apply(s, a).tables.groups == s.tables.groups
  {
    match a
    case Destroy(i, c) => DestroyKeepsGroups(s.tables, c, s.pieces[i].surface);
    case NewGeneric(c, depth, stencil, names) => CreateGenericLaw(s.tables, c, depth, stencil, names);
    case Wrap(i, c, name) => CreateTextureLaw(s.tables, c, s.pieces[i].surface, name);
    case _ =>
  }

  lemma {:induction false} RunKeepsGroups(actions: seq<Action>)
    ensures GroupsOk(After(actions).tables)
  {
    if actions != [] {
      var s, a := After(actions[..|actions| - 1]), actions[|actions| - 1];
      RunKeepsGroups(actions[..|actions| - 1]);
      if InScope(s, a) && !a.NewContext? {
        OnlyNewContextsJoin(s, a);
      }
    }
  }

  /** In every run a new context becomes current; it shares names with the context it was asked to share
      with and all that share with that one, and without such a request with no other context. The
      contexts that exist already share as before. */
  lemma SharesAsAsked(actions: seq<Action>, share: Option<nat>)
    requires InScope(After(actions), NewContext(share))
    ensures var t, t' := After(actions).tables, Apply(After(actions), NewContext(share)).tables;
            var c := |t.groups|;
            && |t'.groups| == c + 1 && t'.current == Some(c) && t'.live == t.live
            && (forall d: nat :: d < c ==> t'.GroupOf(d) == t.GroupOf(d))
            && (forall d: nat :: d < c ==>
                  (t'.GroupOf(c) == t'.GroupOf(d) <==> share.Some? && t.GroupOf(share.value) == t.GroupOf(d)))
  {
    RunKeepsGroups(actions);
  }

  // ----- destroying a surface while another context is current

  const FIRST := Names(1, 1, 1, 1)
  const SECOND := Names(1, 2, 1, 1)

  /** Two contexts, each of which has given its surface the same OpenGL names; context 1 is current. */
  const TWO_CONTEXTS := [NewContext(None), NewContext(None), NewGeneric(0, false, false, FIRST),
                         NewGeneric(1, false, false, SECOND)]

  lemma Extend(actions: seq<Action>, a: Action)
    requires LegalRun(actions) && Legal(After(actions), a)
    ensures LegalRun(actions + [a]) && After(actions + [a]) == Apply(After(actions), a)
  {
    assert (actions + [a])[..|actions|] == actions;
  }

  const FIRST_SURFACE := GlSurface(0, TextureImage(Some(1), Some(1), Some(1), Individual(None, None)), false)
  const SECOND_SURFACE := GlSurface(1, TextureImage(Some(2), Some(1), Some(1), Individual(None, None)), false)

  lemma TwoContexts()
    ensures LegalRun(TWO_CONTEXTS)
    ensures var s := After(TWO_CONTEXTS);
            && s.pieces == [Loose(FIRST_SURFACE), Loose(SECOND_SURFACE)]
            && s.tables.groups == [0, 1] && s.tables.current == Some(1)
            && s.tables.live == {Object(Texture, Group(0), 1), Object(Framebuffer, Context(0), 1), Object(Image, Display, 1),
                                 Object(Texture, Group(1), 1), Object(Framebuffer, Context(1), 1), Object(Image, Display, 2)}
  {
    var r1: seq<Action> := [] + [NewContext(None)];
    var r2 := r1 + [NewContext(None)];
    var r3 := r2 + [NewGeneric(0, false, false, FIRST)];
    Extend([], NewContext(None));
    Extend(r1, NewContext(None));
    Extend(r2, NewGeneric(0, false, false, FIRST));
    Extend(r3, NewGeneric(1, false, false, SECOND));
    assert r3 + [NewGeneric(1, false, false, SECOND)] == TWO_CONTEXTS;
  }

  /** Surface 0 is destroyed; the objects that go are those of surface 1, and its own stay. */
  lemma DestroyHitsForeignSurface()
    ensures LegalRun(TWO_CONTEXTS) && InScope(After(TWO_CONTEXTS), Destroy(0, 0))
    ensures var s' := Apply(After(TWO_CONTEXTS), Destroy(0, 0));
            && s'.pieces[0].surface.destroyed && s'.pieces[1] == Loose(SECOND_SURFACE)
            && s'.tables.live
            == {Object(Texture, Group(0), 1), Object(Framebuffer, Context(0), 1), Object(Image, Display, 2)}
            && Owned(s'.tables, SECOND_SURFACE)
            == {Object(Texture, Group(1), 1), Object(Framebuffer, Context(1), 1), Object(Image, Display, 2)}
  {
    TwoContexts();
  }
}
