/** Bind::Bindable and Bind::CloningBindable, over the closed set of
    bindable kinds this model holds. Each interface member dispatches on the
    kind; a kind that does not override a member gets the interface's
    default. Stencil overrides Bind and GetUID; TransformCbuf is a cloning
    bindable that overrides Bind, InitializeParentReference and Clone. */
module Bindables {
  import opened Wrappers
  import opened Graphics
  import Stencil
  import TransformCbuf

  datatype Bindable =
    | StencilState(stencil: Stencil.Stencil)
    | TransformBuffer(instance: TransformCbuf.InstanceId)

  /** The kind overrides GetUID, and so may be shared through the cache. */
  predicate SuppliesUID(b: Bindable)
  {
    b.StencilState?
  }

  /** The kind is a CloningBindable. */
  predicate IsCloning(b: Bindable)
  {
    b.TransformBuffer?
  }

  /** What each of the two modelled kinds overrides: Stencil supplies an
      identity and does not clone; TransformCbuf clones and supplies none. */
  lemma KindCapabilities(b: Bindable)
    ensures b.StencilState? ==> SuppliesUID(b) && !IsCloning(b)
    ensures b.TransformBuffer? ==> IsCloning(b) && !SuppliesUID(b)
  {
  }

  /** The object the bindable names is alive in `w`. */
  predicate Live(w: TransformCbuf.World, b: Bindable)
  {
    b.TransformBuffer? ==> TransformCbuf.Valid(w) && b.instance in w.parents
  }

  /** GetUID. The interface default asserts, so calling it on a kind that
      does not override it is a usage error: the precondition. */
  function GetUID(typeName: string, b: Bindable): (uid: string)
    requires SuppliesUID(b)
    ensures Stencil.ParseUID(typeName, uid) == Some(b.stencil.mode)
  {
    Stencil.GetUID(typeName, b.stencil)
  }

  /** InitializeParentReference: a no-op by default; a TransformCbuf points
      itself at the drawable. */
  function InitializeParentReference(w: TransformCbuf.World, b: Bindable, parent: TransformCbuf.DrawableId): (r: TransformCbuf.World)
    requires Live(w, b)
    ensures b.StencilState? ==> r == w
    ensures b.TransformBuffer? ==> r == TransformCbuf.InitializeParentReference(w, b.instance, parent)
    ensures b.TransformBuffer? ==> TransformCbuf.HasParent(r, b.instance) && r.parents[b.instance] == Some(parent)
    // nothing else changes: other instances keep their parents, the instance set and the buffer stay
    ensures r.parents.Keys == w.parents.Keys && r.shared == w.shared && r.nextId == w.nextId
    ensures forall i :: i in w.parents && !(b.TransformBuffer? && i == b.instance) ==> r.parents[i] == w.parents[i]
    ensures b.TransformBuffer? ==> TransformCbuf.Valid(r)
  {
    match b
    case StencilState(_) => w
    case TransformBuffer(i) => TransformCbuf.InitializeParentReference(w, i, parent)
  }

  /** Accept: the inspection hook. No kind here overrides it, and the
      default does nothing to the probe. */
  function Accept<P>(b: Bindable, probe: P): (r: P)
    ensures r == probe
  {
    probe
  }

  /** The two defaults leave everything as it was: a bindable that does not
      override the parent hook changes no state, and no bindable changes
      the probe it accepts. */
  lemma DefaultHooksHaveNoEffect<P>(w: TransformCbuf.World, b: Bindable, parent: TransformCbuf.DrawableId, probe: P)
    requires Live(w, b)
    ensures b.StencilState? ==> InitializeParentReference(w, b, parent) == w
    ensures Accept(b, probe) == probe
  {
  }

  datatype Cloned = Cloned(world: TransformCbuf.World, bindable: Bindable)

  /** CloningBindable::Clone: a newly allocated object of the same kind,
      owned separately from its source. */
  function Clone(w: TransformCbuf.World, b: Bindable): (r: Cloned)
    requires IsCloning(b) && Live(w, b)
    ensures IsCloning(r.bindable) && Live(r.world, r.bindable)
    ensures r.bindable.instance !in w.parents && r.bindable != b
    ensures r.world.parents == w.parents[r.bindable.instance := w.parents[b.instance]]
    ensures r.world.shared == w.shared
  {
    var c := TransformCbuf.Clone(w, b.instance);
    Cloned(c.world, TransformBuffer(c.instance))
  }

  /** Bind, dispatched on the kind. */
  function Bind(gfx: Gfx, w: TransformCbuf.World, b: Bindable, transformOf: TransformCbuf.DrawableId -> Matrix): (r: Gfx)
    requires Live(w, b)
    requires b.TransformBuffer? ==> TransformCbuf.HasParent(w, b.instance)
    ensures r.camera == gfx.camera && r.projection == gfx.projection
    ensures b.StencilState? ==> r == Stencil.Bind(gfx, b.stencil)
    ensures b.TransformBuffer? ==> r == TransformCbuf.Bind(gfx, w, b.instance, transformOf)
    ensures b.StencilState? ==>
              && Observe(r.commands).depthStencil == Some(DepthStencilBinding(b.stencil.state, Stencil.StencilRef))
              && Observe(r.commands).vertexConstantBuffers == Observe(gfx.commands).vertexConstantBuffers
              && Observe(r.commands).bufferContents == Observe(gfx.commands).bufferContents
    ensures b.TransformBuffer? ==>
              && Observe(r.commands).depthStencil == Observe(gfx.commands).depthStencil
              && w.shared.Some?
              && w.shared.value in Observe(r.commands).bufferContents
              && Observe(r.commands).bufferContents[w.shared.value] == TransformCbuf.GetTransforms(w, b.instance, gfx, transformOf)
              && w.shared.value.slot in Observe(r.commands).vertexConstantBuffers
              && Observe(r.commands).vertexConstantBuffers[w.shared.value.slot] == w.shared.value
  {
    match b
    case StencilState(s) => Stencil.Bind(gfx, s)
    case TransformBuffer(i) => TransformCbuf.Bind(gfx, w, i, transformOf)
  }

  /** Binding any bindable twice leaves the context as binding it once does. */
  lemma BindIdempotent(gfx: Gfx, w: TransformCbuf.World, b: Bindable, transformOf: TransformCbuf.DrawableId -> Matrix)
    requires Live(w, b)
    requires b.TransformBuffer? ==> TransformCbuf.HasParent(w, b.instance)
    ensures var once := Bind(gfx, w, b, transformOf);
            Observe(Bind(once, w, b, transformOf).commands) == Observe(once.commands)
  {
    match b
    case StencilState(s) => Stencil.BindIdempotent(gfx, s);
    case TransformBuffer(i) => TransformCbuf.BindIdempotent(gfx, w, i, transformOf);
  }
}
