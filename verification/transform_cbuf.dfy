/** Bind::TransformCbuf: the per-drawable transform bindable. All instances
    share one program-wide vertex constant buffer, created lazily by the
    first constructor; each instance holds its own non-owning reference to
    the drawable whose transform it uploads. The static buffer and the
    per-instance references are gathered into one explicit World value. */
module TransformCbuf {
  import opened Wrappers
  import opened Graphics

  /** Names a live TransformCbuf object. */
  type InstanceId = nat

  /** Names a drawable a TransformCbuf may point at. */
  type DrawableId = nat

  /** The slot a TransformCbuf is constructed with when none is given. */
  const DefaultSlot: Uint := 0

  /** The static shared buffer (absent until the first construction), the
      parent reference of each live instance (None while unset), and the
      next unused instance name. */
  datatype World = World(shared: Option<ConstantBuffer>, parents: map<InstanceId, Option<DrawableId>>, nextId: InstanceId)

  /** Program start: no buffer, no instances. */
  const Startup: World := World(None, map[], 0)

  /** Every live instance has a name below nextId, and once any instance
      exists the shared buffer does. */
  predicate Valid(w: World)
  {
    && (forall i :: i in w.parents ==> i < w.nextId)
    && (w.parents != map[] ==> w.shared.Some?)
  }

  /** True when the instance's parent reference has been set. */
  predicate HasParent(w: World, instance: InstanceId)
  {
    instance in w.parents && w.parents[instance].Some?
  }

  datatype Created = Created(world: World, instance: InstanceId)

  /** The constructor: a new instance with no parent; the shared buffer is
      created at `slot` only if it does not exist yet, and kept otherwise. */
  function Construct(w: World, slot: Uint): (r: Created)
    requires Valid(w)
    ensures Valid(r.world)
    ensures r.instance !in w.parents
    ensures r.world.parents == w.parents[r.instance := None]
    ensures r.world.shared.Some?
    ensures w.shared.Some? ==> r.world.shared == w.shared
    ensures w.shared.None? ==> r.world.shared == Some(ConstantBuffer(slot))
  {
    var id := w.nextId;
    var shared := if w.shared.None? then Some(ConstantBuffer(slot)) else w.shared;
    Created(World(shared, w.parents[id := None], id + 1), id)
  }

  /** The constructor with its slot argument omitted. */
  function ConstructDefault(w: World): (r: Created)
    requires Valid(w)
    ensures Valid(r.world) && !HasParent(r.world, r.instance)
    ensures w.shared.None? ==> r.world.shared == Some(ConstantBuffer(0))
  {
    Construct(w, DefaultSlot)
  }

  /** Points this instance at `parent`, replacing any earlier parent. */
  function InitializeParentReference(w: World, instance: InstanceId, parent: DrawableId): (r: World)
    requires instance in w.parents
    ensures HasParent(r, instance) && r.parents[instance] == Some(parent)
    ensures r.parents.Keys == w.parents.Keys
    ensures forall i :: i in w.parents && i != instance ==> r.parents[i] == w.parents[i]
    ensures r.shared == w.shared && r.nextId == w.nextId
    ensures Valid(w) ==> Valid(r)
  {
    w.(parents := w.parents[instance := Some(parent)])
  }

  /** A copy of the instance: a new object with the same parent reference,
      still sharing the one buffer. */
  function Clone(w: World, instance: InstanceId): (r: Created)
    requires Valid(w) && instance in w.parents
    ensures Valid(r.world)
    ensures r.instance !in w.parents
    ensures r.world.parents == w.parents[r.instance := w.parents[instance]]
    ensures r.world.shared == w.shared
  {
    var id := w.nextId;
    Created(w.(parents := w.parents[id := w.parents[instance]], nextId := id + 1), id)
  }

  /** A clone starts with its source's parent, and re-pointing the clone
      afterwards leaves the source as it was. */
  lemma CloneIsIndependent(w: World, instance: InstanceId, parent: DrawableId)
    requires Valid(w) && instance in w.parents
    ensures var c := Clone(w, instance);
            var after := InitializeParentReference(c.world, c.instance, parent);
            && c.world.parents[c.instance] == w.parents[instance]
            && after.parents[instance] == w.parents[instance]
  {
  }

  /** The three matrices uploaded for an instance, computed from its
      parent's transform and the graphics object's camera and projection,
      each transposed for the shader. */
  function GetTransforms(w: World, instance: InstanceId, gfx: Gfx, transformOf: DrawableId -> Matrix): (tf: Transforms)
    requires HasParent(w, instance)
    // each matrix is uploaded transposed
    ensures tf.model.Transpose? && tf.modelView.Transpose? && tf.modelViewProj.Transpose?
    // model is the parent's transform
    ensures tf.model.inner == transformOf(w.parents[instance].value)
    // model-view extends model by the camera, model-view-projection extends model-view by the projection
    ensures tf.modelView.inner == Mul(tf.model.inner, gfx.camera)
    ensures tf.modelViewProj.inner == Mul(tf.modelView.inner, gfx.projection)
  {
    var model := transformOf(w.parents[instance].value);
    var modelView := Mul(model, gfx.camera);
    Transforms(Transpose(model), Transpose(modelView), Transpose(Mul(modelView, gfx.projection)))
  }

  /** The uploaded matrices depend on nothing but the parent's transform,
      the camera and the projection: two instances whose parents have the
      same transform upload the same data. */
  lemma TransformsDependOnlyOnParent(w1: World, i1: InstanceId, g1: Gfx, f1: DrawableId -> Matrix,
                                     w2: World, i2: InstanceId, g2: Gfx, f2: DrawableId -> Matrix)
    requires HasParent(w1, i1) && HasParent(w2, i2)
    requires f1(w1.parents[i1].value) == f2(w2.parents[i2].value)
    requires g1.camera == g2.camera && g1.projection == g2.projection
    ensures GetTransforms(w1, i1, g1, f1) == GetTransforms(w2, i2, g2, f2)
  {
  }

  /** Uploads `tf` into the shared buffer, then binds that buffer to its
      vertex-shader slot. Usable only once the parent is set. */
  function UpdateBind(gfx: Gfx, w: World, instance: InstanceId, tf: Transforms): (r: Gfx)
    requires Valid(w) && HasParent(w, instance)
    ensures w.shared.Some?
    ensures r.camera == gfx.camera && r.projection == gfx.projection
    ensures r.commands == gfx.commands + [UpdateBuffer(w.shared.value, tf), BindVertexBuffer(w.shared.value)]
    ensures Observe(r.commands) ==
            Apply(Apply(Observe(gfx.commands), UpdateBuffer(w.shared.value, tf)), BindVertexBuffer(w.shared.value))
    ensures var s := Observe(r.commands);
            && s.bufferContents == Observe(gfx.commands).bufferContents[w.shared.value := tf]
            && s.vertexConstantBuffers == Observe(gfx.commands).vertexConstantBuffers[w.shared.value.slot := w.shared.value]
            && s.depthStencil == Observe(gfx.commands).depthStencil
  {
    assert instance in w.parents;
    var buffer := w.shared.value;
    Issue(Issue(gfx, UpdateBuffer(buffer, tf)), BindVertexBuffer(buffer))
  }

  /** Bind: update-then-bind of the shared buffer with the transforms of
      the current parent. */
  function Bind(gfx: Gfx, w: World, instance: InstanceId, transformOf: DrawableId -> Matrix): (r: Gfx)
    requires Valid(w) && HasParent(w, instance)
    ensures w.shared.Some?
    ensures r.camera == gfx.camera && r.projection == gfx.projection
    ensures r.commands == gfx.commands + [UpdateBuffer(w.shared.value, GetTransforms(w, instance, gfx, transformOf)),
                                          BindVertexBuffer(w.shared.value)]
    ensures Observe(r.commands) ==
            Apply(Apply(Observe(gfx.commands), UpdateBuffer(w.shared.value, GetTransforms(w, instance, gfx, transformOf))),
                  BindVertexBuffer(w.shared.value))
    ensures w.shared.value in Observe(r.commands).bufferContents
    ensures Observe(r.commands).bufferContents[w.shared.value] == GetTransforms(w, instance, gfx, transformOf)
    ensures w.shared.value.slot in Observe(r.commands).vertexConstantBuffers
    ensures Observe(r.commands).vertexConstantBuffers[w.shared.value.slot] == w.shared.value
    ensures Observe(r.commands).depthStencil == Observe(gfx.commands).depthStencil
  {
    UpdateBind(gfx, w, instance, GetTransforms(w, instance, gfx, transformOf))
  }

  /** Uploading then binding a buffer a second time changes nothing more. */
  lemma UploadBindIdempotent(s: ContextState, buffer: ConstantBuffer, tf: Transforms)
    ensures var once := Apply(Apply(s, UpdateBuffer(buffer, tf)), BindVertexBuffer(buffer));
            Apply(Apply(once, UpdateBuffer(buffer, tf)), BindVertexBuffer(buffer)) == once
  {
    var once := Apply(Apply(s, UpdateBuffer(buffer, tf)), BindVertexBuffer(buffer));
    var twice := Apply(Apply(once, UpdateBuffer(buffer, tf)), BindVertexBuffer(buffer));
    assert twice.bufferContents == once.bufferContents;
    assert twice.vertexConstantBuffers == once.vertexConstantBuffers;
  }

  /** Binding twice leaves the context as binding once does. */
  lemma BindIdempotent(gfx: Gfx, w: World, instance: InstanceId, transformOf: DrawableId -> Matrix)
    requires Valid(w) && HasParent(w, instance)
    ensures var once := Bind(gfx, w, instance, transformOf);
            Observe(Bind(once, w, instance, transformOf).commands) == Observe(once.commands)
  {
    var once := Bind(gfx, w, instance, transformOf);
    var tf := GetTransforms(w, instance, gfx, transformOf);
    assert GetTransforms(w, instance, once, transformOf) == tf;
    UploadBindIdempotent(Observe(gfx.commands), w.shared.value, tf);
  }

  /** One operation a program can perform on TransformCbuf objects. */
  datatype Op =
    | New(slot: Uint)
    | SetParent(instance: InstanceId, parent: DrawableId)
    | CloneOf(instance: InstanceId)
    | BindOf(instance: InstanceId)

  /** The objects and the graphics object they draw through. */
  datatype Machine = Machine(world: World, gfx: Gfx)

  /** Performs one operation; None where the program would name a dead
      instance or trip the parent assertion. */
  function Step(m: Machine, op: Op, transformOf: DrawableId -> Matrix): (r: Option<Machine>)
    requires Valid(m.world)
    ensures r.Some? ==> Valid(r.value.world)
    ensures r.Some? && m.world.shared.Some? ==> r.value.world.shared == m.world.shared
    ensures r.Some? ==> m.gfx.commands <= r.value.gfx.commands
  {
    match op
    case New(slot) =>
      Some(Machine(Construct(m.world, slot).world, m.gfx))
    case SetParent(i, p) =>
      if i in m.world.parents then Some(Machine(InitializeParentReference(m.world, i, p), m.gfx)) else None
    case CloneOf(i) =>
      if i in m.world.parents then Some(Machine(Clone(m.world, i).world, m.gfx)) else None
    case BindOf(i) =>
      if HasParent(m.world, i) then Some(Machine(m.world, Bind(m.gfx, m.world, i, transformOf))) else None
  }

  /** Performs operations in order, stopping at the first failing one. */
  function Run(m: Machine, ops: seq<Op>, transformOf: DrawableId -> Matrix): (r: Option<Machine>)
    requires Valid(m.world)
    ensures r.Some? ==> Valid(r.value.world)
    decreases |ops|
  {
    if ops == [] then Some(m)
    else
      match Step(m, ops[0], transformOf)
      case None => None
      case Some(next) => Run(next, ops[1..], transformOf)
  }

  /** Once the shared buffer exists, no sequence of operations replaces it. */
  lemma {:induction false} SharedBufferIsNeverReplaced(m: Machine, ops: seq<Op>, transformOf: DrawableId -> Matrix)
    requires Valid(m.world) && m.world.shared.Some?
    requires Run(m, ops, transformOf).Some?
    ensures Run(m, ops, transformOf).value.world.shared == m.world.shared
    decreases |ops|
  {
    if ops != [] {
      var next := Step(m, ops[0], transformOf).value;
      SharedBufferIsNeverReplaced(next, ops[1..], transformOf);
    }
  }

  /** The first construction decides the buffer's slot for good, whatever
      slots later constructions ask for. */
  lemma FirstSlotWins(m: Machine, slot: Uint, ops: seq<Op>, transformOf: DrawableId -> Matrix)
    requires Valid(m.world) && m.world.shared.None?
    requires Run(m, [New(slot)] + ops, transformOf).Some?
    ensures Run(m, [New(slot)] + ops, transformOf).value.world.shared == Some(ConstantBuffer(slot))
  {
    var all := [New(slot)] + ops;
    assert all[0] == New(slot) && all[1..] == ops;
    var next := Step(m, New(slot), transformOf).value;
    SharedBufferIsNeverReplaced(next, ops, transformOf);
  }

  /** The command touches no constant buffer other than `buffer`. */
  predicate OnlyTouches(c: Command, buffer: ConstantBuffer)
  {
    && (c.UpdateBuffer? ==> c.buffer == buffer)
    && (c.BindVertexBuffer? ==> c.buffer == buffer)
  }

  /** Whatever instances exist, clones included, every upload and every
      bind a run issues goes to the one shared buffer. */
  lemma {:induction false} EveryBindUsesSharedBuffer(m: Machine, ops: seq<Op>, transformOf: DrawableId -> Matrix)
    requires Valid(m.world)
    requires Run(m, ops, transformOf).Some?
    ensures var last := Run(m, ops, transformOf).value;
            && m.gfx.commands <= last.gfx.commands
            && (|m.gfx.commands| < |last.gfx.commands| ==> last.world.shared.Some?)
            && forall i :: |m.gfx.commands| <= i < |last.gfx.commands| ==>
                 last.world.shared.Some? && OnlyTouches(last.gfx.commands[i], last.world.shared.value)
    decreases |ops|
  {
    if ops != [] {
      var next := Step(m, ops[0], transformOf).value;
      EveryBindUsesSharedBuffer(next, ops[1..], transformOf);
      var last := Run(next, ops[1..], transformOf).value;
      forall i | |m.gfx.commands| <= i < |last.gfx.commands|
        ensures last.world.shared.Some? && OnlyTouches(last.gfx.commands[i], last.world.shared.value)
      {
        if i < |next.gfx.commands| {
          // only a bind issues commands, and it issues them to the buffer that exists by then
          assert ops[0].BindOf? && next.world == m.world && m.world.shared.Some?;
          var buffer := m.world.shared.value;
          assert next.gfx.commands[|m.gfx.commands|..] ==
                 [UpdateBuffer(buffer, GetTransforms(m.world, ops[0].instance, m.gfx, transformOf)), BindVertexBuffer(buffer)];
          assert OnlyTouches(next.gfx.commands[i], buffer);
          SharedBufferIsNeverReplaced(next, ops[1..], transformOf);
          assert last.gfx.commands[i] == next.gfx.commands[i];
        }
      }
    }
  }
}
