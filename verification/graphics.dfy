/** The slice of Direct3D 11 that the bindables of this model touch, as plain
    values: the depth-stencil descriptor and its enumerations, the
    matrices a transform buffer uploads (kept symbolic), and the graphics
    object through which bindables issue commands to the device context. */
module Graphics {
  import opened Wrappers

  /** UINT8 */
  type Byte = x: int | 0 <= x < 0x100

  /** UINT */
  type Uint = x: int | 0 <= x < 0x1_0000_0000

  /** D3D11_COMPARISON_FUNC */
  datatype Comparison = Never | Less | Equal | LessEqual | Greater | NotEqual | GreaterEqual | Always

  /** D3D11_STENCIL_OP */
  datatype StencilOp = Keep | Zero | Replace | IncrSat | DecrSat | Invert | Incr | Decr

  /** D3D11_DEPTH_WRITE_MASK */
  datatype DepthWriteMask = MaskZero | MaskAll

  /** D3D11_DEPTH_STENCILOP_DESC: what the stencil test does for one face. */
  datatype FaceDesc = FaceDesc(failOp: StencilOp, depthFailOp: StencilOp, passOp: StencilOp, func: Comparison)

  /** D3D11_DEPTH_STENCIL_DESC */
  datatype DepthStencilDesc = DepthStencilDesc(
    depthEnable: bool,
    depthWriteMask: DepthWriteMask,
    depthFunc: Comparison,
    stencilEnable: bool,
    stencilReadMask: Byte,
    stencilWriteMask: Byte,
    frontFace: FaceDesc,
    backFace: FaceDesc)

  /** D3D11_DEFAULT_STENCIL_READ_MASK and D3D11_DEFAULT_STENCIL_WRITE_MASK */
  const DefaultStencilMask: Byte := 0xFF

  /** Each face of CD3D11_DEPTH_STENCIL_DESC(CD3D11_DEFAULT): keep on every
      outcome, the test always passes. */
  const DefaultFace: FaceDesc := FaceDesc(Keep, Keep, Keep, Always)

  /** CD3D11_DEPTH_STENCIL_DESC(CD3D11_DEFAULT): depth test on with LESS,
      all depth bits written, stencil test off. */
  const DefaultDepthStencil: DepthStencilDesc :=
    DepthStencilDesc(true, MaskAll, Less, false, DefaultStencilMask, DefaultStencilMask, DefaultFace, DefaultFace)

  /** A 4x4 matrix, kept symbolic: an opaque leaf supplied by a collaborator
      (a drawable's transform, the camera, the projection), a product, or
      a transpose. No floating-point arithmetic is modelled. */
  datatype Matrix = Opaque(tag: nat) | Mul(left: Matrix, right: Matrix) | Transpose(inner: Matrix)

  /** The layout of the vertex constant buffer a transform buffer uploads. */
  datatype Transforms = Transforms(model: Matrix, modelView: Matrix, modelViewProj: Matrix)

  /** A vertex constant buffer, identified by the shader slot it binds to. */
  datatype ConstantBuffer = ConstantBuffer(slot: Uint)

  /** A device-context call a bindable can make. */
  datatype Command =
    | SetDepthStencilState(desc: DepthStencilDesc, stencilRef: Uint)
    | UpdateBuffer(buffer: ConstantBuffer, data: Transforms)
    | BindVertexBuffer(buffer: ConstantBuffer)

  /** The graphics object: the camera and projection it currently holds and
      the commands issued to its context so far, oldest first. */
  datatype Gfx = Gfx(camera: Matrix, projection: Matrix, commands: seq<Command>)

  datatype DepthStencilBinding = DepthStencilBinding(desc: DepthStencilDesc, stencilRef: Uint)

  /** What the context holds after a command list: the output-merger
      depth-stencil state, the buffer bound at each vertex constant slot,
      and each buffer's last uploaded contents. */
  datatype ContextState = ContextState(
    depthStencil: Option<DepthStencilBinding>,
    vertexConstantBuffers: map<Uint, ConstantBuffer>,
    bufferContents: map<ConstantBuffer, Transforms>)

  const BlankContext := ContextState(None, map[], map[])

  /** The effect of one command on the context: each command overwrites
      exactly one piece of state. */
  function Apply(s: ContextState, c: Command): ContextState
  {
    match c
    case SetDepthStencilState(desc, stencilRef) => s.(depthStencil := Some(DepthStencilBinding(desc, stencilRef)))
    case UpdateBuffer(buffer, data) => s.(bufferContents := s.bufferContents[buffer := data])
    case BindVertexBuffer(buffer) => s.(vertexConstantBuffers := s.vertexConstantBuffers[buffer.slot := buffer])
  }

  /** The context state a command list leaves behind, starting from a blank context. */
  function Observe(cs: seq<Command>): ContextState
  {
    if cs == [] then BlankContext else Apply(Observe(cs[..|cs| - 1]), cs[|cs| - 1])
  }

  /** Issues one command to the context. */
  function Issue(gfx: Gfx, c: Command): (r: Gfx)
    ensures r.camera == gfx.camera && r.projection == gfx.projection
    ensures gfx.commands < r.commands
    ensures Observe(r.commands) == Apply(Observe(gfx.commands), c)
  {
    var cs := gfx.commands + [c];
    assert cs[..|cs| - 1] == gfx.commands;
    gfx.(commands := cs)
  }
}
