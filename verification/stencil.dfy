/** Bind::Stencil: a depth-stencil state bindable chosen from a closed set of
    six modes. Each mode fixes one depth-stencil configuration and one
    identity string, the key under which the bindable cache shares
    instances. */
module Stencil {
  import opened Wrappers
  import opened Graphics

  datatype Mode = Off | Mask | Write | DepthOff | DepthSkyBox | DepthReversed

  /** The stencil reference value every Stencil binds with. */
  const StencilRef: Uint := 0xFF

  /** The underlying value of each enumerator of the scoped enum, numbered
      from 0 in declaration order. */
  function Ordinal(m: Mode): (v: int)
    ensures 0 <= v < 6
  {
    match m
    case Off => 0
    case Mask => 1
    case Write => 2
    case DepthOff => 3
    case DepthSkyBox => 4
    case DepthReversed => 5
  }

  /** The name the identity switch yields for an underlying mode value. A
      value no enumerator carries (reachable in C++ only through a cast)
      falls through the switch to "ERROR". */
  function NameOfValue(v: int): string
  {
    if v == 0 then "off"
    else if v == 1 then "mask"
    else if v == 2 then "write"
    else if v == 3 then "depth-off"
    else if v == 4 then "depth-skybox"
    else if v == 5 then "depth-reversed"
    else "ERROR"
  }

  /** Reads a mode name back: the reference inverse of ModeName. */
  function ModeOfName(s: string): Option<Mode>
  {
    if s == "off" then Some(Off)
    else if s == "mask" then Some(Mask)
    else if s == "write" then Some(Write)
    else if s == "depth-off" then Some(DepthOff)
    else if s == "depth-skybox" then Some(DepthSkyBox)
    else if s == "depth-reversed" then Some(DepthReversed)
    else None
  }

  /** The name of a declared mode: never the fallback, never containing
      the separator, and read back to the same mode. */
  function ModeName(m: Mode): (r: string)
    ensures r != "ERROR"
    ensures '#' !in r
    ensures ModeOfName(r) == Some(m)
  {
    NameOfValue(Ordinal(m))
  }

  /** The fallback name is produced exactly for values outside the enum. */
  lemma ErrorOnlyOutsideEnum(v: int)
    ensures NameOfValue(v) == "ERROR" <==> !(0 <= v < 6)
  {
  }

  /** Names read back only from the name of their own mode. */
  lemma ModeOfNameExact(s: string, m: Mode)
    requires ModeOfName(s) == Some(m)
    ensures s == ModeName(m)
  {
  }

  /** The cache identity of a mode: the type name of Stencil (an
      implementation-defined string the compiler supplies), a '#', then the
      mode's name. */
  function GenerateUID(typeName: string, m: Mode): (r: string)
    ensures |r| == |typeName| + 1 + |ModeName(m)|
    ensures r[..|typeName|] == typeName
    ensures r[|typeName|] == '#'
    ensures r[|typeName| + 1..] == ModeName(m)
  {
    typeName + "#" + ModeName(m)
  }

  /** Reads an identity back to its mode: the reference partner of GenerateUID. */
  function ParseUID(typeName: string, uid: string): Option<Mode>
  {
    var k := |typeName|;
    if |uid| > k && uid[..k] == typeName && uid[k] == '#' then ModeOfName(uid[k + 1..]) else None
  }

  /** Every identity reads back to the mode it was generated from. */
  lemma UidRoundTrip(typeName: string, m: Mode)
    ensures ParseUID(typeName, GenerateUID(typeName, m)) == Some(m)
  {
    var uid := GenerateUID(typeName, m);
    assert uid[|typeName| + 1..] == ModeName(m);
  }

  /** Only identities of this exact shape read back to a mode. */
  lemma ParseUidExact(typeName: string, uid: string, m: Mode)
    requires ParseUID(typeName, uid) == Some(m)
    ensures uid == GenerateUID(typeName, m)
  {
    var k := |typeName|;
    ModeOfNameExact(uid[k + 1..], m);
    assert uid == uid[..k] + [uid[k]] + uid[k + 1..];
  }

  /** Distinct modes never share a cache identity. */
  lemma GenerateUidInjective(typeName: string, a: Mode, b: Mode)
    ensures GenerateUID(typeName, a) == GenerateUID(typeName, b) <==> a == b
  {
    if GenerateUID(typeName, a) == GenerateUID(typeName, b) {
      UidRoundTrip(typeName, a);
      UidRoundTrip(typeName, b);
    }
  }

  /** The depth-stencil descriptor the constructor builds for a mode: the
      default descriptor with the mode's overrides applied. */
  function Describe(mode: Mode): (d: DepthStencilDesc)
    // Off keeps the default descriptor untouched
    ensures mode == Off ==> d == DefaultDepthStencil
    // only Write and Mask turn the stencil test on
    ensures d.stencilEnable <==> mode in {Write, Mask}
    // Write, Mask and DepthOff turn the depth test off
    ensures !d.depthEnable <==> mode in {Write, Mask, DepthOff}
    // every mode except Off and DepthReversed stops depth writes
    ensures d.depthWriteMask == MaskZero <==> mode in {Write, Mask, DepthOff, DepthSkyBox}
    ensures d.depthWriteMask == MaskAll <==> mode == Off || mode == DepthReversed
    // only the two depth modes change the depth comparison
    ensures d.depthFunc == LessEqual <==> mode == DepthSkyBox
    ensures d.depthFunc == Greater <==> mode == DepthReversed
    ensures mode !in {DepthSkyBox, DepthReversed} ==> d.depthFunc == Less
    // Write replaces the stencil value on every pixel, through all 8 bits
    ensures mode == Write ==> d.stencilWriteMask == 0xFF && d.frontFace.func == Always && d.frontFace.passOp == Replace
    // Mask passes where the stencil value differs, keeping it, through all 8 bits
    ensures mode == Mask ==> d.stencilReadMask == 0xFF && d.frontFace.func == NotEqual && d.frontFace.passOp == Keep
    // nothing else is touched
    ensures d.backFace == DefaultFace
    ensures d.frontFace.failOp == Keep && d.frontFace.depthFailOp == Keep
    ensures mode != Mask ==> d.frontFace.func == Always
    ensures mode != Write ==> d.frontFace.passOp == Keep
    ensures d.stencilReadMask == DefaultStencilMask && d.stencilWriteMask == DefaultStencilMask
  {
    var d := DefaultDepthStencil;
    match mode
    case Write =>
      d.(depthEnable := false, depthWriteMask := MaskZero, stencilEnable := true, stencilWriteMask := 0xFF,
         frontFace := d.frontFace.(func := Always, passOp := Replace))
    case Mask =>
      d.(depthEnable := false, depthWriteMask := MaskZero, stencilEnable := true, stencilReadMask := 0xFF,
         frontFace := d.frontFace.(func := NotEqual, passOp := Keep))
    case DepthOff =>
      d.(depthEnable := false, depthWriteMask := MaskZero)
    case DepthSkyBox =>
      d.(depthFunc := LessEqual, depthWriteMask := MaskZero)
    case DepthReversed =>
      d.(depthFunc := Greater)
    case Off =>
      d
  }

  /** No two modes build the same descriptor. */
  lemma DescribeInjective(a: Mode, b: Mode)
    ensures Describe(a) == Describe(b) <==> a == b
  {
  }

  /** Cache identity and configuration agree: two modes share an identity
      exactly when they would build the same depth-stencil state, so the
      cache neither merges different states nor duplicates equal ones. */
  lemma UidIdentifiesState(typeName: string, a: Mode, b: Mode)
    ensures GenerateUID(typeName, a) == GenerateUID(typeName, b) <==> Describe(a) == Describe(b)
  {
    GenerateUidInjective(typeName, a, b);
    DescribeInjective(a, b);
  }

  /** A Stencil bindable: the mode it was built with and the state object
      created from that mode's descriptor. */
  datatype Stencil = Stencil(mode: Mode, state: DepthStencilDesc)

  /** Holds of every Stencil the constructor can produce. */
  predicate Built(s: Stencil)
  {
    s.state == Describe(s.mode)
  }

  /** The constructor. Device failures in CreateDepthStencilState are not modelled. */
  function Construct(mode: Mode): (s: Stencil)
    ensures s.mode == mode && Built(s)
  {
    Stencil(mode, Describe(mode))
  }

  /** The identity of an instance: it names the instance's own mode. */
  function GetUID(typeName: string, s: Stencil): (uid: string)
    ensures ParseUID(typeName, uid) == Some(s.mode)
  {
    UidRoundTrip(typeName, s.mode);
    GenerateUID(typeName, s.mode)
  }

  /** A constructed Stencil reports the identity of the mode it was built with. */
  lemma GetUidOfConstructed(typeName: string, m: Mode)
    ensures GetUID(typeName, Construct(m)) == GenerateUID(typeName, m)
  {
  }

  /** Sets the output-merger depth-stencil state to this instance's state,
      with stencil reference 0xFF; nothing else in the context changes. */
  function Bind(gfx: Gfx, s: Stencil): (r: Gfx)
    ensures r.camera == gfx.camera && r.projection == gfx.projection
    ensures Observe(r.commands).depthStencil == Some(DepthStencilBinding(s.state, StencilRef))
    ensures Observe(r.commands).vertexConstantBuffers == Observe(gfx.commands).vertexConstantBuffers
    ensures Observe(r.commands).bufferContents == Observe(gfx.commands).bufferContents
  {
    Issue(gfx, SetDepthStencilState(s.state, StencilRef))
  }

  /** Binding twice leaves the context as binding once does. */
  lemma BindIdempotent(gfx: Gfx, s: Stencil)
    ensures Observe(Bind(Bind(gfx, s), s).commands) == Observe(Bind(gfx, s).commands)
  {
  }

  /** An instance held by the cache. The handle names the object the
      cache hands out a shared pointer to: two results are the same
      instance exactly when their handles agree. */
  datatype Shared = Shared(handle: nat, stencil: Stencil)

  /** The cache's store of Stencil instances, keyed by identity, and the
      number of instances it has constructed so far. */
  datatype Codex = Codex(entries: map<string, Shared>, constructed: nat)

  /** The store before any request. */
  const EmptyCodex: Codex := Codex(map[], 0)

  /** Every stored instance is a constructed one filed under its own
      identity; the cache has constructed exactly one instance per stored
      identity, and no two identities share an instance. */
  predicate CodexValid(typeName: string, codex: Codex)
  {
    && |codex.entries| == codex.constructed
    && (forall k :: k in codex.entries ==>
          && Built(codex.entries[k].stencil)
          && GetUID(typeName, codex.entries[k].stencil) == k
          && codex.entries[k].handle < codex.constructed)
    && (forall k1, k2 :: k1 in codex.entries && k2 in codex.entries && k1 != k2 ==>
          codex.entries[k1].handle != codex.entries[k2].handle)
  }

  /** Storing a newly constructed instance under a missing identity keeps
      the store valid. */
  lemma InsertKeepsValid(typeName: string, codex: Codex, mode: Mode)
    requires CodexValid(typeName, codex)
    requires GenerateUID(typeName, mode) !in codex.entries
    ensures var key := GenerateUID(typeName, mode);
            CodexValid(typeName, Codex(codex.entries[key := Shared(codex.constructed, Construct(mode))], codex.constructed + 1))
  {
    var key := GenerateUID(typeName, mode);
    var made := Shared(codex.constructed, Construct(mode));
    var after := Codex(codex.entries[key := made], codex.constructed + 1);
    assert after.entries.Keys == codex.entries.Keys + {key};
    assert |after.entries| == codex.constructed + 1;
    forall k | k in after.entries
      ensures Built(after.entries[k].stencil) && GetUID(typeName, after.entries[k].stencil) == k
      ensures after.entries[k].handle < after.constructed
    {
      if k == key {
        assert after.entries[k] == made;
      } else {
        assert after.entries[k] == codex.entries[k];
      }
    }
    forall k1, k2 | k1 in after.entries && k2 in after.entries && k1 != k2
      ensures after.entries[k1].handle != after.entries[k2].handle
    {
      if k1 == key {
        assert after.entries[k2] == codex.entries[k2];
      } else if k2 == key {
        assert after.entries[k1] == codex.entries[k1];
      } else {
        assert after.entries[k1] == codex.entries[k1] && after.entries[k2] == codex.entries[k2];
      }
    }
  }

  datatype Resolved = Resolved(codex: Codex, shared: Shared)

  /** Stencil::Resolve: forwards the mode to the cache, which returns the
      instance stored under the mode's identity, constructing and storing
      a new one on the first request. */
  function Resolve(typeName: string, codex: Codex, mode: Mode): (r: Resolved)
    requires CodexValid(typeName, codex)
    ensures CodexValid(typeName, r.codex)
    ensures r.shared.stencil.mode == mode && Built(r.shared.stencil)
    ensures GenerateUID(typeName, mode) in r.codex.entries && r.codex.entries[GenerateUID(typeName, mode)] == r.shared
    ensures r.codex.entries.Keys == codex.entries.Keys + {GenerateUID(typeName, mode)}
    ensures forall k :: k in codex.entries ==> r.codex.entries[k] == codex.entries[k]
    // a hit constructs nothing and changes nothing
    ensures GenerateUID(typeName, mode) in codex.entries ==> r.codex == codex
    // a miss constructs one new instance, distinct from every stored one
    ensures GenerateUID(typeName, mode) !in codex.entries ==>
              && r.codex.constructed == codex.constructed + 1
              && forall k :: k in codex.entries ==> codex.entries[k].handle != r.shared.handle
  {
    var key := GenerateUID(typeName, mode);
    if key in codex.entries then
      GenerateUidInjective(typeName, codex.entries[key].stencil.mode, mode);
      Resolved(codex, codex.entries[key])
    else
      var made := Shared(codex.constructed, Construct(mode));
      InsertKeepsValid(typeName, codex, mode);
      Resolved(Codex(codex.entries[key := made], codex.constructed + 1), made)
  }

  /** A second request for the same mode returns the very instance the
      first one did and constructs nothing. */
  lemma ResolveShares(typeName: string, codex: Codex, mode: Mode)
    requires CodexValid(typeName, codex)
    ensures var first := Resolve(typeName, codex, mode);
            var second := Resolve(typeName, first.codex, mode);
            second.shared.handle == first.shared.handle && second.codex == first.codex
  {
  }

  /** Requests for different modes yield different instances under
      different identities. */
  lemma ResolveSeparates(typeName: string, codex: Codex, a: Mode, b: Mode)
    requires CodexValid(typeName, codex)
    requires a != b
    ensures var first := Resolve(typeName, codex, a);
            var second := Resolve(typeName, first.codex, b);
            && second.shared.handle != first.shared.handle
            && GenerateUID(typeName, a) != GenerateUID(typeName, b)
  {
    var first := Resolve(typeName, codex, a);
    var second := Resolve(typeName, first.codex, b);
    GenerateUidInjective(typeName, a, b);
    var ka, kb := GenerateUID(typeName, a), GenerateUID(typeName, b);
    assert first.codex.entries[ka] == first.shared;
    assert second.codex.entries[ka] == first.shared;
    assert second.codex.entries[kb] == second.shared;
  }
}
