/**
  The records of include/graphcache/types.hpp, dependencies.hpp and
  topology.hpp. Enumerations are their underlying 32-bit values, because the
  decoders accept any value; only the named ones the logic tests are constants.
 */
module Descriptors {
  import opened Bytes

  /** Every 128-bit identity: graph nodes, edges, artifacts and graphs. */
  datatype Id = Id(hi: u64, lo: u64) {
    predicate Valid() {
      lo != 0
    }
  }

  const KERNEL: u32 := 1
  const MEMORY_COPY: u32 := 2
  const MEMORY_SET: u32 := 3

  const DTYPE_NONE: u32 := 0
  const LAYOUT_CONTIGUOUS: u32 := 1
  const QUANT_NONE: u32 := 0

  const IMMUTABLE_BINDING: u32 := 1
  const RECAPTURE_REQUIRED_BINDING: u32 := 3

  datatype KernelRef = KernelRef(
    name: Text, idHi: u64, idLo: u64, generation: u64, abi: u32,
    digest: Text, provenance: Text, contributes: bool)

  datatype Launch = Launch(
    gridX: u32, gridY: u32, gridZ: u32, blockX: u32, blockY: u32, blockZ: u32, sharedBytes: u32)

  datatype Shape = Shape(dims: seq<i64>, dynamic: bool, maxRank: u32)

  datatype Scalar = Scalar(specialized: bool, intValue: i64, floatBits: u64)

  datatype Quantization = Quantization(mode: u32, group: u32, symmetric: bool, scheme: Text)

  datatype Binding = Binding(bindingClass: u32, alignment: u32, schema: Text, eligible: bool)

  datatype Node = Node(
    id: Id, category: u32, name: Text, kernel: KernelRef, launch: Launch,
    bytes: u64, memset: byte, shape: Shape, dtype: u32, layout: u32,
    scalar: Scalar, quant: Quantization, binding: Binding, requiredAlignment: u64,
    childHi: u64, childLo: u64, inputs: seq<u32>, outputs: seq<u32>, payload: seq<byte>)

  datatype Edge = Edge(id: Id, from: Id, to: Id, kind: u32, caption: Text)

  datatype Backend = Backend(kind: u32, name: Text, version: u32, implementation: Text)

  datatype Runtime = Runtime(version: u32, graphAbi: u32, kernelAbi: u32, driver: u32, driverText: Text)

  datatype Device = Device(
    vendor: u32, architecture: Text, computeMajor: u32, computeMinor: u32, index: u32, name: Text)

  datatype Sync = Sync(captureMode: u32, streamSemantics: u32, externalSync: bool, events: u32)

  datatype Provenance = Provenance(
    timestampMs: u64, source: Text, durationUs: u64, toolchain: Text, graphName: Text)

  datatype Workload = Workload(
    name: Text, version: u32, namespace: Text, revisionMode: u32, modelRevision: Text, policyGeneration: Text)

  /** The stored part of a graph descriptor; its digests are recomputed from it. */
  datatype Descriptor = Descriptor(
    artifact: Id, generation: u64, backend: Backend, runtime: Runtime, device: Device, sync: Sync,
    nodes: seq<Node>, edges: seq<Edge>, dependencies: seq<KernelRef>, provenance: Provenance)

  // Member initialisers of the C++ records.
  const NO_KERNEL := KernelRef([], 0, 0, 0, 1, [], [], true)
  const UNIT_LAUNCH := Launch(1, 1, 1, 1, 1, 1, 0)
  const NO_SHAPE := Shape([], false, 0)
  const NO_SCALAR := Scalar(false, 0, 0)
  const NO_QUANT := Quantization(QUANT_NONE, 0, true, [])
  const DEFAULT_BINDING := Binding(IMMUTABLE_BINDING, 128, [], false)
  const DEFAULT_NODE := Node(
    Id(0, 0), KERNEL, [], NO_KERNEL, UNIT_LAUNCH, 0, 0, NO_SHAPE, DTYPE_NONE, LAYOUT_CONTIGUOUS,
    NO_SCALAR, NO_QUANT, DEFAULT_BINDING, 128, 0, 0, [], [], [])
  const DEFAULT_EDGE := Edge(Id(0, 0), Id(0, 0), Id(0, 0), 1, [])

  /** The fields that no encoder of a dependency writes are cleared. */
  function NormalKernel(k: KernelRef): KernelRef {
    k.(provenance := [])
  }

  function NormalKernels(ks: seq<KernelRef>): (r: seq<KernelRef>)
    ensures |r| == |ks|
    ensures forall i | 0 <= i < |ks| :: r[i] == NormalKernel(ks[i])
  {
    seq(|ks|, i requires 0 <= i < |ks| => NormalKernel(ks[i]))
  }

  function NormalQuant(q: Quantization): Quantization {
    if q.mode == QUANT_NONE then NO_QUANT else q
  }

  function NormalScalar(s: Scalar): Scalar {
    if s.specialized then s else NO_SCALAR
  }

  /**
    What both node encoders keep: a field that is written only under a
    condition goes back to its initial value when the condition fails.
   */
  function NormalNode(n: Node): Node {
    n.(kernel := if n.category == KERNEL then NormalKernel(n.kernel) else NO_KERNEL,
       launch := if n.category == KERNEL then n.launch else UNIT_LAUNCH,
       memset := if n.category == MEMORY_SET then n.memset else 0,
       shape := if n.dtype == DTYPE_NONE then NO_SHAPE else n.shape,
       layout := if n.dtype == DTYPE_NONE then LAYOUT_CONTIGUOUS else n.layout,
       scalar := NormalScalar(n.scalar),
       quant := NormalQuant(n.quant),
       childHi := if n.childLo == 0 then 0 else n.childHi)
  }

  function NormalNodes(ns: seq<Node>): (r: seq<Node>)
    ensures |r| == |ns|
    ensures forall i | 0 <= i < |ns| :: r[i] == NormalNode(ns[i])
  {
    seq(|ns|, i requires 0 <= i < |ns| => NormalNode(ns[i]))
  }

  /** Replay reads a scalar whether or not it is specialised; the encoders do not. */
  ghost predicate PlainScalars(ns: seq<Node>) {
    forall i | 0 <= i < |ns| :: ns[i].scalar == NormalScalar(ns[i].scalar)
  }

  ghost predicate UniqueNodeIds(ns: seq<Node>) {
    forall i, j | 0 <= i < j < |ns| :: ns[i].id != ns[j].id
  }

  ghost predicate UniqueEdgeIds(es: seq<Edge>) {
    forall i, j | 0 <= i < j < |es| :: es[i].id != es[j].id
  }
}
