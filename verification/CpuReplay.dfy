/**
  `CpuBackend::replay`: executing a captured graph over caller-supplied
  buffers. Memory is one flat byte array and a buffer is an address in it, so
  inputs and outputs may alias or overlap in any way. Single-precision
  arithmetic is a parameter.
 */
module CpuReplay {
  import opened Bytes
  import opened Descriptors
  import opened Topology
  import opened CpuCapture
  import Sha256

  /** Lanes are 32-bit patterns; the operations are whatever the hardware does. */
  datatype Arithmetic = Arithmetic(
    fromDouble: u64 -> u32, fromInt: i64 -> u32,
    mul: (u32, u32) -> u32, add: (u32, u32) -> u32, positive: u32 -> bool)

  datatype Buffers = Buffers(inputs: seq<nat>, outputs: seq<nat>)

  /** What one captured node does. */
  datatype Instr =
    | Copy(src: u32, dst: u32, bytes: u64)
    | Fill(dst: u32, value: byte, bytes: u64)
    | Launch(op: CpuKernel, src: u32, dst: u32, bytes: u64, scalar: Scalar)
    | Skip

  function InstrOf(n: CpuNode): Instr {
    if n.category == MEMORY_COPY then Copy(n.src, n.dst, n.bytes)
    else if n.category == MEMORY_SET then Fill(n.dst, n.memset, n.bytes)
    else if n.category == KERNEL then Instr.Launch(n.kernel, n.src, n.dst, n.bytes, n.scalar)
    else Skip
  }

  datatype Refusal = UnknownNode | BufferOutOfRange

  /** `hashed` is what the digest has absorbed. `Fault` is an access outside memory, which the code does not check. */
  datatype Outcome =
    | Running(mem: seq<byte>, hashed: seq<byte>, count: nat)
    | Rejected(refusal: Refusal, mem: seq<byte>)
    | Fault

  function Write(mem: seq<byte>, at: nat, data: seq<byte>): (r: seq<byte>)
    requires at + |data| <= |mem|
    ensures |r| == |mem|
  {
    mem[..at] + data + mem[at + |data|..]
  }

  function LaneAt(mem: seq<byte>, at: nat): u32
    requires at + 4 <= |mem|
  {
    Pow256Values();
    FromLittleEndianRoundTrip(mem[at..at + 4]);
    FromLittleEndian(mem[at..at + 4])
  }

  function LaneResult(fp: Arithmetic, op: CpuKernel, s: Scalar, x: u32): u32 {
    var a := fp.fromDouble(s.floatBits);
    var b := fp.fromInt(s.intValue);
    match op
    case Identity => x
    case Scale => fp.mul(x, a)
    case AddScalar => fp.add(x, a)
    case Linear => fp.add(fp.mul(x, b), a)
    case Square => fp.mul(x, x)
    case Relu => if fp.positive(x) then x else 0
  }

  /** The lanes from `i` on, one after the other, each reading memory as the earlier ones left it. */
  function RunLanes(fp: Arithmetic, op: CpuKernel, s: Scalar, mem: seq<byte>, src: nat, dst: nat, i: nat, n: nat): (r: seq<byte>)
    requires i <= n && src + 4 * n <= |mem| && dst + 4 * n <= |mem|
    ensures |r| == |mem|
    decreases n - i
  {
    if i == n then mem
    else
      var y := LaneResult(fp, op, s, LaneAt(mem, src + 4 * i));
      RunLanes(fp, op, s, Write(mem, dst + 4 * i, LittleEndian(4, y)), src, dst, i + 1, n)
  }

  function Exec(fp: Arithmetic, io: Buffers, i: Instr, mem: seq<byte>, hashed: seq<byte>, count: nat): Outcome {
    match i
    case Skip => Running(mem, hashed, count)
    case Copy(s, d, n) =>
      if s >= |io.inputs| || d >= |io.outputs| then Rejected(BufferOutOfRange, mem)
      else if io.inputs[s] + n > |mem| || io.outputs[d] + n > |mem| then Fault
      else Running(Write(mem, io.outputs[d], mem[io.inputs[s]..io.inputs[s] + n]), hashed, count + 1)
    case Fill(d, v, n) =>
      if d >= |io.outputs| then Rejected(BufferOutOfRange, mem)
      else if io.outputs[d] + n > |mem| then Fault
      else Running(Write(mem, io.outputs[d], seq(n, j => v)), hashed, count + 1)
    case Launch(op, s, d, n, sc) =>
      if s >= |io.inputs| || d >= |io.outputs| then Rejected(BufferOutOfRange, mem)
      else if io.inputs[s] + 4 * (n / 4) > |mem| || io.outputs[d] + n > |mem| then Fault
      else
        var after := RunLanes(fp, op, sc, mem, io.inputs[s], io.outputs[d], 0, n / 4);
        Running(after, hashed + after[io.outputs[d]..io.outputs[d] + n], count + 1)
  }

  function Find(nodes: seq<CpuNode>, id: Id): Option<CpuNode> {
    if nodes == [] then None
    else if nodes[0].id == id then Some(nodes[0])
    else Find(nodes[1..], id)
  }

  /** Executes the order from position `k` on. */
  function ReplayFrom(fp: Arithmetic, io: Buffers, g: CpuGraph, k: nat, o: Outcome): Outcome
    requires k <= |g.order|
    decreases |g.order| - k
  {
    if k == |g.order| || !o.Running? then o
    else
      match Find(g.nodes, g.order[k])
      case None => Rejected(UnknownNode, o.mem)
      case Some(n) => ReplayFrom(fp, io, g, k + 1, Exec(fp, io, InstrOf(n), o.mem, o.hashed, o.count))
  }

  function Replay(fp: Arithmetic, io: Buffers, g: CpuGraph, mem: seq<byte>): Outcome {
    ReplayFrom(fp, io, g, 0, Running(mem, [], 0))
  }

  /** What the caller of `replay` gets back. */
  datatype ReplayResult =
    | Replayed(digest: seq<byte>, nodes: nat)
    | Refused(refusal: Refusal)
    | Undefined

  function ResultOf(o: Outcome): ReplayResult {
    match o
    case Running(_, hashed, count) => Replayed(Sha256.Digest(hashed), count)
    case Rejected(refusal, _) => ReplayResult.Refused(refusal)
    case Fault => Undefined
  }

  // ----- the loop as it runs, in place -----

  method FindNode(nodes: seq<CpuNode>, id: Id) returns (r: Option<CpuNode>)
    ensures r == Find(nodes, id)
  {
    for i := 0 to |nodes|
      invariant Find(nodes, id) == Find(nodes[i..], id)
    {
      assert nodes[i..][1..] == nodes[i + 1..];
      if nodes[i].id == id {
        return Some(nodes[i]);
      }
    }
    r := None;
  }

  method Store(mem: array<byte>, at: nat, data: seq<byte>)
    requires at + |data| <= mem.Length
    modifies mem
    ensures mem[..] == Write(old(mem[..]), at, data)
  {
    forall i | 0 <= i < |data| {
      mem[at + i] := data[i];
    }
  }

  method RunKernel(fp: Arithmetic, op: CpuKernel, s: Scalar, mem: array<byte>, src: nat, dst: nat, n: nat)
    requires src + 4 * n <= mem.Length && dst + 4 * n <= mem.Length
    modifies mem
    ensures mem[..] == RunLanes(fp, op, s, old(mem[..]), src, dst, 0, n)
  {
    hide LaneResult, LaneAt, Write, LittleEndian;
    for i := 0 to n
      invariant RunLanes(fp, op, s, mem[..], src, dst, i, n) == RunLanes(fp, op, s, old(mem[..]), src, dst, 0, n)
    {
      var y := LaneResult(fp, op, s, LaneAt(mem[..], src + 4 * i));
      Store(mem, dst + 4 * i, LittleEndian(4, y));
    }
  }

  datatype NodeStatus = Ran(count: nat) | Failed(refusal: Refusal) | Crashed

  /** The status a step returns and the state it leaves are those of the outcome `o`. */
  ghost predicate Shows(o: Outcome, s: NodeStatus, mem: seq<byte>, hashed: seq<byte>) {
    match o
    case Running(m, h, c) => s == Ran(c) && m == mem && h == hashed
    case Rejected(r, m) => s == Failed(r) && m == mem
    case Fault => s == Crashed
  }

  /** One node: updates memory, the running digest and the node count in place. */
  method ExecNode(fp: Arithmetic, io: Buffers, i: Instr, mem: array<byte>, h: Sha256.Hasher, count: nat)
      returns (s: NodeStatus)
    requires h.Valid() && h.buffer != mem
    modifies mem, h, h.buffer
    ensures h.Valid()
    ensures Shows(Exec(fp, io, i, old(mem[..]), old(h.msg), count), s, mem[..], h.msg)
  {
    hide RunLanes, Write, h.Valid, h.Absorbed;
    match i
    case Skip =>
      s := Ran(count);
    case Copy(src, d, n) =>
      if src >= |io.inputs| || d >= |io.outputs| {
        return Failed(BufferOutOfRange);
      }
      if io.inputs[src] + n > mem.Length || io.outputs[d] + n > mem.Length {
        return Crashed;
      }
      SliceOfAll(mem, io.inputs[src], io.inputs[src] + n);
      Store(mem, io.outputs[d], mem[io.inputs[src]..io.inputs[src] + n]);
      s := Ran(count + 1);
    case Fill(d, v, n) =>
      if d >= |io.outputs| {
        return Failed(BufferOutOfRange);
      }
      if io.outputs[d] + n > mem.Length {
        return Crashed;
      }
      Store(mem, io.outputs[d], seq(n, j => v));
      s := Ran(count + 1);
    case Launch(op, src, d, n, sc) =>
      if src >= |io.inputs| || d >= |io.outputs| {
        return Failed(BufferOutOfRange);
      }
      if io.inputs[src] + 4 * (n / 4) > mem.Length || io.outputs[d] + n > mem.Length {
        return Crashed;
      }
      RunKernel(fp, op, sc, mem, io.inputs[src], io.outputs[d], n / 4);
      SliceOfAll(mem, io.outputs[d], io.outputs[d] + n);
      h.Update(mem[io.outputs[d]..io.outputs[d] + n]);
      s := Ran(count + 1);
  }

  lemma SliceOfAll(mem: array<byte>, lo: nat, hi: nat)
    requires lo <= hi <= mem.Length
    ensures mem[lo..hi] == mem[..][lo..hi]
  {
  }

  /** Replays in place; memory and the returned digest, count or failure are those of the specification. */
  method ReplayInPlace(fp: Arithmetic, io: Buffers, g: CpuGraph, mem: array<byte>) returns (r: ReplayResult)
    modifies mem
    ensures r == ResultOf(Replay(fp, io, g, old(mem[..])))
    ensures !Replay(fp, io, g, old(mem[..])).Fault? ==> mem[..] == Replay(fp, io, g, old(mem[..])).mem
  {
    hide Exec, Sha256.Digest, Find, InstrOf;
    var h := new Sha256.Hasher();
    ghost var whole := Replay(fp, io, g, mem[..]);
    var count := 0;
    for k := 0 to |g.order|
      invariant fresh(h) && fresh(h.buffer) && h.Valid()
      invariant ReplayFrom(fp, io, g, k, Running(mem[..], h.msg, count)) == whole
    {
      var found := FindNode(g.nodes, g.order[k]);
      if found.None? {
        return ReplayResult.Refused(UnknownNode);
      }
      var s := ExecNode(fp, io, InstrOf(found.value), mem, h, count);
      if s.Failed? {
        return ReplayResult.Refused(s.refusal);
      }
      if s.Crashed? {
        return Undefined;
      }
      count := s.count;
    }
    var digest := h.Final();
    r := Replayed(digest, count);
  }
}
