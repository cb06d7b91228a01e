/**
  What a replay does, said on the nodes of the descriptor: which kernel a name
  stands for, what each node leaves in memory, what is digested and what is
  counted. Buffers may overlap in any way.
 */
module ReplayMeaning {
  import opened Bytes
  import opened Descriptors
  import opened Topology
  import opened CpuCapture
  import opened CpuReplay
  import opened HitSoundness

  // ----- one node -----

  function Ascii(s: string): Text
    requires forall i | 0 <= i < |s| :: s[i] < 128 as char
  {
    seq(|s|, i requires 0 <= i < |s| => s[i] as int)
  }

  /** The 32-bit pattern that is stored at an address. */
  function Lane(m: seq<byte>, at: nat): int
    requires at + 4 <= |m|
  {
    (m[at] as int) + 0x100 * (m[at + 1] as int) + 0x1_0000 * (m[at + 2] as int) + 0x100_0000 * (m[at + 3] as int)
  }

  /** What a kernel of this name makes of a lane: any name but these five leaves it as it is. */
  ghost predicate Yields(fp: Arithmetic, name: Text, s: Scalar, x: u32, y: int) {
    && (name == Ascii("scale") ==> y == fp.mul(x, fp.fromDouble(s.floatBits)))
    && (name == Ascii("addscalar") ==> y == fp.add(x, fp.fromDouble(s.floatBits)))
    && (name == Ascii("linear") ==> y == fp.add(fp.mul(x, fp.fromInt(s.intValue)), fp.fromDouble(s.floatBits)))
    && (name == Ascii("square") ==> y == fp.mul(x, x))
    && (name == Ascii("relu") ==> y == if fp.positive(x) then x else 0)
    && (name !in [Ascii("scale"), Ascii("addscalar"), Ascii("linear"), Ascii("square"), Ascii("relu")] ==> y == x)
  }

  function First(indices: seq<u32>): u32 {
    if indices == [] then 0 else indices[0]
  }

  /** Categories 1, 2 and 3 are kernels, memory copies and memory sets. */
  predicate Reads(n: Node) {
    n.category == 1 || n.category == 2
  }

  predicate Writes(n: Node) {
    n.category == 1 || n.category == 2 || n.category == 3
  }

  /** The node names a buffer that the caller did not supply. */
  predicate OutOfRange(io: Buffers, n: Node) {
    || (Reads(n) && First(n.inputs) >= |io.inputs|)
    || (Writes(n) && First(n.outputs) >= |io.outputs|)
  }

  function InputOf(io: Buffers, n: Node): nat {
    if First(n.inputs) < |io.inputs| then io.inputs[First(n.inputs)] else 0
  }

  function OutputOf(io: Buffers, n: Node): nat {
    if First(n.outputs) < |io.outputs| then io.outputs[First(n.outputs)] else 0
  }

  /** The bytes that are read: a kernel reads whole lanes. */
  function ReadSize(n: Node): nat {
    if n.category == 1 then n.bytes - n.bytes % 4 else n.bytes
  }

  /** The node reads or writes outside memory. */
  predicate Outside(io: Buffers, n: Node, size: nat) {
    || (Reads(n) && InputOf(io, n) + ReadSize(n) > size)
    || (Writes(n) && OutputOf(io, n) + n.bytes > size)
  }

  predicate InOutput(io: Buffers, n: Node, j: nat) {
    Writes(n) && OutputOf(io, n) <= j < OutputOf(io, n) + n.bytes
  }

  /**
    What a node leaves in memory. Lane `k` of a kernel reads what the lanes
    before it have left, which is everything below its own output address, and
    the rest as it was.
   */
  ghost predicate Does(fp: Arithmetic, io: Buffers, n: Node, m: seq<byte>, r: seq<byte>) {
    && !OutOfRange(io, n) && !Outside(io, n, |m|) && |r| == |m|
    && (forall j | 0 <= j < |m| && !InOutput(io, n, j) :: r[j] == m[j])
    && (n.category == 2 ==> forall j: nat | InOutput(io, n, j) :: r[j] == m[InputOf(io, n) + (j - OutputOf(io, n))])
    && (n.category == 3 ==> forall j: nat | InOutput(io, n, j) :: r[j] == n.memset)
    && (n.category == 1 ==>
          && LanesYield(fp, n, InputOf(io, n), OutputOf(io, n), m, r)
          && forall j | OutputOf(io, n) + ReadSize(n) <= j < OutputOf(io, n) + n.bytes :: r[j] == m[j])
  }

  ghost predicate LanesYield(fp: Arithmetic, n: Node, src: nat, dst: nat, m: seq<byte>, r: seq<byte>)
    requires |r| == |m| && src + ReadSize(n) <= |m| && dst + n.bytes <= |m| && n.category == 1
  {
    forall k: nat | k < n.bytes / 4 ::
      Yields(fp, n.kernel.name, n.scalar, LaneAt(r[..dst + 4 * k] + m[dst + 4 * k..], src + 4 * k), Lane(r, dst + 4 * k))
  }

  // ----- whole runs -----

  /** The nodes in the order they are executed. */
  ghost predicate InOrder(nodes: seq<Node>, order: seq<Id>, run: seq<Node>) {
    |run| == |order| && forall k | 0 <= k < |run| :: run[k] in nodes && run[k].id == order[k]
  }

  /** The memories that the first nodes leave, one after the other. */
  ghost predicate Executes(fp: Arithmetic, io: Buffers, run: seq<Node>, ms: seq<seq<byte>>) {
    1 <= |ms| <= |run| + 1 && forall k | 0 <= k < |ms| - 1 :: Does(fp, io, run[k], ms[k], ms[k + 1])
  }

  /** The outputs of the kernels, in order, each as its kernel left it. */
  ghost function Outputs(io: Buffers, run: seq<Node>, ms: seq<seq<byte>>, k: nat): seq<byte>
    requires k < |ms| && k <= |run|
  {
    if k == 0 then [] else Outputs(io, run, ms, k - 1) + Output(io, run[k - 1], ms[k])
  }

  /** What is digested after a node. */
  function Output(io: Buffers, n: Node, r: seq<byte>): seq<byte> {
    var dst := OutputOf(io, n);
    if n.category == 1 && dst + n.bytes <= |r| then r[dst..dst + n.bytes] else []
  }

  function Counted(run: seq<Node>): nat {
    if run == [] then 0 else Counted(run[..|run| - 1]) + if Writes(run[|run| - 1]) then 1 else 0
  }

  /** How a replay ends: after every node, or at the first that names no buffer or leaves memory. */
  ghost predicate Ends(fp: Arithmetic, io: Buffers, run: seq<Node>, ms: seq<seq<byte>>, o: Outcome) {
    && Executes(fp, io, run, ms)
    && var n := |ms| - 1;
       match o
       case Running(m, hashed, count) => n == |run| && m == ms[n] && hashed == Outputs(io, run, ms, n) && count == Counted(run)
       case Rejected(refusal, m) => n < |run| && OutOfRange(io, run[n]) && m == ms[n] && refusal == BufferOutOfRange
       case Fault => n < |run| && !OutOfRange(io, run[n]) && Outside(io, run[n], |ms[n]|)
  }

  // ----- lanes -----

  lemma LaneIsLane(m: seq<byte>, at: nat)
    requires at + 4 <= |m|
    ensures LaneAt(m, at) == Lane(m, at)
  {
    BigEndianWord(m[at + 3], m[at + 2], m[at + 1], m[at]);
    assert Reverse(m[at..at + 4]) == [m[at + 3], m[at + 2], m[at + 1], m[at]];
  }

  lemma BigEndianWord(a: byte, b: byte, c: byte, d: byte)
    ensures FromBigEndian([a, b, c, d]) == (((a as int) * 0x100 + b) * 0x100 + c) * 0x100 + d
  {
    assert [a, b, c, d][..3] == [a, b, c] && [a, b, c][..2] == [a, b] && [a, b][..1] == [a] && [a][..0] == [];
    assert FromBigEndian([a]) == a;
    assert FromBigEndian([a, b]) == (a as int) * 0x100 + b;
  }

  lemma LaneWritten(m: seq<byte>, at: nat, y: u32)
    requires at + 4 <= |m|
    ensures LaneAt(Write(m, at, LittleEndian(4, y)), at) == y
  {
    hide LittleEndian, FromLittleEndian;
    var w := Write(m, at, LittleEndian(4, y));
    assert w[at..at + 4] == LittleEndian(4, y);
    Pow256Values();
    LittleEndianRoundTrip(4, y);
  }

  lemma NameIsMeant(fp: Arithmetic, name: Text, s: Scalar, x: u32)
    ensures Yields(fp, name, s, x, LaneResult(fp, ClassifyKernel(name), s, x))
  {
    assert SCALE_NAME == Ascii("scale") && ADDSCALAR_NAME == Ascii("addscalar") && LINEAR_NAME == Ascii("linear");
    assert SQUARE_NAME == Ascii("square") && RELU_NAME == Ascii("relu");
    assert |SCALE_NAME| == 5 && |ADDSCALAR_NAME| == 9 && |LINEAR_NAME| == |SQUARE_NAME| == 6 && |RELU_NAME| == 4;
    assert LINEAR_NAME[0] != SQUARE_NAME[0];
  }

  /** The lanes from `i` on change their own outputs only, and each reads what the earlier ones left. */
  lemma {:induction false} LanesMean(fp: Arithmetic, op: CpuKernel, s: Scalar, m: seq<byte>, src: nat, dst: nat, i: nat, n: nat, r: seq<byte>)
    requires i <= n && src + 4 * n <= |m| && dst + 4 * n <= |m| && r == RunLanes(fp, op, s, m, src, dst, i, n)
    ensures forall j | 0 <= j < |m| && (j < dst + 4 * i || dst + 4 * n <= j) :: r[j] == m[j]
    ensures forall k | i <= k < n :: LaneAt(r, dst + 4 * k) == LaneResult(fp, op, s, LaneAt(r[..dst + 4 * k] + m[dst + 4 * k..], src + 4 * k))
    decreases n - i
  {
    hide LaneResult, LaneAt, LittleEndian;
    if i < n {
      var y := LaneResult(fp, op, s, LaneAt(m, src + 4 * i));
      var at := dst + 4 * i;
      var w := Write(m, at, LittleEndian(4, y));
      LanesMean(fp, op, s, w, src, dst, i + 1, n, r);
      assert forall j | 0 <= j < |m| && (j < at || at + 4 <= j) :: w[j] == m[j];
      forall k | i <= k < n
        ensures LaneAt(r, dst + 4 * k) == LaneResult(fp, op, s, LaneAt(r[..dst + 4 * k] + m[dst + 4 * k..], src + 4 * k))
      {
        if k == i {
          assert r[..at] + m[at..] == m;
          LaneWritten(m, at, y);
          SameLane(r, w, at);
        } else {
          assert r[..dst + 4 * k] + m[dst + 4 * k..] == r[..dst + 4 * k] + w[dst + 4 * k..];
        }
      }
    }
  }

  lemma SameLane(a: seq<byte>, b: seq<byte>, at: nat)
    requires at + 4 <= |a| && at + 4 <= |b| && forall j | at <= j < at + 4 :: a[j] == b[j]
    ensures LaneAt(a, at) == LaneAt(b, at)
  {
    assert a[at..at + 4] == b[at..at + 4];
  }

  // ----- one step -----

  lemma KernelDoes(fp: Arithmetic, io: Buffers, n: Node, m: seq<byte>)
    requires n.category == KERNEL && !OutOfRange(io, n) && !Outside(io, n, |m|)
    ensures Does(fp, io, n, m, RunLanes(fp, ClassifyKernel(n.kernel.name), n.scalar, m, InputOf(io, n), OutputOf(io, n), 0, n.bytes / 4))
  {
    hide RunLanes, LaneResult, LaneAt, Lane, Yields, ClassifyKernel;
    var op, src, dst, lanes := ClassifyKernel(n.kernel.name), InputOf(io, n), OutputOf(io, n), n.bytes / 4;
    var r := RunLanes(fp, op, n.scalar, m, src, dst, 0, lanes);
    LanesMean(fp, op, n.scalar, m, src, dst, 0, lanes, r);
    forall k: nat | k < lanes
      ensures Yields(fp, n.kernel.name, n.scalar, LaneAt(r[..dst + 4 * k] + m[dst + 4 * k..], src + 4 * k), Lane(r, dst + 4 * k))
    {
      LaneIsLane(r, dst + 4 * k);
      NameIsMeant(fp, n.kernel.name, n.scalar, LaneAt(r[..dst + 4 * k] + m[dst + 4 * k..], src + 4 * k));
    }
  }

  /** What one step of the replay gives for a node. */
  ghost predicate StepEnds(fp: Arithmetic, io: Buffers, n: Node, m: seq<byte>, hashed: seq<byte>, count: nat, o: Outcome) {
    match o
    case Running(r, h, c) =>
      && Does(fp, io, n, m, r) && c == count + (if Writes(n) then 1 else 0)
      && h == hashed + Output(io, n, r)
    case Rejected(refusal, r) => OutOfRange(io, n) && r == m && refusal == BufferOutOfRange
    case Fault => !OutOfRange(io, n) && Outside(io, n, |m|)
  }

  lemma StepMeans(fp: Arithmetic, io: Buffers, n: Node, m: seq<byte>, hashed: seq<byte>, count: nat)
    ensures StepEnds(fp, io, n, m, hashed, count, Exec(fp, io, InstrOf(CpuNodeOf(n)), m, hashed, count))
  {
    hide RunLanes, ClassifyKernel, Does, Write;
    if !OutOfRange(io, n) && !Outside(io, n, |m|) {
      if n.category == KERNEL {
        KernelDoes(fp, io, n, m);
      } else if n.category == MEMORY_COPY {
        CopyDoes(fp, io, n, m);
      } else if n.category == MEMORY_SET {
        SetDoes(fp, io, n, m);
      } else {
        NothingDoes(fp, io, n, m);
      }
    }
  }

  lemma CopyDoes(fp: Arithmetic, io: Buffers, n: Node, m: seq<byte>)
    requires n.category == MEMORY_COPY && !OutOfRange(io, n) && !Outside(io, n, |m|)
    ensures Does(fp, io, n, m, Write(m, OutputOf(io, n), m[InputOf(io, n)..InputOf(io, n) + n.bytes]))
  {
  }

  lemma SetDoes(fp: Arithmetic, io: Buffers, n: Node, m: seq<byte>)
    requires n.category == MEMORY_SET && !OutOfRange(io, n) && !Outside(io, n, |m|)
    ensures Does(fp, io, n, m, Write(m, OutputOf(io, n), seq(n.bytes, j => n.memset)))
  {
  }

  lemma NothingDoes(fp: Arithmetic, io: Buffers, n: Node, m: seq<byte>)
    requires !Writes(n)
    ensures Does(fp, io, n, m, m)
  {
  }

  // ----- the whole run -----

  lemma {:induction false} OutputsPrefix(io: Buffers, run: seq<Node>, ms: seq<seq<byte>>, r: seq<byte>, k: nat)
    requires k < |ms| && k <= |run|
    ensures Outputs(io, run, ms + [r], k) == Outputs(io, run, ms, k)
  {
    hide Output;
    if k > 0 {
      OutputsPrefix(io, run, ms, r, k - 1);
    }
  }

  lemma {:induction false} OutputsNext(io: Buffers, run: seq<Node>, ms: seq<seq<byte>>, r: seq<byte>)
    requires 1 <= |ms| <= |run|
    ensures var k := |ms| - 1; Outputs(io, run, ms + [r], k + 1) == Outputs(io, run, ms, k) + Output(io, run[k], r)
  {
    hide Output;
    OutputsPrefix(io, run, ms, r, |ms| - 1);
    assert (ms + [r])[|ms|] == r;
  }

  lemma CountedNext(run: seq<Node>, k: nat)
    requires k < |run|
    ensures Counted(run[..k + 1]) == Counted(run[..k]) + if Writes(run[k]) then 1 else 0
  {
    assert run[..k + 1][..k] == run[..k];
  }

  lemma {:induction false} RunMeans(fp: Arithmetic, io: Buffers, nodes: seq<Node>, g: CpuGraph, run: seq<Node>, ms: seq<seq<byte>>, o: Outcome)
      returns (all: seq<seq<byte>>)
    requires UniqueNodeIds(nodes) && |g.nodes| == |nodes| && (forall i | 0 <= i < |nodes| :: g.nodes[i] == CpuNodeOf(nodes[i]))
    requires InOrder(nodes, g.order, run) && Executes(fp, io, run, ms)
    requires var k := |ms| - 1; o == Running(ms[k], Outputs(io, run, ms, k), Counted(run[..k]))
    ensures Ends(fp, io, run, all, ReplayFrom(fp, io, g, |ms| - 1, o)) && all[0] == ms[0]
    decreases |run| - |ms|
  {
    hide Does, Exec, InstrOf, CpuNodeOf, Find, OutOfRange, Outside, Outputs, Counted;
    var k := |ms| - 1;
    if k == |run| {
      assert run[..k] == run;
      all := ms;
    } else {
      var n := run[k];
      FindUnique(nodes, g.nodes, n);
      StepMeans(fp, io, n, o.mem, o.hashed, o.count);
      var next := Exec(fp, io, InstrOf(CpuNodeOf(n)), o.mem, o.hashed, o.count);
      if next.Running? {
        var longer := ms + [next.mem];
        OutputsNext(io, run, ms, next.mem);
        CountedNext(run, k);
        all := RunMeans(fp, io, nodes, g, run, longer, next);
      } else {
        all := ms;
      }
    }
  }

  lemma OrderNames(nodes: seq<Node>, edges: seq<Edge>, order: seq<Id>) returns (run: seq<Node>)
    requires CanonicalOrder(NodeIds(nodes), edges, order)
    ensures InOrder(nodes, order, run)
  {
    hide LeastFirst, Topological;
    forall k | 0 <= k < |order|
      ensures exists i :: 0 <= i < |nodes| && nodes[i].id == order[k]
    {
      assert order[k] in Elems(order);
    }
    run := seq(|order|, k requires 0 <= k < |order| => var i :| 0 <= i < |nodes| && nodes[i].id == order[k]; nodes[i]);
  }

  /**
    A replay of a captured graph executes its nodes in their order; the digest
    absorbs the kernels' outputs and the count is of copies, sets and kernels.
    It stops early only at a node that names a buffer the caller did not supply,
    with memory as the nodes before it left it, or that leaves memory.
   */
  lemma ReplayMeans(fp: Arithmetic, io: Buffers, nodes: seq<Node>, edges: seq<Edge>, g: CpuGraph, mem: seq<byte>)
      returns (run: seq<Node>, ms: seq<seq<byte>>)
    requires ValidTopology(nodes, edges) && Captures(nodes, edges, g)
    ensures InOrder(nodes, g.order, run) && Ends(fp, io, run, ms, Replay(fp, io, g, mem)) && ms[0] == mem
  {
    hide CanonicalOrder, Acyclic, Does;
    run := OrderNames(nodes, edges, g.order);
    assert run[..0] == [];
    ms := RunMeans(fp, io, nodes, g, run, [mem], Running(mem, [], 0));
  }

  // ----- what follows for memory and for a single node -----

  /** Memory that is in no node's output is as it was, however the replay ends. */
  lemma {:induction false} OutsideIsUntouched(fp: Arithmetic, io: Buffers, run: seq<Node>, ms: seq<seq<byte>>, k: nat, j: nat)
    requires Executes(fp, io, run, ms) && k < |ms| && j < |ms[0]|
    requires forall i | 0 <= i < k :: !InOutput(io, run[i], j)
    ensures |ms[k]| == |ms[0]| && ms[k][j] == ms[0][j]
  {
    hide InOutput, OutOfRange, Outside, LanesYield;
    if k > 0 {
      OutsideIsUntouched(fp, io, run, ms, k - 1, j);
      assert Does(fp, io, run[k - 1], ms[k - 1], ms[k]);
    }
  }

  /** A kernel reads its input as it was before, unless its output begins inside the input and behind its start. */
  lemma LanesReadInput(fp: Arithmetic, io: Buffers, n: Node, m: seq<byte>, r: seq<byte>, k: nat)
    requires n.category == KERNEL && Does(fp, io, n, m, r) && k < n.bytes / 4
    requires OutputOf(io, n) <= InputOf(io, n) || InputOf(io, n) + ReadSize(n) <= OutputOf(io, n)
    ensures Yields(fp, n.kernel.name, n.scalar, LaneAt(m, InputOf(io, n) + 4 * k), Lane(r, OutputOf(io, n) + 4 * k))
  {
    hide LaneAt, Lane, Yields;
    var src, dst := InputOf(io, n), OutputOf(io, n);
    assert LanesYield(fp, n, src, dst, m, r);
    var seen := r[..dst + 4 * k] + m[dst + 4 * k..];
    assert Yields(fp, n.kernel.name, n.scalar, LaneAt(seen, src + 4 * k), Lane(r, dst + 4 * k));
    forall j | src + 4 * k <= j < src + 4 * k + 4
      ensures seen[j] == m[j]
    {
      assert j < dst + 4 * k ==> !InOutput(io, n, j);
    }
    SameLane(seen, m, src + 4 * k);
  }

  /** The one order of a graph of one node. */
  lemma SingleOrder(n: Node, g: CpuGraph, run: seq<Node>)
    requires Captures([n], [], g) && InOrder([n], g.order, run)
    ensures run == [n]
  {
    hide LeastFirst, Topological;
    assert [n][0].id in NodeIds([n]);
    assert NodeIds([n]) == {n.id};
    assert forall k | 0 <= k < |g.order| :: g.order[k] in Elems(g.order);
    assert n.id in Elems(g.order);
    DistinctCount(g.order);
    assert |g.order| == |{n.id}| == 1;
  }

  /**
    A graph of one kernel: with its buffers in memory and its output apart from
    its input, every lane of the output is what the kernel's name says of the
    same lane of the input, nothing else changes, and the output is digested.
   */
  lemma KernelMeans(fp: Arithmetic, io: Buffers, n: Node, g: CpuGraph, mem: seq<byte>)
    requires n.category == 1 && ValidTopology([n], []) && Captures([n], [], g)
    requires !OutOfRange(io, n) && !Outside(io, n, |mem|)
    requires OutputOf(io, n) <= InputOf(io, n) || InputOf(io, n) + ReadSize(n) <= OutputOf(io, n)
    ensures var o, src, dst := Replay(fp, io, g, mem), InputOf(io, n), OutputOf(io, n);
            && o.Running? && |o.mem| == |mem| && o.count == 1 && o.hashed == o.mem[dst..dst + n.bytes]
            && (forall j | 0 <= j < |mem| && !(dst <= j < dst + ReadSize(n)) :: o.mem[j] == mem[j])
            && (forall k: nat | k < n.bytes / 4 :: Yields(fp, n.kernel.name, n.scalar, LaneAt(mem, src + 4 * k), Lane(o.mem, dst + 4 * k)))
  {
    hide Replay, LaneAt, Lane, Captures, ValidTopology, Yields;
    var run, ms := ReplayMeans(fp, io, [n], [], g, mem);
    SingleOrder(n, g, run);
    var o := Replay(fp, io, g, mem);
    assert Does(fp, io, n, mem, o.mem);
    assert Outputs(io, run, ms, 1) == Outputs(io, run, ms, 0) + Output(io, n, o.mem);
    assert [n][..0] == [];
    assert Counted([]) == 0;
    forall k: nat | k < n.bytes / 4
      ensures Yields(fp, n.kernel.name, n.scalar, LaneAt(mem, InputOf(io, n) + 4 * k), Lane(o.mem, OutputOf(io, n) + 4 * k))
    {
      LanesReadInput(fp, io, n, mem, o.mem, k);
    }
  }

  /** And if a buffer is missing, memory is left alone and the replay is refused. */
  lemma MissingBufferIsRefused(fp: Arithmetic, io: Buffers, n: Node, g: CpuGraph, mem: seq<byte>)
    requires ValidTopology([n], []) && Captures([n], [], g)
    ensures Replay(fp, io, g, mem) == Rejected(BufferOutOfRange, mem) <==> OutOfRange(io, n)
    ensures Replay(fp, io, g, mem) == Fault <==> !OutOfRange(io, n) && Outside(io, n, |mem|)
  {
    hide Replay, Captures, ValidTopology;
    var run, ms := ReplayMeans(fp, io, [n], [], g, mem);
    SingleOrder(n, g, run);
    if Replay(fp, io, g, mem).Running? {
      assert Does(fp, io, run[0], ms[0], ms[1]);
    }
  }
}
