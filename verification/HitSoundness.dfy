/**
  A hit is a correctness decision (include/graphcache/compatibility.hpp): when
  the engine lets a request use a captured graph, replaying that graph is
  replaying the request's own graph, for every buffer layout, every memory
  content and every single-precision arithmetic. Scalars that are not marked
  specialised are read by replay but not compared, so the property needs one
  more condition, and this module gives it exactly.
 */
module HitSoundness {
  import opened Bytes
  import opened Descriptors
  import opened Topology
  import opened TopologyCodec
  import opened CpuCapture
  import opened CpuReplay
  import opened SameGraph
  import opened Facts
  import opened Decide
  import IdOrder

  /** On a machine with this arithmetic no caller can tell the two executables apart. */
  ghost predicate SameReplayOn(fp: Arithmetic, g: CpuGraph, h: CpuGraph) {
    forall io, mem :: Replay(fp, io, g, mem) == Replay(fp, io, h, mem)
  }

  /** The same for callers with no more buffers and no more memory than this. */
  ghost predicate SameReplayWithin(sp: Space, fp: Arithmetic, g: CpuGraph, h: CpuGraph) {
    forall io: Buffers, mem: seq<byte> | |io.inputs| <= sp.buffers && |io.outputs| <= sp.buffers && |mem| <= 2 * sp.room ::
      Replay(fp, io, g, mem) == Replay(fp, io, h, mem)
  }

  /** And on no machine. */
  ghost predicate SameReplay(g: CpuGraph, h: CpuGraph) {
    forall fp :: SameReplayOn(fp, g, h)
  }

  /** A kernel computes the same from every lane with either scalar. */
  ghost predicate SameLanes(fp: Arithmetic, op: CpuKernel, s: Scalar, t: Scalar) {
    forall x: u32 :: LaneResult(fp, op, s, x) == LaneResult(fp, op, t, x)
  }

  /** A kernel node that processes at least one lane computes the same in both graphs. */
  ghost predicate SameLanesAt(fp: Arithmetic, x: Node, y: Node) {
    x.category == KERNEL && x.bytes >= 4 ==> SameLanes(fp, ClassifyKernel(x.kernel.name), x.scalar, y.scalar)
  }

  ghost predicate LanesAgree(fp: Arithmetic, na: seq<Node>, nb: seq<Node>) {
    forall x, y | x in na && y in nb && x.id == y.id :: SameLanesAt(fp, x, y)
  }

  /** The scalar operands this kernel reads, before any conversion. */
  predicate SameOperands(op: CpuKernel, s: Scalar, t: Scalar) {
    match op
    case Scale => s.floatBits == t.floatBits
    case AddScalar => s.floatBits == t.floatBits
    case Linear => s.floatBits == t.floatBits && s.intValue == t.intValue
    case _ => true
  }

  predicate SameOperandsAt(x: Node, y: Node) {
    x.category == KERNEL && x.bytes >= 4 ==> SameOperands(ClassifyKernel(x.kernel.name), x.scalar, y.scalar)
  }

  ghost predicate OperandsAgree(na: seq<Node>, nb: seq<Node>) {
    forall x, y | x in na && y in nb && x.id == y.id :: SameOperandsAt(x, y)
  }

  /** Equal operands are enough on every machine. */
  lemma OperandsGiveLanes(fp: Arithmetic, na: seq<Node>, nb: seq<Node>)
    requires OperandsAgree(na, nb)
    ensures LanesAgree(fp, na, nb)
  {
    hide LaneResult, ClassifyKernel;
    forall x, y | x in na && y in nb && x.id == y.id
      ensures SameLanesAt(fp, x, y)
    {
      assert SameOperandsAt(x, y);
      if x.category == KERNEL && x.bytes >= 4 {
        SameOperandsSameLanes(fp, ClassifyKernel(x.kernel.name), x.scalar, y.scalar);
      }
    }
  }

  lemma SameOperandsSameLanes(fp: Arithmetic, op: CpuKernel, s: Scalar, t: Scalar)
    requires SameOperands(op, s, t)
    ensures SameLanes(fp, op, s, t)
  {
  }

  // ----- instructions -----

  function InstrAt(g: CpuGraph, id: Id): Option<Instr> {
    match Find(g.nodes, id)
    case None => None
    case Some(n) => Some(InstrOf(n))
  }

  lemma {:induction false} FindUnique(nodes: seq<Node>, cpu: seq<CpuNode>, x: Node)
    requires UniqueNodeIds(nodes) && x in nodes && |cpu| == |nodes|
    requires forall i | 0 <= i < |nodes| :: cpu[i] == CpuNodeOf(nodes[i])
    ensures Find(cpu, x.id) == Some(CpuNodeOf(x))
  {
    if nodes[0] != x {
      var i :| 0 <= i < |nodes| && nodes[i] == x;
      assert nodes[1..][i - 1] == x;
      FindUnique(nodes[1..], cpu[1..], x);
    }
  }

  /** The same instruction up to a scalar. */
  predicate Matched(i: Instr, j: Instr) {
    i == j || (i.Launch? && j.Launch? && i.op == j.op && i.src == j.src && i.dst == j.dst && i.bytes == j.bytes)
  }

  /** With this arithmetic the scalar makes no difference either. */
  ghost predicate SameEffect(fp: Arithmetic, i: Instr, j: Instr) {
    Matched(i, j) && (i.Launch? && j.Launch? && i.bytes >= 4 ==> SameLanes(fp, i.op, i.scalar, j.scalar))
  }

  lemma {:induction false} RunLanesSame(fp: Arithmetic, op: CpuKernel, s: Scalar, t: Scalar, mem: seq<byte>, src: nat, dst: nat, i: nat, n: nat)
    requires i <= n && src + 4 * n <= |mem| && dst + 4 * n <= |mem|
    requires n == 0 || SameLanes(fp, op, s, t)
    ensures RunLanes(fp, op, s, mem, src, dst, i, n) == RunLanes(fp, op, t, mem, src, dst, i, n)
    decreases n - i
  {
    hide LaneAt, LaneResult, LittleEndian, Write;
    if i < n {
      var y := LaneResult(fp, op, s, LaneAt(mem, src + 4 * i));
      assert y == LaneResult(fp, op, t, LaneAt(mem, src + 4 * i));
      RunLanesSame(fp, op, s, t, Write(mem, dst + 4 * i, LittleEndian(4, y)), src, dst, i + 1, n);
    }
  }

  lemma ExecSame(fp: Arithmetic, io: Buffers, i: Instr, j: Instr, mem: seq<byte>, hashed: seq<byte>, count: nat)
    requires SameEffect(fp, i, j)
    ensures Exec(fp, io, i, mem, hashed, count) == Exec(fp, io, j, mem, hashed, count)
  {
    hide RunLanes, SameLanes, Write;
    if i != j && i.src < |io.inputs| && i.dst < |io.outputs|
       && io.inputs[i.src] + 4 * (i.bytes / 4) <= |mem| && io.outputs[i.dst] + i.bytes <= |mem| {
      RunLanesSame(fp, i.op, i.scalar, j.scalar, mem, io.inputs[i.src], io.outputs[i.dst], 0, i.bytes / 4);
    }
  }

  /** Both captures have matching instructions for every id. */
  ghost predicate InstrsMatch(g: CpuGraph, h: CpuGraph) {
    forall k | 0 <= k < |g.order| ::
      && InstrAt(g, g.order[k]).Some? && InstrAt(h, g.order[k]).Some?
      && Matched(InstrAt(g, g.order[k]).value, InstrAt(h, g.order[k]).value)
  }

  /** The instructions at position `k` have the same effect. */
  ghost predicate AgreeAt(fp: Arithmetic, g: CpuGraph, h: CpuGraph, k: nat)
    requires k < |g.order|
  {
    && InstrAt(g, g.order[k]).Some? && InstrAt(h, g.order[k]).Some?
    && SameEffect(fp, InstrAt(g, g.order[k]).value, InstrAt(h, g.order[k]).value)
  }

  ghost predicate InstrsAgree(fp: Arithmetic, g: CpuGraph, h: CpuGraph) {
    forall k | 0 <= k < |g.order| :: AgreeAt(fp, g, h, k)
  }

  lemma {:induction false} ReplayFromSame(fp: Arithmetic, io: Buffers, g: CpuGraph, h: CpuGraph, k: nat, o: Outcome)
    requires g.order == h.order && k <= |g.order| && InstrsAgree(fp, g, h)
    ensures ReplayFrom(fp, io, g, k, o) == ReplayFrom(fp, io, h, k, o)
    decreases |g.order| - k
  {
    hide Exec, SameEffect, Find, InstrOf;
    if k < |g.order| && o.Running? {
      assert AgreeAt(fp, g, h, k);
      var i, j := InstrAt(g, g.order[k]).value, InstrAt(h, g.order[k]).value;
      ExecSame(fp, io, i, j, o.mem, o.hashed, o.count);
      ReplayFromSame(fp, io, g, h, k + 1, Exec(fp, io, i, o.mem, o.hashed, o.count));
    }
  }

  // ----- what the canonical bytes leave open -----

  lemma NormalInstr(x: Node, y: Node)
    requires NormalNode(x) == NormalNode(y)
    ensures Matched(InstrOf(CpuNodeOf(x)), InstrOf(CpuNodeOf(y)))
    ensures InstrOf(CpuNodeOf(x)).Launch? <==> x.category == KERNEL
    ensures x.category == KERNEL ==>
              var i, j := InstrOf(CpuNodeOf(x)), InstrOf(CpuNodeOf(y));
              && j.Launch? && i.op == ClassifyKernel(x.kernel.name) && i.bytes == x.bytes && i.scalar == x.scalar && j.scalar == y.scalar
  {
    hide ClassifyKernel;
    var m, n := NormalNode(x), NormalNode(y);
    assert x.category == y.category && x.bytes == y.bytes && x.inputs == y.inputs && x.outputs == y.outputs by {
      assert m.category == n.category && m.bytes == n.bytes && m.inputs == n.inputs && m.outputs == n.outputs;
    }
    if x.category == KERNEL {
      assert m.kernel.name == x.kernel.name && n.kernel.name == y.kernel.name;
    } else if x.category == MEMORY_SET {
      assert m.memset == x.memset && n.memset == y.memset;
    }
  }

  /** Nodes with one normal form have the same effect exactly when their lanes agree. */
  lemma NormalEffect(fp: Arithmetic, x: Node, y: Node)
    requires NormalNode(x) == NormalNode(y)
    ensures SameEffect(fp, InstrOf(CpuNodeOf(x)), InstrOf(CpuNodeOf(y))) <==> SameLanesAt(fp, x, y)
  {
    hide SameLanes, ClassifyKernel, NormalNode, InstrOf, CpuNodeOf;
    NormalInstr(x, y);
  }

  /** Every id of the order has an instruction in both captures, from nodes with the same normal form. */
  lemma PairedNodes(na: seq<Node>, ea: seq<Edge>, g: CpuGraph, nb: seq<Node>, eb: seq<Edge>, h: CpuGraph, id: Id)
      returns (x: Node, y: Node)
    requires Alike(na, ea, nb, eb) && UniqueNodeIds(na) && UniqueNodeIds(nb)
    requires Captures(na, ea, g) && Captures(nb, eb, h) && id in g.order
    ensures x in na && y in nb && x.id == y.id == id && NormalNode(x) == NormalNode(y)
    ensures InstrAt(g, id) == Some(InstrOf(CpuNodeOf(x))) && InstrAt(h, id) == Some(InstrOf(CpuNodeOf(y)))
  {
    hide NormalNode, SortNodes, SortEdges, CpuNodeOf, InstrOf, Find, Topological, LeastFirst;
    assert id in Elems(g.order);
    var i :| 0 <= i < |na| && na[i].id == id;
    x := na[i];
    y := MatchInSorted(na, nb, x);
    FindUnique(na, g.nodes, x);
    FindUnique(nb, h.nodes, y);
  }

  /** The captured programs agree position by position exactly when the kernel nodes' lanes agree. */
  lemma InstrsAgreeExactly(fp: Arithmetic, na: seq<Node>, ea: seq<Edge>, g: CpuGraph, nb: seq<Node>, eb: seq<Edge>, h: CpuGraph)
    requires Alike(na, ea, nb, eb) && UniqueNodeIds(na) && UniqueNodeIds(nb)
    requires Captures(na, ea, g) && Captures(nb, eb, h)
    ensures InstrsMatch(g, h) && (InstrsAgree(fp, g, h) <==> LanesAgree(fp, na, nb))
  {
    hide NormalNode, Alike, Captures, InstrAt, SameEffect, Matched, CpuNodeOf, InstrOf, SameLanesAt;
    forall k | 0 <= k < |g.order|
      ensures InstrAt(g, g.order[k]).Some? && InstrAt(h, g.order[k]).Some?
      ensures Matched(InstrAt(g, g.order[k]).value, InstrAt(h, g.order[k]).value)
      ensures LanesAgree(fp, na, nb) ==> AgreeAt(fp, g, h, k)
    {
      var x, y := PairedNodes(na, ea, g, nb, eb, h, g.order[k]);
      NormalInstr(x, y);
      NormalEffect(fp, x, y);
    }
    if InstrsAgree(fp, g, h) {
      forall x, y | x in na && y in nb && x.id == y.id
        ensures SameLanesAt(fp, x, y)
      {
        LanesOfPair(fp, na, ea, g, nb, eb, h, x, y);
      }
    }
  }

  lemma LanesOfPair(fp: Arithmetic, na: seq<Node>, ea: seq<Edge>, g: CpuGraph, nb: seq<Node>, eb: seq<Edge>, h: CpuGraph, x: Node, y: Node)
    requires Alike(na, ea, nb, eb) && UniqueNodeIds(na) && UniqueNodeIds(nb)
    requires Captures(na, ea, g) && Captures(nb, eb, h) && InstrsAgree(fp, g, h)
    requires x in na && y in nb && x.id == y.id
    ensures SameLanesAt(fp, x, y)
  {
    hide Alike, NormalNode, InstrAt, SameEffect, SameLanesAt, CpuNodeOf, InstrOf, Topological, LeastFirst;
    var at :| 0 <= at < |na| && na[at] == x;
    assert x.id in NodeIds(na) && x.id in Elems(g.order);
    var p :| 0 <= p < |g.order| && g.order[p] == x.id;
    assert AgreeAt(fp, g, h, p);
    var u, v := PairedNodes(na, ea, g, nb, eb, h, x.id);
    UniqueById(na, x, u);
    UniqueById(nb, y, v);
    NormalEffect(fp, x, y);
  }

  lemma UniqueById(ns: seq<Node>, x: Node, y: Node)
    requires UniqueNodeIds(ns) && x in ns && y in ns && x.id == y.id
    ensures x == y
  {
    var i :| 0 <= i < |ns| && ns[i] == x;
    var j :| 0 <= j < |ns| && ns[j] == y;
  }

  lemma AgreementReplaysAlike(fp: Arithmetic, g: CpuGraph, h: CpuGraph)
    requires g.order == h.order && InstrsAgree(fp, g, h)
    ensures SameReplayOn(fp, g, h)
  {
    hide InstrsAgree, ReplayFrom;
    forall io, mem
      ensures Replay(fp, io, g, mem) == Replay(fp, io, h, mem)
    {
      ReplayFromSame(fp, io, g, h, 0, Running(mem, [], 0));
    }
  }

  // ----- and when it fails: buffers and a memory that show the difference -----

  /** A program that gets by with this many inputs and outputs, each with this much room. */
  datatype Space = Space(buffers: nat, room: nat)

  /** All inputs are at one address and all outputs at another, out of each other's way. */
  ghost function Apart(sp: Space): Buffers {
    Buffers(seq(sp.buffers, i => sp.room), seq(sp.buffers, i => 0))
  }

  /** A memory whose first input lane is `x`. */
  ghost function Showing(sp: Space, x: u32): (mem: seq<byte>)
    requires sp.room >= 4
    ensures |mem| == 2 * sp.room
  {
    Write(seq(2 * sp.room, i => 0), sp.room, LittleEndian(4, x))
  }

  ghost predicate Shows(sp: Space, mem: seq<byte>, x: u32) {
    sp.room >= 4 && |mem| == 2 * sp.room && LaneAt(mem, sp.room) == x
  }

  predicate InstrFits(sp: Space, i: Instr) {
    match i
    case Skip => true
    case Copy(s, d, n) => s < sp.buffers && d < sp.buffers && n <= sp.room
    case Fill(d, _, n) => d < sp.buffers && n <= sp.room
    case Launch(_, s, d, n, _) => s < sp.buffers && d < sp.buffers && n <= sp.room
  }

  ghost predicate ProgramFits(sp: Space, g: CpuGraph) {
    forall id | InstrAt(g, id).Some? :: InstrFits(sp, InstrAt(g, id).value)
  }

  lemma ShowingShows(sp: Space, x: u32)
    requires sp.room >= 4
    ensures Shows(sp, Showing(sp, x), x)
  {
    hide LittleEndian, FromLittleEndian;
    var mem := Showing(sp, x);
    assert mem[sp.room..sp.room + 4] == LittleEndian(4, x);
    Pow256Values();
    LittleEndianRoundTrip(4, x);
  }

  lemma WriteKeepsInput(sp: Space, mem: seq<byte>, at: nat, data: seq<byte>)
    requires sp.room >= 4 && |mem| == 2 * sp.room && at + |data| <= sp.room
    ensures LaneAt(Write(mem, at, data), sp.room) == LaneAt(mem, sp.room)
  {
    hide FromLittleEndian;
    var w := Write(mem, at, data);
    assert forall j | sp.room <= j < |mem| :: w[j] == mem[j];
    assert w[sp.room..sp.room + 4] == mem[sp.room..sp.room + 4];
  }

  lemma {:induction false} LanesKeepInput(sp: Space, fp: Arithmetic, op: CpuKernel, s: Scalar, mem: seq<byte>, i: nat, n: nat)
    requires i <= n && sp.room >= 4 && |mem| == 2 * sp.room && 4 * n <= sp.room
    ensures LaneAt(RunLanes(fp, op, s, mem, sp.room, 0, i, n), sp.room) == LaneAt(mem, sp.room)
    decreases n - i
  {
    hide LaneAt, LaneResult, LittleEndian, Write;
    if i < n {
      var y := LittleEndian(4, LaneResult(fp, op, s, LaneAt(mem, sp.room + 4 * i)));
      WriteKeepsInput(sp, mem, 4 * i, y);
      LanesKeepInput(sp, fp, op, s, Write(mem, 4 * i, y), i + 1, n);
    }
  }

  function HashedBytes(i: Instr): nat {
    if i.Launch? then i.bytes else 0
  }

  /** Every instruction runs, keeps the input lane, and adds a known number of bytes to the digest. */
  lemma ExecRuns(sp: Space, fp: Arithmetic, i: Instr, mem: seq<byte>, hashed: seq<byte>, count: nat, x: u32)
    requires Shows(sp, mem, x) && InstrFits(sp, i)
    ensures
      var o := Exec(fp, Apart(sp), i, mem, hashed, count);
      o.Running? && Shows(sp, o.mem, x) && |o.hashed| == |hashed| + HashedBytes(i) && hashed <= o.hashed
  {
    hide RunLanes, Write, LaneAt;
    match i
    case Skip =>
    case Copy(_, _, n) => WriteKeepsInput(sp, mem, 0, mem[sp.room..sp.room + n]);
    case Fill(_, v, n) => WriteKeepsInput(sp, mem, 0, seq(n, j => v));
    case Launch(op, _, _, n, s) => LanesKeepInput(sp, fp, op, s, mem, 0, n / 4);
  }

  lemma {:induction false} LanesKeepStart(fp: Arithmetic, op: CpuKernel, s: Scalar, mem: seq<byte>, src: nat, i: nat, n: nat)
    requires 1 <= i <= n && 4 * n <= |mem| && src + 4 * n <= |mem|
    ensures RunLanes(fp, op, s, mem, src, 0, i, n)[..4] == mem[..4]
    decreases n - i
  {
    hide LaneAt, LaneResult, LittleEndian;
    if i < n {
      var next := Write(mem, 4 * i, LittleEndian(4, LaneResult(fp, op, s, LaneAt(mem, src + 4 * i))));
      assert next[..4] == mem[..4];
      LanesKeepStart(fp, op, s, next, src, i + 1, n);
    }
  }

  lemma FirstLane(fp: Arithmetic, op: CpuKernel, s: Scalar, mem: seq<byte>, src: nat, n: nat)
    requires 1 <= n && 4 * n <= |mem| && src + 4 * n <= |mem|
    ensures RunLanes(fp, op, s, mem, src, 0, 0, n)[..4] == LittleEndian(4, LaneResult(fp, op, s, LaneAt(mem, src)))
  {
    hide LaneAt, LaneResult, LittleEndian;
    var y := LittleEndian(4, LaneResult(fp, op, s, LaneAt(mem, src)));
    var next := Write(mem, 0, y);
    assert next[..4] == y;
    LanesKeepStart(fp, op, s, next, src, 1, n);
  }

  lemma LittleEndianInjective(x: u32, y: u32)
    requires LittleEndian(4, x) == LittleEndian(4, y)
    ensures x == y
  {
    Pow256Values();
    LittleEndianRoundTrip(4, x);
    LittleEndianRoundTrip(4, y);
  }

  /** What a launch adds to the digest starts with its first lane. */
  lemma LaunchHashes(sp: Space, fp: Arithmetic, i: Instr, mem: seq<byte>, hashed: seq<byte>, count: nat, x: u32)
    requires i.Launch? && i.bytes >= 4 && Shows(sp, mem, x) && InstrFits(sp, i)
    ensures
      var o := Exec(fp, Apart(sp), i, mem, hashed, count);
      o.Running? && |o.hashed| >= |hashed| + 4 && o.hashed[|hashed|..|hashed| + 4] == LittleEndian(4, LaneResult(fp, i.op, i.scalar, x))
  {
    hide RunLanes, LaneResult, LaneAt, LittleEndian;
    var n := i.bytes / 4;
    var a := RunLanes(fp, i.op, i.scalar, mem, sp.room, 0, 0, n);
    FirstLane(fp, i.op, i.scalar, mem, sp.room, n);
    var after := hashed + a[0..i.bytes];
    assert Exec(fp, Apart(sp), i, mem, hashed, count).hashed == after;
    assert after[|hashed|..|hashed| + 4] == a[..4];
  }

  /** At position `p` the programs launch one kernel that computes something else from lane `x`. */
  ghost predicate TellsAt(fp: Arithmetic, g: CpuGraph, h: CpuGraph, p: nat, x: u32)
    requires p < |g.order|
  {
    var i, j := InstrAt(g, g.order[p]), InstrAt(h, g.order[p]);
    && i.Some? && j.Some? && i.value.Launch? && j.value.Launch? && i.value.bytes >= 4 && j.value.bytes >= 4
    && LaneResult(fp, i.value.op, i.value.scalar, x) != LaneResult(fp, j.value.op, j.value.scalar, x)
  }

  /** Up to `p` the two runs are one; at `p` the digests' inputs become different, and so they stay. */
  ghost predicate Diverging(sp: Space, p: nat, k: nat, o: Outcome, q: Outcome, x: u32) {
    && o.Running? && q.Running? && Shows(sp, o.mem, x) && Shows(sp, q.mem, x) && |o.hashed| == |q.hashed|
    && (k <= p ==> o == q) && (k > p ==> o.hashed != q.hashed)
  }

  lemma DivergingStep(sp: Space, fp: Arithmetic, g: CpuGraph, h: CpuGraph, p: nat, x: u32, k: nat, o: Outcome, q: Outcome)
    requires InstrsMatch(g, h) && p < |g.order| && TellsAt(fp, g, h, p, x) && k < |g.order| && ProgramFits(sp, g)
    requires forall n: nat | n < p :: AgreeAt(fp, g, h, n)
    requires Diverging(sp, p, k, o, q, x)
    ensures var i, j := InstrAt(g, g.order[k]).value, InstrAt(h, g.order[k]).value;
            Diverging(sp, p, k + 1, Exec(fp, Apart(sp), i, o.mem, o.hashed, o.count), Exec(fp, Apart(sp), j, q.mem, q.hashed, q.count), x)
  {
    hide Exec, Find, InstrOf, LaneResult, Shows, SameLanes, LittleEndian;
    var i, j := InstrAt(g, g.order[k]).value, InstrAt(h, g.order[k]).value;
    var o', q' := Exec(fp, Apart(sp), i, o.mem, o.hashed, o.count), Exec(fp, Apart(sp), j, q.mem, q.hashed, q.count);
    ExecRuns(sp, fp, i, o.mem, o.hashed, o.count, x);
    ExecRuns(sp, fp, j, q.mem, q.hashed, q.count, x);
    if k < p {
      assert AgreeAt(fp, g, h, k);
      ExecSame(fp, Apart(sp), i, j, o.mem, o.hashed, o.count);
    } else if k == p {
      LaunchHashes(sp, fp, i, o.mem, o.hashed, o.count, x);
      LaunchHashes(sp, fp, j, q.mem, q.hashed, q.count, x);
      if o'.hashed == q'.hashed {
        LittleEndianInjective(LaneResult(fp, i.op, i.scalar, x), LaneResult(fp, j.op, j.scalar, x));
      }
    } else {
      assert o'.hashed[..|o.hashed|] == o.hashed && q'.hashed[..|q.hashed|] == q.hashed;
    }
  }

  lemma {:induction false} RunsDiverge(sp: Space, fp: Arithmetic, g: CpuGraph, h: CpuGraph, p: nat, x: u32, k: nat, o: Outcome, q: Outcome)
    requires g.order == h.order && InstrsMatch(g, h) && p < |g.order| && TellsAt(fp, g, h, p, x) && k <= |g.order| && ProgramFits(sp, g)
    requires forall n: nat | n < p :: AgreeAt(fp, g, h, n)
    requires Diverging(sp, p, k, o, q, x)
    ensures ReplayFrom(fp, Apart(sp), g, k, o) != ReplayFrom(fp, Apart(sp), h, k, q)
    decreases |g.order| - k
  {
    hide Exec, Find, InstrOf, Shows, TellsAt, Matched, AgreeAt;
    if k < |g.order| {
      DivergingStep(sp, fp, g, h, p, x, k, o, q);
      var i, j := InstrAt(g, g.order[k]).value, InstrAt(h, g.order[k]).value;
      RunsDiverge(sp, fp, g, h, p, x, k + 1, Exec(fp, Apart(sp), i, o.mem, o.hashed, o.count), Exec(fp, Apart(sp), j, q.mem, q.hashed, q.count));
    }
  }

  lemma {:induction false} FirstDisagreement(fp: Arithmetic, g: CpuGraph, h: CpuGraph, n: nat) returns (p: nat)
    requires n < |g.order| && !AgreeAt(fp, g, h, n)
    ensures p <= n && !AgreeAt(fp, g, h, p) && forall k: nat | k < p :: AgreeAt(fp, g, h, k)
  {
    hide AgreeAt;
    if k: nat :| k < n && !AgreeAt(fp, g, h, k) {
      p := FirstDisagreement(fp, g, h, k);
    } else {
      p := n;
    }
  }

  lemma DisagreementTells(fp: Arithmetic, g: CpuGraph, h: CpuGraph, p: nat) returns (x: u32)
    requires InstrsMatch(g, h) && p < |g.order| && !AgreeAt(fp, g, h, p)
    ensures TellsAt(fp, g, h, p, x)
  {
    hide LaneResult, Find, InstrOf;
    var i, j := InstrAt(g, g.order[p]).value, InstrAt(h, g.order[p]).value;
    assert Matched(i, j) && !SameLanes(fp, i.op, i.scalar, j.scalar);
    x :| LaneResult(fp, i.op, i.scalar, x) != LaneResult(fp, j.op, j.scalar, x);
  }

  lemma DisagreementShows(sp: Space, fp: Arithmetic, g: CpuGraph, h: CpuGraph)
    requires g.order == h.order && InstrsMatch(g, h) && !InstrsAgree(fp, g, h) && ProgramFits(sp, g) && sp.room >= 4
    ensures !SameReplayWithin(sp, fp, g, h)
  {
    hide InstrsMatch, AgreeAt, TellsAt, ReplayFrom, Showing, Shows, ProgramFits;
    var n: nat :| n < |g.order| && !AgreeAt(fp, g, h, n);
    var p := FirstDisagreement(fp, g, h, n);
    var x := DisagreementTells(fp, g, h, p);
    ShowingShows(sp, x);
    var o := Running(Showing(sp, x), [], 0);
    RunsDiverge(sp, fp, g, h, p, x, 0, o, o);
    assert Replay(fp, Apart(sp), g, Showing(sp, x)) != Replay(fp, Apart(sp), h, Showing(sp, x));
  }

  /** Every program gets by with as many buffers as there are indices, and as much room as there are lengths. */
  lemma EveryProgramFits(g: CpuGraph)
    ensures ProgramFits(Space(TWO_32, TWO_64), g)
  {
    hide Find, InstrOf;
  }

  /** The nodes get by with this space. */
  ghost predicate NodesFit(sp: Space, ns: seq<Node>) {
    forall x | x in ns :: CpuNodeOf(x).src < sp.buffers && CpuNodeOf(x).dst < sp.buffers && x.bytes <= sp.room
  }

  lemma {:induction false} FindIsNode(nodes: seq<CpuNode>, id: Id)
    ensures Find(nodes, id).Some? ==> Find(nodes, id).value in nodes
  {
    if nodes != [] {
      FindIsNode(nodes[1..], id);
    }
  }

  lemma FittingNodes(sp: Space, ns: seq<Node>, es: seq<Edge>, g: CpuGraph)
    requires NodesFit(sp, ns) && Captures(ns, es, g)
    ensures ProgramFits(sp, g)
  {
    hide Find, CanonicalOrder, ClassifyKernel;
    forall id | InstrAt(g, id).Some?
      ensures InstrFits(sp, InstrAt(g, id).value)
    {
      FindIsNode(g.nodes, id);
      var i :| 0 <= i < |g.nodes| && g.nodes[i] == Find(g.nodes, id).value;
      assert ns[i] in ns;
    }
  }

  /**
    On a machine with arithmetic `fp`, two valid graphs with equal canonical
    topology replay alike, for all buffers and memories, exactly when each
    kernel node of one computes from every lane what its counterpart does.
   */
  lemma ReplayAlikeExactly(fp: Arithmetic, na: seq<Node>, ea: seq<Edge>, g: CpuGraph, nb: seq<Node>, eb: seq<Edge>, h: CpuGraph)
    requires TopologyFits(na, ea) && TopologyFits(nb, eb) && ValidTopology(na, ea)
    requires CanonicalTopology(na, ea) == CanonicalTopology(nb, eb)
    requires Captures(na, ea, g) && Captures(nb, eb, h)
    ensures SameReplayOn(fp, g, h) <==> LanesAgree(fp, na, nb)
  {
    hide Captures, SameReplayOn, SameReplayWithin, LanesAgree, CanonicalTopology, TopologyFits, InstrsAgree, InstrsMatch, ProgramFits;
    CanonicalTopologyInjective(na, ea, nb, eb);
    ValidTogether(na, ea, nb, eb);
    SameOrder(na, ea, g, nb, eb, h);
    InstrsAgreeExactly(fp, na, ea, g, nb, eb, h);
    if InstrsAgree(fp, g, h) {
      AgreementReplaysAlike(fp, g, h);
    } else if SameReplayOn(fp, g, h) {
      EveryProgramFits(g);
      DisagreementShows(Space(TWO_32, TWO_64), fp, g, h);
      WithinAll(Space(TWO_32, TWO_64), fp, g, h);
    }
  }

  lemma WithinAll(sp: Space, fp: Arithmetic, g: CpuGraph, h: CpuGraph)
    requires SameReplayOn(fp, g, h)
    ensures SameReplayWithin(sp, fp, g, h)
  {
    hide Replay;
  }

  /** No more buffers than the nodes refer to, and twice the room their data takes, are enough to tell the graphs apart. */
  lemma ReplayAlikeWithin(sp: Space, fp: Arithmetic, na: seq<Node>, ea: seq<Edge>, g: CpuGraph, nb: seq<Node>, eb: seq<Edge>, h: CpuGraph)
    requires TopologyFits(na, ea) && TopologyFits(nb, eb) && ValidTopology(na, ea)
    requires CanonicalTopology(na, ea) == CanonicalTopology(nb, eb)
    requires Captures(na, ea, g) && Captures(nb, eb, h) && NodesFit(sp, na) && sp.room >= 4
    ensures SameReplayWithin(sp, fp, g, h) <==> LanesAgree(fp, na, nb)
  {
    hide Captures, SameReplayOn, SameReplayWithin, LanesAgree, CanonicalTopology, TopologyFits, InstrsAgree, InstrsMatch, NodesFit, ProgramFits;
    CanonicalTopologyInjective(na, ea, nb, eb);
    ValidTogether(na, ea, nb, eb);
    SameOrder(na, ea, g, nb, eb, h);
    InstrsAgreeExactly(fp, na, ea, g, nb, eb, h);
    if InstrsAgree(fp, g, h) {
      AgreementReplaysAlike(fp, g, h);
      WithinAll(sp, fp, g, h);
    } else {
      FittingNodes(sp, na, ea, g);
      DisagreementShows(sp, fp, g, h);
    }
  }

  /** So graphs whose kernels read the same operands replay alike on every machine. */
  lemma SameReplayWhenOperandsAgree(na: seq<Node>, ea: seq<Edge>, g: CpuGraph, nb: seq<Node>, eb: seq<Edge>, h: CpuGraph)
    requires TopologyFits(na, ea) && TopologyFits(nb, eb) && ValidTopology(na, ea)
    requires CanonicalTopology(na, ea) == CanonicalTopology(nb, eb)
    requires Captures(na, ea, g) && Captures(nb, eb, h) && OperandsAgree(na, nb)
    ensures SameReplay(g, h)
  {
    hide Captures, SameReplayOn, LanesAgree, CanonicalTopology, TopologyFits, OperandsAgree, ValidTopology;
    forall fp
      ensures SameReplayOn(fp, g, h)
    {
      OperandsGiveLanes(fp, na, nb);
      ReplayAlikeExactly(fp, na, ea, g, nb, eb, h);
    }
  }

  /** A machine on which these operands make a difference. */
  lemma Telling(op: CpuKernel, s: Scalar, t: Scalar) returns (fp: Arithmetic)
    requires !SameOperands(op, s, t)
    ensures !SameLanes(fp, op, s, t)
  {
    var pickDouble: u64 -> u32 := d => if d == s.floatBits then 1 else 0;
    var pickInt: i64 -> u32 := i => if i == s.intValue then 1 else 0;
    var second: (u32, u32) -> u32 := (x, y) => y;
    var first: (u32, u32) -> u32 := (x, y) => x;
    fp := Arithmetic(pickDouble, pickInt, second, if s.floatBits != t.floatBits then second else first, x => false);
    assert LaneResult(fp, op, s, 0) != LaneResult(fp, op, t, 0);
  }

  /** Nothing less than equal operands is enough on all machines at once. */
  lemma ReplayAlikeEverywhere(na: seq<Node>, ea: seq<Edge>, g: CpuGraph, nb: seq<Node>, eb: seq<Edge>, h: CpuGraph)
    requires TopologyFits(na, ea) && TopologyFits(nb, eb) && ValidTopology(na, ea)
    requires CanonicalTopology(na, ea) == CanonicalTopology(nb, eb)
    requires Captures(na, ea, g) && Captures(nb, eb, h)
    ensures SameReplay(g, h) <==> OperandsAgree(na, nb)
  {
    hide Captures, SameReplayOn, SameOperands, SameLanes, CanonicalTopology, TopologyFits, ValidTopology, ClassifyKernel;
    if OperandsAgree(na, nb) {
      SameReplayWhenOperandsAgree(na, ea, g, nb, eb, h);
    } else {
      var x, y :| x in na && y in nb && x.id == y.id && !SameOperandsAt(x, y);
      var fp := Telling(ClassifyKernel(x.kernel.name), x.scalar, y.scalar);
      assert !SameLanesAt(fp, x, y);
      ReplayAlikeExactly(fp, na, ea, g, nb, eb, h);
      assert !SameReplayOn(fp, g, h);
    }
  }

  // ----- hits -----

  lemma PlainOperandsAgree(na: seq<Node>, nb: seq<Node>)
    requires NormalNodes(SortNodes(na)) == NormalNodes(SortNodes(nb)) && UniqueNodeIds(nb)
    requires PlainScalars(na) && PlainScalars(nb)
    ensures OperandsAgree(na, nb)
  {
    hide NormalNodes, SortNodes, SameOperandsAt;
    forall x, y | x in na && y in nb && x.id == y.id
      ensures SameOperandsAt(x, y)
    {
      var z := MatchInSorted(na, nb, x);
      UniqueById(nb, y, z);
      SameScalarOfNormal(x, y);
    }
  }

  lemma SameScalarOfNormal(x: Node, y: Node)
    requires NormalNode(x) == NormalNode(y)
    requires x.scalar == NormalScalar(x.scalar) && y.scalar == NormalScalar(y.scalar)
    ensures SameOperandsAt(x, y)
  {
    assert NormalNode(x).scalar == x.scalar && NormalNode(y).scalar == y.scalar;
  }

  /**
    One graph can stand in for the other: they are valid together, on every
    machine their captures replay alike (same memory, digest and count, or the
    same failure) exactly when their kernels compute the same lanes there, and
    with plain scalars they replay alike on every machine.
   */
  ghost predicate ReplaysLike(a: Descriptor, b: Descriptor) {
    && (ValidTopology(a.nodes, a.edges) <==> ValidTopology(b.nodes, b.edges))
    && (ValidTopology(a.nodes, a.edges) ==>
          && (forall fp, g, h | Captures(a.nodes, a.edges, g) && Captures(b.nodes, b.edges, h) ::
                SameReplayOn(fp, g, h) <==> LanesAgree(fp, a.nodes, b.nodes))
          && (PlainScalars(a.nodes) && PlainScalars(b.nodes) ==>
                forall g, h | Captures(a.nodes, a.edges, g) && Captures(b.nodes, b.edges, h) :: SameReplay(g, h)))
  }

  /** Graphs with the same canonical bytes can stand in for each other. */
  lemma SameTopologyReplaysLike(a: Descriptor, b: Descriptor)
    requires TopologyFits(a.nodes, a.edges) && TopologyFits(b.nodes, b.edges)
    requires CanonicalTopology(a.nodes, a.edges) == CanonicalTopology(b.nodes, b.edges)
    ensures ReplaysLike(a, b)
  {
    hide CanonicalTopology, TopologyFits, Captures, ValidTopology, SameReplay, SameReplayOn, NormalNodes, SortNodes, SortEdges,
         PlainScalars, OperandsAgree, LanesAgree;
    var na, ea, nb, eb := a.nodes, a.edges, b.nodes, b.edges;
    CanonicalTopologyInjective(na, ea, nb, eb);
    if ValidTopology(nb, eb) {
      AlikeSymmetric(na, ea, nb, eb);
      ValidTogether(nb, eb, na, ea);
    }
    if ValidTopology(na, ea) {
      ValidTogether(na, ea, nb, eb);
      ValidHasUniqueIds(na, ea);
      ValidHasUniqueIds(nb, eb);
      forall fp, g, h | Captures(na, ea, g) && Captures(nb, eb, h)
        ensures SameReplayOn(fp, g, h) <==> LanesAgree(fp, na, nb)
      {
        ReplayAlikeExactly(fp, na, ea, g, nb, eb, h);
      }
      if PlainScalars(na) && PlainScalars(nb) {
        PlainOperandsAgree(na, nb);
        forall g, h | Captures(na, ea, g) && Captures(nb, eb, h)
          ensures SameReplay(g, h)
        {
          SameReplayWhenOperandsAgree(na, ea, g, nb, eb, h);
        }
      }
    }
  }

  /**
    Hit soundness. Whatever facts the engine, asked for exact topology, accepts
    a request against, the graph they were made of can stand in for the
    requested one.
   */
  lemma HitSoundness(q: Request, f: Facts, d: Descriptor, p: Policy)
    requires p.exactTopology && Decided(FactsOfRequest(q), f, p).Compatible() && f.topology == CanonicalTopology(d.nodes, d.edges)
    requires TopologyFits(q.descriptor.nodes, q.descriptor.edges) && TopologyFits(d.nodes, d.edges)
    ensures ReplaysLike(q.descriptor, d)
  {
    hide Decided, CanonicalTopology, TopologyFits, ReplaysLike, TensorsOf;
    DecisionMeaning(FactsOfRequest(q), f, p);
    AcceptedTopology(FactsOfRequest(q), f, p);
    SameTopologyReplaysLike(q.descriptor, d);
  }

  lemma ValidHasUniqueIds(ns: seq<Node>, es: seq<Edge>)
    requires ValidTopology(ns, es)
    ensures UniqueNodeIds(ns)
  {
  }

  lemma AcceptedTopology(q: Facts, c: Facts, p: Policy)
    requires p.exactTopology && Accepts(q, c, p)
    ensures q.topology == c.topology
  {
  }

  /** With nodes listed in id order, an accepted request needs no rebinding and no dynamic shape: it is an exact match. */
  lemma AcceptedIsExact(q: Request, c: Request, p: Policy)
    requires p.exactTopology && Decided(FactsOfRequest(q), FactsOfRequest(c), p).Compatible()
    requires TopologyFits(q.descriptor.nodes, q.descriptor.edges) && TopologyFits(c.descriptor.nodes, c.descriptor.edges)
    requires Ordered(q.descriptor) && Ordered(c.descriptor)
    ensures Decided(FactsOfRequest(q), FactsOfRequest(c), p).klass == ExactCompatible
  {
    hide Decided, CanonicalTopology, TopologyFits, TensorsOf, Ordered;
    DecisionMeaning(FactsOfRequest(q), FactsOfRequest(c), p);
    AcceptedTopology(FactsOfRequest(q), FactsOfRequest(c), p);
    TopologyDeterminesTensors(q.descriptor, c.descriptor);
  }

  // ----- the condition on scalars cannot be dropped -----

  function ScaleNode(bits: u64): Node {
    DEFAULT_NODE.(id := Id(0, 1), kernel := NO_KERNEL.(name := SCALE_NAME), bytes := 4, scalar := Scalar(false, 0, bits))
  }

  function ScaleRequest(bits: u64): Request {
    Request(Workload([], 1, [], 0, [], []), Backend(1, [], 1, []), Runtime(1, 1, 1, 0, []), Device(1, [], 0, 0, 0, []),
            Descriptor(Id(0, 0), 0, Backend(1, [], 1, []), Runtime(1, 1, 1, 0, []), Device(1, [], 0, 0, 0, []),
                       Sync(0, 1, false, 0), [ScaleNode(bits)], [], [], Provenance(0, [], 0, [], [])))
  }

  const DEFAULT_POLICY := Policy(true, true, true, true, true, true, true, true, false, [])

  lemma SameFactsMatch(f: Facts)
    requires !f.scalar.specialized
    ensures Decided(f, f, DEFAULT_POLICY).klass == ExactCompatible
  {
    DecisionMeaning(f, f, DEFAULT_POLICY);
  }

  lemma ScaleFacts(a: u64, b: u64)
    ensures FactsOfRequest(ScaleRequest(a)) == FactsOfRequest(ScaleRequest(b))
    ensures !FactsOfRequest(ScaleRequest(a)).scalar.specialized
    ensures TopologyFits([ScaleNode(a)], [])
  {
    hide CanonicalTopology;
    ScaleTopology(a, b);
    assert [ScaleNode(a)][..0] == [] && [ScaleNode(b)][..0] == [];
    assert TensorsOf([ScaleNode(a)]) == Absorb(NO_TENSORS, ScaleNode(a)) == NO_TENSORS;
    assert TensorsOf([ScaleNode(b)]) == Absorb(NO_TENSORS, ScaleNode(b)) == NO_TENSORS;
  }

  lemma SingletonFits(a: u64)
    ensures TopologyFits([ScaleNode(a)], [])
  {
  }

  lemma ScaleTopology(a: u64, b: u64)
    ensures CanonicalTopology([ScaleNode(a)], []) == CanonicalTopology([ScaleNode(b)], [])
  {
    hide CanonicalTopology, TopologyFits;
    SingletonFits(a);
    SingletonFits(b);
    var x, y := [ScaleNode(a)], [ScaleNode(b)];
    assert x[1..] == [] && y[1..] == [];
    IdOrder.SortIdempotent(x, NodeKey);
    IdOrder.SortIdempotent(y, NodeKey);
    assert NormalNodes(x)[0] == NormalNodes(y)[0];
    CanonicalTopologyExact(x, [], y, []);
  }

  lemma ScaleValid(a: u64)
    ensures ValidTopology([ScaleNode(a)], [])
  {
    forall p
      ensures !IsCycle([], p)
    {
      if |p| >= 2 {
        assert !HasArc([], p[0], p[0 + 1]);
      }
    }
  }

  /** What a kernel that scales by the double with these bits computes from lane `x`. */
  function Scaled(fp: Arithmetic, bits: u64, x: u32): u32 {
    fp.mul(x, fp.fromDouble(bits))
  }

  lemma ScaleLanes(fp: Arithmetic, a: u64, b: u64)
    ensures LanesAgree(fp, [ScaleNode(a)], [ScaleNode(b)]) <==> forall x: u32 :: Scaled(fp, a, x) == Scaled(fp, b, x)
  {
    var x, y := ScaleNode(a), ScaleNode(b);
    assert ClassifyKernel(SCALE_NAME) == Scale;
    forall v: u32
      ensures LaneResult(fp, Scale, x.scalar, v) == Scaled(fp, a, v) && LaneResult(fp, Scale, y.scalar, v) == Scaled(fp, b, v)
    {
    }
    assert x in [x] && y in [y];
    if LanesAgree(fp, [x], [y]) {
      assert SameLanesAt(fp, x, y);
      forall v: u32
        ensures Scaled(fp, a, v) == Scaled(fp, b, v)
      {
        assert LaneResult(fp, Scale, x.scalar, v) == LaneResult(fp, Scale, y.scalar, v);
      }
    }
  }

  /**
    A request to scale by one value hits, as an exact match, a graph captured
    to scale by another: neither scalar is marked specialised, so neither is
    compared. On a given machine the two replay differently exactly when some
    lane has different products with the two values after conversion.
   */
  lemma UnmarkedScalarsSlipThrough(fp: Arithmetic, a: u64, b: u64) returns (g: CpuGraph, h: CpuGraph)
    ensures Decided(FactsOfRequest(ScaleRequest(a)), FactsOfRequest(ScaleRequest(b)), DEFAULT_POLICY).klass == ExactCompatible
    ensures Captures([ScaleNode(a)], [], g) && Captures([ScaleNode(b)], [], h)
    ensures !SameReplayOn(fp, g, h) <==> exists x: u32 :: Scaled(fp, a, x) != Scaled(fp, b, x)
  {
    hide CanonicalTopology, TopologyFits, Captures, ValidTopology, SameReplayOn, Decided, LanesAgree, Scaled, ScaleNode, FactsOfRequest;
    ScaleFacts(a, b);
    SameFactsMatch(FactsOfRequest(ScaleRequest(a)));
    ScaleValid(a);
    ScaleValid(b);
    g := CaptureExists([ScaleNode(a)], []);
    h := CaptureExists([ScaleNode(b)], []);
    ScaleTopology(a, b);
    SingletonFits(a);
    SingletonFits(b);
    ReplayAlikeExactly(fp, [ScaleNode(a)], [], g, [ScaleNode(b)], [], h);
    ScaleLanes(fp, a, b);
  }
}
