/**
  The coordinator of tools/coordinator_main.cpp: its state, what each message
  does to it, and the process that updates its maps in place. `scan` stands
  for the `sscanf` call that reads an artifact identity from text.
 */
module Coordinator {
  import opened Bytes
  import opened Canonical
  import opened Descriptors
  import opened Records
  import opened Protocol
  import opened HexIds
  import opened CoordinatorCore
  import opened Facts
  import opened TopologyCodec
  import FactsCodec
  import StoredCodec
  import Sha256

  // Status codes.
  const OK: u16 := 0
  const STALE_EPOCH: u16 := 1
  const STALE_WORKER_BOOT: u16 := 2
  const STALE_CACHE_GENERATION: u16 := 3
  const STALE_GRAPH_GENERATION: u16 := 4
  const DUPLICATE_COMPLETION: u16 := 7
  const INVALID_REQUEST: u16 := 10
  const WORKER_UNAVAILABLE: u16 := 11
  const CAPTURE_FAILED: u16 := 13
  const REPLAY_FAILED: u16 := 14
  const MALFORMED: u16 := 17

  datatype State = State(
    epoch: u64, cacheGen: u64, graphGen: u64, captures: u64,
    boots: map<u64, u64>, connected: set<u64>, sockets: map<u64, Socket>, workerConns: map<Socket, u64>,
    graphs: map<Text, Entry>, invalidated: set<Text>,
    pending: map<u64, Pending>, replays: map<u64, Socket>)

  const INITIAL := State(1, 1, 1, 0, map[], {}, map[], map[], map[], {}, map[], map[])

  datatype Sent = Sent(to: Socket, message: Message)

  datatype Reaction = Reaction(state: State, sent: seq<Sent>)

  const BLANK := Message(HELLO, PROTOCOL_VERSION, 0, 0, 0, 0, 0, 0, 0, 0, 0, OK, [])

  function Status(st: State, to: Socket, kind: byte, requestId: u64, status: u16): Sent {
    Sent(to, BLANK.(kind := kind, requestId := requestId, epoch := st.epoch, cacheGen := st.cacheGen, status := status))
  }

  function BootFor(boots: map<u64, u64>, worker: u64): u64 {
    if worker in boots then boots[worker] else 0
  }

  function SocketFor(sockets: map<u64, Socket>, worker: u64): Socket {
    if worker in sockets then sockets[worker] else 0
  }

  predicate AtMostAll(m: u64, s: set<u64>) {
    forall x | x in s :: m <= x
  }

  /** `*begin()` of an ordered set. */
  function Least(s: set<u64>): (m: u64)
    requires s != {}
    ensures m in s && AtMostAll(m, s)
  {
    HasLeast(s);
    var m :| m in s && AtMostAll(m, s);
    m
  }

  lemma {:induction false} HasLeast(s: set<u64>)
    requires s != {}
    ensures exists m :: m in s && AtMostAll(m, s)
  {
    var a :| a in s;
    var rest := s - {a};
    assert s == rest + {a};
    if rest == {} {
      assert AtMostAll(a, s);
    } else {
      HasLeast(rest);
      var m :| m in rest && AtMostAll(m, rest);
      assert AtMostAll(if a <= m then a else m, s);
    }
  }

  // ----- payloads -----

  datatype Wanted = BadRequest | BadDescriptor | Wanted(descriptor: Descriptor, workload: Workload)

  function TakeWorkload(fs: seq<Field>): Parsed<Workload> {
    var (name, fs) :- Take(2, fs);
    var (version, fs) :- TakeU32(3, fs);
    var (namespace, fs) :- Take(4, fs);
    var (model, fs) :- Take(5, fs);
    Got(Workload(name, version, namespace, 0, model, []), fs)
  }

  function ParseLookup(payload: seq<byte>): Wanted {
    match Take(1, Tokenize(payload).fields)
    case Fail => BadRequest
    case Got(data, fs) =>
      match StoredCodec.DeserializeDescriptor(data)
      case None => BadDescriptor
      case Some(d) =>
        match TakeWorkload(fs)
        case Fail => BadRequest
        case Got(wl, _) => Wanted(d, wl)
  }

  /** The facts the coordinator keys a graph by; what it does not set keeps its initial value. */
  function LookupFacts(d: Descriptor, wl: Workload): Facts {
    var t := TensorsOf(d.nodes);
    Facts(wl, d.backend, d.runtime, d.device, 0, 1, CanonicalTopology(d.nodes, d.edges), [], [],
          t.dtypes, t.layouts, t.scalar, NO_QUANT, DEFAULT_BINDING, 128, [],
          d.dependencies, wl.modelRevision, wl.policyGeneration)
  }

  function KeyHex(f: Facts): (k: Text)
    ensures |k| == 64
  {
    HexBytes(Sha256.Digest(FactsCodec.EncodeFacts(f)))
  }

  function CapturePayload(d: Descriptor, wl: Workload): seq<byte> {
    Flatten([Field(1, StoredCodec.SerializeDescriptor(d)), Field(2, wl.name), Field(3, Be32(wl.version)),
             Field(4, wl.namespace), Field(5, wl.modelRevision)])
  }

  /** The artifact text that a capture result or a replay request starts with. */
  function ArtifactText(payload: seq<byte>): Option<Text> {
    match Take(1, Tokenize(payload).fields)
    case Fail => None
    case Got(text, _) => Some(text)
  }

  function NamePayload(text: Text): seq<byte> {
    Flatten([Field(1, text)])
  }

  // ----- authority -----

  predicate StaleEpoch(st: State, m: Message) {
    m.epoch != 0 && m.epoch != st.epoch
  }

  predicate StaleBoot(st: State, m: Message) {
    m.workerId != 0 && BootFor(st.boots, m.workerId) != 0 && m.workerBoot != 0 && m.workerBoot != BootFor(st.boots, m.workerId)
  }

  /** The checks every message except registration and greeting must pass: the reply that refuses it, if any. */
  function Refusal(st: State, s: Socket, m: Message): Option<Sent> {
    if StaleEpoch(st, m) then
      Some(Status(st, s, if m.kind == REPLAY_INSTRUCT then REPLAY_RESULT else LOOKUP_RESULT, m.requestId, STALE_EPOCH))
    else if m.cacheGen != 0 && m.cacheGen != st.cacheGen then
      Some(Status(st, s, LOOKUP_RESULT, m.requestId, STALE_CACHE_GENERATION))
    else if StaleBoot(st, m) then
      Some(Status(st, s, LOOKUP_RESULT, m.requestId, STALE_WORKER_BOOT))
    else None
  }

  // ----- what each message does -----

  function OnRegister(st: State, s: Socket, m: Message): Reaction {
    var boot := BootFor(st.boots, m.workerId);
    if StaleEpoch(st, m) then Reaction(st, [Status(st, s, REGISTER_ACK, m.requestId, STALE_EPOCH)])
    else if m.workerId in st.connected && boot != 0 && boot != m.workerBoot then
      Reaction(st, [Status(st, s, REGISTER_ACK, m.requestId, STALE_WORKER_BOOT)])
    else
      Reaction(
        st.(workerConns := st.workerConns[s := m.workerId], boots := st.boots[m.workerId := m.workerBoot],
            connected := st.connected + {m.workerId}, sockets := st.sockets[m.workerId := s]),
        [Status(st, s, REGISTER_ACK, m.requestId, OK)])
  }

  function OnHello(st: State, s: Socket, m: Message): Reaction {
    Reaction(st, [Status(st, s, WELCOME, m.requestId, if StaleEpoch(st, m) then STALE_EPOCH else OK)])
  }

  function HitReply(st: State, s: Socket, requestId: u64, e: Entry): Sent {
    Sent(s, BLANK.(kind := LOOKUP_RESULT, requestId := requestId, epoch := st.epoch, cacheGen := st.cacheGen,
                   graphGen := e.generation, payload := NamePayload(IdToString(e.artifact))))
  }

  /** A miss: the least connected worker is told to capture. */
  function Dispatch(st: State, s: Socket, m: Message, d: Descriptor, wl: Workload, key: Text): Reaction
    requires st.connected != {}
  {
    var worker := Least(st.connected);
    var attempt := Bump(st.captures);
    Reaction(
      st.(captures := attempt, pending := st.pending[attempt := Pending(s, worker, m.requestId, key)]),
      [Sent(SocketFor(st.sockets, worker),
            BLANK.(kind := CAPTURE_INSTRUCT, epoch := st.epoch, cacheGen := st.cacheGen, workerId := worker,
                   workerBoot := BootFor(st.boots, worker), captureAttempt := attempt, payload := CapturePayload(d, wl)))])
  }

  function OnLookup(st: State, s: Socket, m: Message): Reaction {
    match ParseLookup(m.payload)
    case BadRequest => Reaction(st, [Status(st, s, LOOKUP_RESULT, m.requestId, INVALID_REQUEST)])
    case BadDescriptor => Reaction(st, [Status(st, s, LOOKUP_RESULT, m.requestId, MALFORMED)])
    case Wanted(d, wl) =>
      var key := KeyHex(LookupFacts(d, wl));
      if key in st.graphs && key !in st.invalidated then Reaction(st, [HitReply(st, s, m.requestId, st.graphs[key])])
      else if st.connected == {} then Reaction(st, [Status(st, s, LOOKUP_RESULT, m.requestId, WORKER_UNAVAILABLE)])
      else Dispatch(st, s, m, d, wl, key)
  }

  /** A completed capture is published under its artifact and under the key it was dispatched for. */
  function Publish(scan: Text -> Id, st: State, pc: Pending, text: Text): Reaction {
    var entry := Entry(scan(text), st.graphGen, pc.worker, st.cacheGen);
    var byArtifact := st.graphs[ArtifactKey(text) := entry];
    Reaction(
      st.(graphs := if pc.key != [] then byArtifact[pc.key := entry] else byArtifact, invalidated := st.invalidated - Keys(text, pc.key)),
      [Sent(pc.client, BLANK.(kind := LOOKUP_RESULT, requestId := pc.requestId, epoch := st.epoch, cacheGen := st.cacheGen,
                              graphGen := st.graphGen, payload := NamePayload(text)))])
  }

  function OnCaptureResult(scan: Text -> Id, st: State, s: Socket, m: Message): Reaction {
    if m.captureAttempt !in st.pending then
      Reaction(st, [Status(st, s, LOOKUP_RESULT, m.requestId, DUPLICATE_COMPLETION)])
    else
      var pc := st.pending[m.captureAttempt];
      var st := st.(pending := st.pending - {m.captureAttempt});
      if m.status != OK then Reaction(st, [Status(st, pc.client, LOOKUP_RESULT, pc.requestId, CAPTURE_FAILED)])
      else
        var st := st.(graphGen := Bump(st.graphGen));
        match ArtifactText(m.payload)
        case None => Reaction(st, [Status(st, pc.client, LOOKUP_RESULT, pc.requestId, CAPTURE_FAILED)])
        case Some(text) => Publish(scan, st, pc, text)
  }

  function OnReplayInstruct(st: State, s: Socket, m: Message): Reaction {
    match ArtifactText(m.payload)
    case None => Reaction(st, [Status(st, s, REPLAY_RESULT, m.requestId, INVALID_REQUEST)])
    case Some(text) =>
      var key := ArtifactKey(text);
      if key !in st.graphs || key in st.invalidated then Reaction(st, [Status(st, s, REPLAY_RESULT, m.requestId, STALE_GRAPH_GENERATION)])
      else
        var e := st.graphs[key];
        if m.graphGen != 0 && m.graphGen != e.generation then Reaction(st, [Status(st, s, REPLAY_RESULT, m.requestId, STALE_GRAPH_GENERATION)])
        else if e.worker !in st.sockets then Reaction(st, [Status(st, s, REPLAY_RESULT, m.requestId, WORKER_UNAVAILABLE)])
        else
          Reaction(
            st.(replays := st.replays[m.requestId := s]),
            [Sent(st.sockets[e.worker],
                  BLANK.(kind := REPLAY_INSTRUCT, requestId := m.requestId, epoch := st.epoch, cacheGen := st.cacheGen,
                         workerId := e.worker, workerBoot := BootFor(st.boots, e.worker), graphGen := e.generation,
                         replayAttempt := m.replayAttempt, payload := m.payload))])
  }

  function OnReplayResult(st: State, s: Socket, m: Message): Reaction {
    var target := if m.requestId in st.replays then st.replays[m.requestId] else s;
    Reaction(
      st.(replays := st.replays - {m.requestId}),
      [Sent(target, BLANK.(kind := REPLAY_RESULT, requestId := m.requestId, epoch := st.epoch, cacheGen := st.cacheGen,
                           status := m.status, payload := m.payload))])
  }

  /** Every graph is invalidated under a new cache generation, and flag bit 0 also starts a new epoch. */
  function OnInvalidate(st: State, s: Socket, m: Message): Reaction {
    var st := st.(cacheGen := Bump(st.cacheGen), epoch := if m.flags % 2 == 1 then Bump(st.epoch) else st.epoch,
                  invalidated := st.invalidated + st.graphs.Keys);
    Reaction(st, [Status(st, s, INVALIDATE_ACK, m.requestId, OK)])
  }

  function OnAuthorized(scan: Text -> Id, st: State, s: Socket, m: Message): Reaction {
    if m.kind == LOOKUP then OnLookup(st, s, m)
    else if m.kind == CAPTURE_RESULT then OnCaptureResult(scan, st, s, m)
    else if m.kind == REPLAY_INSTRUCT then OnReplayInstruct(st, s, m)
    else if m.kind == REPLAY_RESULT then OnReplayResult(st, s, m)
    else if m.kind == INVALIDATE then OnInvalidate(st, s, m)
    else Reaction(st, [])
  }

  function OnMessage(scan: Text -> Id, st: State, s: Socket, m: Message): Reaction {
    if m.kind == REGISTER then OnRegister(st, s, m)
    else if m.kind == HELLO then OnHello(st, s, m)
    else
      match Refusal(st, s, m)
      case Some(reply) => Reaction(st, [reply])
      case None => OnAuthorized(scan, st, s, m)
  }

  datatype Input = Accept(socket: Socket) | Receive(socket: Socket, message: Message) | Garbage(socket: Socket) | Close(socket: Socket)

  function React(scan: Text -> Id, st: State, i: Input): Reaction {
    match i
    case Accept(s) => Reaction(st.(workerConns := st.workerConns - {s}), [])
    case Receive(s, m) => OnMessage(scan, st, s, m)
    case Garbage(s) => Reaction(st, [Status(st, s, LOOKUP_RESULT, 0, MALFORMED)])
    case Close(s) =>
      Reaction(
        st.(connected := if s in st.workerConns then st.connected - {st.workerConns[s]} else st.connected,
            workerConns := st.workerConns - {s}), [])
  }

  // ----- the process -----

  class Process {
    var epoch: u64
    var cacheGen: u64
    var graphGen: u64
    var captures: u64
    var boots: map<u64, u64>
    var connected: set<u64>
    var sockets: map<u64, Socket>
    var workerConns: map<Socket, u64>
    var graphs: map<Text, Entry>
    var invalidated: set<Text>
    var pending: map<u64, Pending>
    var replays: map<u64, Socket>
    const scan: Text -> Id

    function Abs(): State
      reads this
    {
      State(epoch, cacheGen, graphGen, captures, boots, connected, sockets, workerConns, graphs, invalidated, pending, replays)
    }

    constructor (scan: Text -> Id)
      ensures Abs() == INITIAL && this.scan == scan
    {
      epoch, cacheGen, graphGen, captures := 1, 1, 1, 0;
      boots, connected, sockets, workerConns := map[], {}, map[], map[];
      graphs, invalidated, pending, replays := map[], {}, map[], map[];
      this.scan := scan;
    }

    method HandleRegister(s: Socket, m: Message) returns (sent: seq<Sent>)
      modifies this
      ensures Reaction(Abs(), sent) == OnRegister(old(Abs()), s, m)
    {
      if StaleEpoch(Abs(), m) {
        return [Status(Abs(), s, REGISTER_ACK, m.requestId, STALE_EPOCH)];
      }
      var boot := BootFor(boots, m.workerId);
      if m.workerId in connected && boot != 0 && boot != m.workerBoot {
        return [Status(Abs(), s, REGISTER_ACK, m.requestId, STALE_WORKER_BOOT)];
      }
      workerConns := workerConns[s := m.workerId];
      boots := boots[m.workerId := m.workerBoot];
      connected := connected + {m.workerId};
      sockets := sockets[m.workerId := s];
      return [Status(Abs(), s, REGISTER_ACK, m.requestId, OK)];
    }

    method HandleLookup(s: Socket, m: Message) returns (sent: seq<Sent>)
      modifies this
      ensures Reaction(Abs(), sent) == OnLookup(old(Abs()), s, m)
    {
      hide ParseLookup, KeyHex, LookupFacts, CapturePayload;
      match ParseLookup(m.payload) {
        case BadRequest => return [Status(Abs(), s, LOOKUP_RESULT, m.requestId, INVALID_REQUEST)];
        case BadDescriptor => return [Status(Abs(), s, LOOKUP_RESULT, m.requestId, MALFORMED)];
        case Wanted(d, wl) =>
          var key := KeyHex(LookupFacts(d, wl));
          if key in graphs && key !in invalidated {
            return [HitReply(Abs(), s, m.requestId, graphs[key])];
          }
          if connected == {} {
            return [Status(Abs(), s, LOOKUP_RESULT, m.requestId, WORKER_UNAVAILABLE)];
          }
          var worker := Least(connected);
          captures := Bump(captures);
          var instruct := BLANK.(kind := CAPTURE_INSTRUCT, epoch := epoch, cacheGen := cacheGen, workerId := worker,
                                 workerBoot := BootFor(boots, worker), captureAttempt := captures, payload := CapturePayload(d, wl));
          pending := pending[captures := Pending(s, worker, m.requestId, key)];
          return [Sent(SocketFor(sockets, worker), instruct)];
      }
    }

    method HandleCaptureResult(s: Socket, m: Message) returns (sent: seq<Sent>)
      modifies this
      ensures Reaction(Abs(), sent) == OnCaptureResult(scan, old(Abs()), s, m)
    {
      hide ArtifactText;
      var attempt := m.captureAttempt;
      if attempt !in pending {
        return [Status(Abs(), s, LOOKUP_RESULT, m.requestId, DUPLICATE_COMPLETION)];
      }
      var pc := pending[attempt];
      pending := pending - {attempt};
      if m.status != OK {
        return [Status(Abs(), pc.client, LOOKUP_RESULT, pc.requestId, CAPTURE_FAILED)];
      }
      graphGen := Bump(graphGen);
      var text := ArtifactText(m.payload);
      if text == None {
        return [Status(Abs(), pc.client, LOOKUP_RESULT, pc.requestId, CAPTURE_FAILED)];
      }
      var key, artifact := ArtifactKey(text.value), scan(text.value);
      graphs := graphs[key := Entry(artifact, graphGen, pc.worker, cacheGen)];
      if pc.key != [] {
        graphs := graphs[pc.key := Entry(artifact, graphGen, pc.worker, cacheGen)];
        invalidated := invalidated - {pc.key};
      }
      invalidated := invalidated - {key};
      return [Sent(pc.client, BLANK.(kind := LOOKUP_RESULT, requestId := pc.requestId, epoch := epoch, cacheGen := cacheGen,
                                     graphGen := graphGen, payload := NamePayload(text.value)))];
    }

    method HandleReplayInstruct(s: Socket, m: Message) returns (sent: seq<Sent>)
      modifies this
      ensures Reaction(Abs(), sent) == OnReplayInstruct(old(Abs()), s, m)
    {
      hide ArtifactText;
      var text := ArtifactText(m.payload);
      if text == None {
        return [Status(Abs(), s, REPLAY_RESULT, m.requestId, INVALID_REQUEST)];
      }
      var key := ArtifactKey(text.value);
      if key !in graphs || key in invalidated {
        return [Status(Abs(), s, REPLAY_RESULT, m.requestId, STALE_GRAPH_GENERATION)];
      }
      if m.graphGen != 0 && m.graphGen != graphs[key].generation {
        return [Status(Abs(), s, REPLAY_RESULT, m.requestId, STALE_GRAPH_GENERATION)];
      }
      var worker := graphs[key].worker;
      if worker !in sockets {
        return [Status(Abs(), s, REPLAY_RESULT, m.requestId, WORKER_UNAVAILABLE)];
      }
      replays := replays[m.requestId := s];
      return [Sent(sockets[worker],
                   BLANK.(kind := REPLAY_INSTRUCT, requestId := m.requestId, epoch := epoch, cacheGen := cacheGen,
                          workerId := worker, workerBoot := BootFor(boots, worker), graphGen := graphs[key].generation,
                          replayAttempt := m.replayAttempt, payload := m.payload))];
    }

    method HandleReplayResult(s: Socket, m: Message) returns (sent: seq<Sent>)
      modifies this
      ensures Reaction(Abs(), sent) == OnReplayResult(old(Abs()), s, m)
    {
      var target := s;
      if m.requestId in replays {
        target := replays[m.requestId];
        replays := replays - {m.requestId};
      } else {
        assert replays - {m.requestId} == replays;
      }
      return [Sent(target, BLANK.(kind := REPLAY_RESULT, requestId := m.requestId, epoch := epoch, cacheGen := cacheGen,
                                  status := m.status, payload := m.payload))];
    }

    method HandleInvalidate(s: Socket, m: Message) returns (sent: seq<Sent>)
      modifies this
      ensures Reaction(Abs(), sent) == OnInvalidate(old(Abs()), s, m)
    {
      cacheGen := Bump(cacheGen);
      if m.flags % 2 == 1 {
        epoch := Bump(epoch);
      }
      var keys := graphs.Keys;
      while keys != {}
        invariant Abs() == old(Abs()).(cacheGen := cacheGen, epoch := epoch, invalidated := invalidated)
        invariant cacheGen == Bump(old(cacheGen)) && epoch == if m.flags % 2 == 1 then Bump(old(epoch)) else old(epoch)
        invariant invalidated + keys == old(invalidated) + graphs.Keys
        decreases keys
      {
        var k :| k in keys;
        invalidated := invalidated + {k};
        keys := keys - {k};
      }
      return [Status(Abs(), s, INVALIDATE_ACK, m.requestId, OK)];
    }

    method Handle(s: Socket, m: Message) returns (sent: seq<Sent>)
      modifies this
      ensures Reaction(Abs(), sent) == OnMessage(scan, old(Abs()), s, m)
    {
      hide OnRegister, OnLookup, OnCaptureResult, OnReplayInstruct, OnReplayResult, OnInvalidate, Refusal;
      if m.kind == REGISTER {
        sent := HandleRegister(s, m);
        return;
      }
      if m.kind == HELLO {
        return [Status(Abs(), s, WELCOME, m.requestId, if StaleEpoch(Abs(), m) then STALE_EPOCH else OK)];
      }
      var refusal := Refusal(Abs(), s, m);
      if refusal.Some? {
        return [refusal.value];
      }
      if m.kind == LOOKUP {
        sent := HandleLookup(s, m);
      } else if m.kind == CAPTURE_RESULT {
        sent := HandleCaptureResult(s, m);
      } else if m.kind == REPLAY_INSTRUCT {
        sent := HandleReplayInstruct(s, m);
      } else if m.kind == REPLAY_RESULT {
        sent := HandleReplayResult(s, m);
      } else if m.kind == INVALIDATE {
        sent := HandleInvalidate(s, m);
      } else {
        sent := [];
      }
    }

    method HandleClose(s: Socket)
      modifies this
      ensures Reaction(Abs(), []) == React(scan, old(Abs()), Close(s))
    {
      if s in workerConns {
        connected := connected - {workerConns[s]};
      }
      workerConns := workerConns - {s};
    }
  }
}
