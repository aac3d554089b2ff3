/** The hypercube routing task: one `Hypercube` object per rank, the message
    record they pass, the expected-path computation, and a sequential run of
    the protocol in which the single live token visits ranks one at a time. */
module HypercubeTopology {
  import opened Bits
  import opened TaskData
  import opened HypercubeRoute

  /** The upper bound on the rank count under which the `uint16_t` hop values
      of the source never truncate. */
  const MaxWorld: nat := 0x1_0000

  /** The record carried from rank to rank: the visited ranks, the payload and
      the destination rank. A first path entry of -1 marks a termination copy. */
  datatype Message = Message(path: seq<int>, data: seq<Byte>, destination: nat)

  /** What a rank's step of `run` ends with: sending the message on, or
      returning from `run` with the given result and sending nothing. */
  datatype Action = Send(to: nat, msg: Message) | Finish(ok: bool)

  /** Element-wise copy of src into the first |src| slots of buf, as
      `std::copy` does into an output buffer. */
  method CopyInto<T>(src: seq<T>, buf: seq<T>) returns (out: seq<T>)
    requires |src| <= |buf|
    ensures |out| == |buf|
    ensures out[..|src|] == src
    ensures out[|src|..] == buf[|src|..]
  {
    out := buf;
    for i := 0 to |src|
      invariant |out| == |buf|
      invariant out[..i] == src[..i]
      invariant out[i..] == buf[i..]
    {
      out := out[i := src[i]];
    }
  }

  class Hypercube {
    const rank: nat
    const worldSize: nat
    var data: Message

    ghost predicate Valid()
    {
      rank < worldSize <= MaxWorld
    }

    constructor (rank: nat, worldSize: nat)
      requires rank < worldSize <= MaxWorld
      ensures Valid() && this.rank == rank && this.worldSize == worldSize
      ensures data == Message([], [], 0)
    {
      this.rank := rank;
      this.worldSize := worldSize;
      data := Message([], [], 0);
    }

    /** On rank 0 the task needs exactly two inputs, a non-empty output list
        and exactly two output counts; every other rank passes. */
    function Validation(td: TaskShape): (ok: bool)
      ensures ok <==> rank != 0 || (td.inputs == 2 && td.outputs > 0 && |td.outputsCount| == 2)
    {
      if rank == 0 then
        !(td.inputs == 0 || td.inputs != 2) && !(td.outputs == 0 || |td.outputsCount| != 2)
      else
        true
    }

    /** Rank 0 loads the first `payloadCount` bytes of the payload buffer and
        the destination, and clears the path; other ranks do nothing. */
    method PreProcessing(payload: seq<Byte>, payloadCount: nat, dest: nat)
      requires payloadCount <= |payload|
      modifies this
      ensures rank == 0 ==> data == Message([], payload[..payloadCount], dest)
      ensures rank != 0 ==> data == old(data)
    {
      if rank == 0 {
        data := Message([], payload[..payloadCount], dest);
      }
    }

    /** `getNextId`: the first dimension i with 2^i < worldSize whose flip
        brings this rank closer to the destination, flipped; -1 if none. */
    method NextId() returns (next: int)
      requires Valid()
      ensures next == NextHop(rank, data.destination, worldSize)
    {
      var dest := data.destination;
      var i: nat := 0;
      while Pow2(i) < worldSize
        invariant NextHopFrom(rank, dest, worldSize, i) == NextHop(rank, dest, worldSize)
        decreases worldSize - i
      {
        FlipCandidate(rank, dest, i);
        var candidate := Xor(rank, Pow2(i)) % 0x1_0000;  // uint16_t
        if Xor(candidate, dest) < Xor(rank, dest) {
          return candidate;
        }
        i := i + 1;
      }
      return -1;
    }

    /** Rank 0's part of `run` up to the first send: append itself to the
        path and pick the first hop; without one, `run` fails. */
    method SourceInject() returns (ok: bool, next: int)
      requires Valid() && rank == 0
      modifies this
      ensures data == old(data).(path := old(data.path) + [0])
      ensures next == NextHop(0, data.destination, worldSize)
      ensures ok <==> next != -1
    {
      data := data.(path := data.path + [0]);
      next := NextId();
      ok := next != -1;
    }

    /** Rank 0's part of `run` after the reflected message arrives: mark the
        path with -1, send that copy to every rank in [1, worldSize) absent
        from it, in increasing order, and restore the first entry to 0. */
    method SourceComplete(reply: Message) returns (notified: seq<nat>, notice: Message)
      requires Valid() && rank == 0 && |reply.path| >= 1
      modifies this
      ensures notice == reply.(path := reply.path[0 := -1])
      ensures forall r :: r in notified <==> 1 <= r < worldSize && r !in notice.path
      ensures forall a, b :: 0 <= a < b < |notified| ==> notified[a] < notified[b]
      ensures data == reply.(path := reply.path[0 := 0])
    {
      data := reply;
      data := data.(path := data.path[0 := -1]);
      notified := [];
      var i := 1;
      while i < worldSize
        invariant 1 <= i <= worldSize
        invariant forall r :: r in notified <==> 1 <= r < i && r !in data.path
        invariant forall a, b :: 0 <= a < b < |notified| ==> notified[a] < notified[b]
        invariant forall a :: 0 <= a < |notified| ==> notified[a] < i
      {
        if i !in data.path {
          notified := notified + [i];
        }
        i := i + 1;
      }
      notice := data;
      data := data.(path := data.path[0 := 0]);
    }

    /** A non-source rank's `run` on receiving m: a termination copy ends it
        at once; otherwise it appends its own rank and forwards the message
        to the next hop, or back to rank 0 when it is the destination. */
    method Receive(m: Message) returns (action: Action)
      requires Valid() && rank != 0 && |m.path| >= 1
      modifies this
      ensures m.path[0] == -1 ==> action == Finish(true) && data == m
      ensures m.path[0] != -1 ==> data == m.(path := m.path + [rank])
      ensures m.path[0] != -1 && rank == m.destination ==> action == Send(0, data)
      ensures m.path[0] != -1 && rank != m.destination ==>
                action == if NextHop(rank, m.destination, worldSize) == -1 then Finish(false)
                          else Send(NextHop(rank, m.destination, worldSize), data)
    {
      data := m;
      if data.path[0] == -1 {
        return Finish(true);
      }
      data := data.(path := data.path + [rank]);
      if rank != data.destination {
        var next := NextId();
        if next == -1 {
          return Finish(false);
        }
        action := Send(next, data);
      } else {
        action := Send(0, data);
      }
    }

    /** Rank 0 copies the payload and the path into the first slots of the
        two output buffers; other ranks write nothing. */
    method PostProcessing(dataBuf: seq<Byte>, pathBuf: seq<int>) returns (dataOut: seq<Byte>, pathOut: seq<int>)
      requires rank == 0 ==> |data.data| <= |dataBuf| && |data.path| <= |pathBuf|
      ensures rank != 0 ==> dataOut == dataBuf && pathOut == pathBuf
      ensures rank == 0 ==> dataOut == data.data + dataBuf[|data.data|..]
      ensures rank == 0 ==> pathOut == data.path + pathBuf[|data.path|..]
    {
      dataOut, pathOut := dataBuf, pathBuf;
      if rank == 0 {
        dataOut := CopyInto(data.data, dataBuf);
        pathOut := CopyInto(data.path, pathBuf);
        assert dataOut == dataOut[..|data.data|] + dataOut[|data.data|..];
        assert pathOut == pathOut[..|data.path|] + pathOut[|data.path|..];
      }
    }

    /** `calculate_path`: the expected route from rank 0 to dest, found by
        trying to flip bits from the lowest up while `i <= log2(dest)`. */
    static method CalculatePath(dest: int) returns (path: seq<int>)
      requires dest < MaxWorld
      ensures path == Route(dest)
    {
      path := [0];
      var current: nat := 0;
      var i: nat := 0;
      while dest > 0 && Pow2(i) <= dest
        invariant dest <= 0 ==> path == [0]
        invariant dest > 0 ==> i <= BitLength(dest) && current == Low(dest, i) && path == Prefixes(dest, i)
        decreases if dest > 0 then BitLength(dest) - i else 0
      {
        Pow2BelowIff(dest, i);
        var next := Xor(current, Pow2(i)) % 0x1_0000;  // uint16_t
        CalculatePathStep(dest, i);
        if Xor(next, dest) < Xor(current, dest) {
          path := path + [next];
          current := next;
        }
        i := i + 1;
      }
      if dest > 0 {
        Pow2BelowIff(dest, i);
      }
    }
  }

  /** One iteration of `get_next_id` at dimension i below the rank count:
      the flipped address survives the `uint16_t` cast, and it is closer to d
      exactly when r and d differ at bit i. */
  lemma FlipCandidate(r: nat, d: nat, i: nat)
    requires r < MaxWorld && Pow2(i) < MaxWorld
    ensures Xor(r, Pow2(i)) % 0x1_0000 == Xor(r, Pow2(i))
    ensures Xor(Xor(r, Pow2(i)), d) < Xor(r, d) <==> Bit(r, i) != Bit(d, i)
  {
    Pow2Sixteen();
    XorBound(r, Pow2(i), 16);
    FlipCloserIff(r, d, i);
  }

  /** One iteration of `calculate_path` below the bit length of dest: the
      flipped candidate is closer exactly when bit i of dest is set, and then
      it is the next longer prefix of dest. */
  lemma CalculatePathStep(dest: nat, i: nat)
    requires 0 < dest < MaxWorld && i < BitLength(dest)
    ensures var next := Xor(Low(dest, i), Pow2(i)) % 0x1_0000;
            && (Xor(next, dest) < Xor(Low(dest, i), dest) <==> Bit(dest, i) == 1)
            && (Bit(dest, i) == 1 ==> next == Low(dest, i + 1))
            && (Bit(dest, i) == 0 ==> Low(dest, i) == Low(dest, i + 1))
  {
    var current := Low(dest, i);
    Pow2BelowIff(dest, i);
    Pow2Sixteen();
    LowBound(dest, i);
    XorBound(current, Pow2(i), 16);
    assert Xor(current, Pow2(i)) % 0x1_0000 == Xor(current, Pow2(i));
    FlipCloserIff(current, dest, i);
    BitOfLow(dest, i, i);
    XorPow2(current, i);
    LowStep(dest, i);
  }

  /** The forwarding phase: the token leaves rank 0 for the first hop and
      each rank on the route appends itself and passes it on until the
      destination reflects it to rank 0. No rank on the way fails. */
  method Relay(start: Message, first: nat, n: nat, ghost k0: nat) returns (reply: Message)
    requires n <= MaxWorld && 0 < start.destination < n && start.path == [0]
    requires 0 < k0 <= BitLength(start.destination) && 0 < first == Low(start.destination, k0)
    requires Prefixes(start.destination, k0) == [0, first]
    ensures reply == start.(path := Route(start.destination))
  {
    var dest := start.destination;
    var msg := start;
    var holder: nat := first;
    ghost var k := k0;
    while holder != 0
      invariant msg.data == start.data && msg.destination == dest
      invariant |msg.path| >= 1 && msg.path[0] == 0
      invariant k <= BitLength(dest)
      invariant holder != 0 ==> 0 < k && holder == Low(dest, k) && msg.path + [holder] == Prefixes(dest, k)
      invariant holder == 0 ==> msg.path == Route(dest)
      decreases BitLength(dest) - k + (if holder == 0 then 0 else 1)
    {
      LowBound(dest, k);
      var node := new Hypercube(holder, n);
      var action := node.Receive(msg);
      ghost var k' := k;
      if holder == dest {
        PrefixesStable(dest, k, BitLength(dest));
      } else {
        NextHopAlongRoute(dest, n, k);
        k' :| k < k' <= BitLength(dest) && NextHop(Low(dest, k), dest, n) == Low(dest, k')
              && Low(dest, k') > 0 && Prefixes(dest, k') == Prefixes(dest, k) + [Low(dest, k')];
      }
      match action
      case Finish(_) =>
        assert false;
      case Send(to, m) =>
        holder, msg, k := to, m, k';
    }
    reply := msg;
  }

  /** The termination phase: every notified rank receives the -1-marked copy
      and its `run` returns true at once. */
  method Notify(notice: Message, notified: seq<nat>, n: nat) returns (results: seq<bool>)
    requires n <= MaxWorld && |notice.path| >= 1 && notice.path[0] == -1
    requires forall r :: r in notified ==> 1 <= r < n
    ensures |results| == |notified| && forall j :: 0 <= j < |results| ==> results[j]
  {
    results := [];
    for j := 0 to |notified|
      invariant |results| == j && forall i :: 0 <= i < j ==> results[i]
    {
      assert notified[j] in notified;
      var bystander := new Hypercube(notified[j], n);
      var action := bystander.Receive(notice);
      results := results + [action.Finish? && action.ok];
    }
  }

  /** Route membership seen through the termination copy: among ranks 1 and
      up, being on the marked path is being on the route. */
  lemma NoticeMembership(dest: nat, notice: seq<int>)
    requires 1 <= |notice| == |Route(dest)| && notice[0] == -1
    requires forall j :: 1 <= j < |notice| ==> notice[j] == Route(dest)[j]
    ensures forall r :: 1 <= r ==> (r in notice <==> r in Route(dest))
  {
    RouteEnds(dest);
  }

  /** Rank 0's first hop toward a nonzero destination is the second entry of
      the route: the value of the k lowest bits of dest for the first set
      bit k - 1. */
  lemma FirstHop(dest: nat, n: nat) returns (k: nat)
    requires 0 < dest < n
    ensures 0 < k <= BitLength(dest) && NextHop(0, dest, n) == Low(dest, k) > 0
    ensures Prefixes(dest, k) == [0, Low(dest, k)]
  {
    NextHopAlongRoute(dest, n, 0);
    k :| 0 < k <= BitLength(dest) && NextHop(Low(dest, 0), dest, n) == Low(dest, k) && Low(dest, k) > 0
         && Prefixes(dest, k) == Prefixes(dest, 0) + [Low(dest, k)];
  }

  /** One routing operation run to completion with the ranks taking their
      turns in message order: rank 0 injects the message, each rank on the
      route appends itself and forwards it until the destination reflects it
      to rank 0, which then notifies every rank off the path; each notified
      rank's `run` returns at once. `ok` is rank 0's result of `run`; the
      path fits the `floor(log2(n)) + 1`-slot buffer the tests hand in. */
  method Simulate(payload: seq<Byte>, dest: nat, n: nat)
    returns (ok: bool, path: seq<int>, data: seq<Byte>, notified: seq<nat>, bystanderResults: seq<bool>)
    requires 1 <= n <= MaxWorld && dest < n
    ensures dest == 0 ==> !ok && path == [0] && notified == []
    ensures dest > 0 ==> ok && path == Route(dest)
    ensures |path| <= BitLength(n)
    ensures data == payload
    ensures forall r :: r in notified <==> dest > 0 && 1 <= r < n && r !in path
    ensures |bystanderResults| == |notified| && forall j :: 0 <= j < |bystanderResults| ==> bystanderResults[j]
  {
    var source := new Hypercube(0, n);
    source.PreProcessing(payload, |payload|, dest);
    var started, first := source.SourceInject();
    NextHopSpec(0, dest, n);
    RouteFits(dest, n);
    if !started {
      return false, source.data.path, source.data.data, [], [];
    }
    ghost var k := FirstHop(dest, n);
    var reply := Relay(source.data, first, n, k);
    RouteEnds(dest);
    var notice;
    notified, notice := source.SourceComplete(reply);
    assert reply.path[0 := 0] == reply.path;
    NoticeMembership(dest, notice.path);
    assert source.data.path == Route(dest);
    bystanderResults := Notify(notice, notified, n);
    ok, path, data := true, source.data.path, source.data.data;
  }
}
