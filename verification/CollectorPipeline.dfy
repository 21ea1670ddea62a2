/** The collector in fast mode: capture loop, default database sender and workers, in any interleaving. */
module CollectorPipeline {
  import opened Bytes
  import opened CollectorFrames
  import opened CollectorWorker

  const CHANNEL_SIZE: nat := 1000
  const TWO_31: int := 0x8000_0000

  // Packets wait in a channel for each worker; the log holds all packets ever put there.
  datatype State = State(channels: seq<seq<Packet>>, workers: seq<View>, log: seq<Packet>)

  datatype Config = Config(threads: nat, linkType: int)

  datatype Step =
    | Capture(data: bytes, outcome: Outcome)
    | SendDefault(srcIp: bytes, port: int, body: bytes)
    | Receive(worker: nat, succeeds: bool)
    | Tick(worker: nat, succeeds: bool)

  // Negation in 32 bits: the least number has no counterpart.
  function Positive(port: int): int
    requires -TWO_31 <= port < TWO_31
  {
    if port < 0 && port != -TWO_31 then -port else port
  }

  // The remainder of Go, which has the sign of the dividend.
  function Remainder(a: int, n: nat): int
    requires n > 0
  {
    if a >= 0 then a % n else -((-a) % n)
  }

  // A session's default database is sent to a worker that exists, except for one port number.
  lemma SenderInRange(port: int, threads: nat)
    requires -2147483648 <= port < 2147483648 && threads > 0
    ensures 0 <= Remainder(Positive(port), threads) < threads <==> port != -2147483648 || 2147483648 % threads == 0
  {
  }

  // The worker a packet is for, where there is one.
  datatype Route = To(worker: nat) | NoRoute

  function RouteOf(p: Packet, c: Config): Route
    requires c.threads > 0
  {
    match p
    case Captured(data, _) =>
      var port := GetPortNo(data, c.linkType);
      if port.Port? then To(port.port % c.threads) else NoRoute
    case Prepared(request) =>
      var worker := Remainder(request.srcPort, c.threads);
      if worker >= 0 then To(worker) else NoRoute
  }

  // A captured packet has a worker if it is longer than its link header, and a prepared request
  // if its port is not negative or a multiple of the threads.
  lemma RoutedExactly(p: Packet, c: Config)
    requires c.threads > 0
    ensures RouteOf(p, c).To? <==>
      match p
      case Captured(data, _) => |data| > IpAt(c.linkType)
      case Prepared(request) => request.srcPort >= 0 || exists k: nat :: request.srcPort == -(k * c.threads)
  {
    match p
    case Captured(data, _) => LookaheadInRange(data, c.linkType);
    case Prepared(request) =>
      var a := -request.srcPort;
      if a > 0 {
        if a % c.threads == 0 {
          assert a == a / c.threads * c.threads;
          var k: nat := a / c.threads;
          assert request.srcPort == -(k * c.threads);
        }
        forall k: nat | request.srcPort == -(k * c.threads) ensures a % c.threads == 0 {
          MultipleLeavesZero(k, c.threads);
        }
      }
  }

  lemma MultipleLeavesZero(k: nat, n: nat)
    requires n > 0
    ensures k * n % n == 0
  {
    var q, r := k * n / n, k * n % n;
    assert (k - q) * n == k * n - q * n == r;
    if k > q {
      Gap(k - q, n);
    } else if k < q {
      Gap(q - k, n);
    }
  }

  lemma Gap(d: nat, n: nat)
    requires d >= 1
    ensures d * n >= n
  {
  }

  // A request goes through the worker that belongs to its port.
  lemma RequestOnItsWorker(p: Packet, c: Config, request: MysqlRequest)
    requires c.threads > 0 && Emitted(p, c.linkType) == [request] && RouteOf(p, c).To?
    ensures RouteOf(p, c).worker == Remainder(request.srcPort, c.threads) < c.threads
  {
    if p.Captured? {
      LookaheadIsPort(p.data, c.linkType);
      LookaheadInRange(p.data, c.linkType);
    }
  }

  function Initial(c: Config): State {
    State(seq(c.threads, _ => []), seq(c.threads, _ => View([], [], 0, 0)), [])
  }

  predicate WellFormed(s: State, c: Config) {
    c.threads > 0 && |s.channels| == |s.workers| == c.threads
  }

  // A full channel makes the sender wait; a packet without a route stops the program.
  function Send(s: State, c: Config, p: Packet): State
    requires WellFormed(s, c)
  {
    var route := RouteOf(p, c);
    if route.To? && |s.channels[route.worker]| < CHANNEL_SIZE then
      s.(channels := s.channels[route.worker := s.channels[route.worker] + [p]], log := s.log + [p])
    else s
  }

  // A packet is taken unless it has no route or 1000 others wait in its channel.
  lemma TakenExactly(s: State, c: Config, p: Packet)
    requires WellFormed(s, c)
    ensures var route := RouteOf(p, c);
      Send(s, c, p).log == s.log + [p] <==> route.To? && |s.channels[route.worker]| < 1000
  {
    var t := Send(s, c, p);
    assert |s.log + [p]| == |s.log| + 1;
  }

  function Next(s: State, c: Config, step: Step): (t: State)
    requires WellFormed(s, c)
    ensures WellFormed(t, c)
  {
    match step
    case Capture(data, outcome) => Send(s, c, Captured(data, outcome))
    case SendDefault(srcIp, port, body) =>
      if -TWO_31 <= port < TWO_31 then Send(s, c, Prepared(MysqlRequest(srcIp, Positive(port), body))) else s
    case Receive(w, succeeds) =>
      if w < c.threads && s.channels[w] != [] then
        s.(channels := s.channels[w := s.channels[w][1..]],
           workers := s.workers[w := Round(s.workers[w], Received(s.channels[w][0]), c.linkType, succeeds)])
      else s
    case Tick(w, succeeds) =>
      if w < c.threads then s.(workers := s.workers[w := Round(s.workers[w], Ticked, c.linkType, succeeds)]) else s
  }

  function Run(s: State, c: Config, steps: seq<Step>): (t: State)
    requires WellFormed(s, c)
    ensures WellFormed(t, c)
    decreases |steps|
  {
    if steps == [] then s else Run(Next(s, c, steps[0]), c, steps[1..])
  }

  // The requests that packets yield, in their order.
  function Emissions(packets: seq<Packet>, linkType: int): seq<MysqlRequest> {
    if packets == [] then []
    else Emissions(packets[..|packets| - 1], linkType) + Emitted(packets[|packets| - 1], linkType)
  }

  function Routed(packets: seq<Packet>, c: Config, w: nat): seq<Packet>
    requires c.threads > 0
  {
    if packets == [] then []
    else
      var last := packets[|packets| - 1];
      Routed(packets[..|packets| - 1], c, w) + (if RouteOf(last, c) == To(w) then [last] else [])
  }

  function OfPort(requests: seq<MysqlRequest>, port: int): seq<MysqlRequest> {
    if requests == [] then []
    else
      var last := requests[|requests| - 1];
      OfPort(requests[..|requests| - 1], port) + (if last.srcPort == port then [last] else [])
  }

  // Everything of a worker, handed over, batched or still in its channel, is what was sent to
  // it, in that order.
  ghost predicate WorkerInOrder(s: State, c: Config, w: nat)
    requires WellFormed(s, c) && w < c.threads
  {
    var v := s.workers[w];
    && Accounted(v) && |s.channels[w]| <= CHANNEL_SIZE
    && v.handed + v.pending + Emissions(s.channels[w], c.linkType) == Emissions(Routed(s.log, c, w), c.linkType)
  }

  ghost predicate Inv(s: State, c: Config) {
    && WellFormed(s, c)
    && (forall w: nat :: w < c.threads ==> WorkerInOrder(s, c, w))
    && (forall k :: 0 <= k < |s.log| ==> RouteOf(s.log[k], c).To?)
  }

  lemma {:induction false} EmissionsConcat(a: seq<Packet>, b: seq<Packet>, linkType: int)
    ensures Emissions(a + b, linkType) == Emissions(a, linkType) + Emissions(b, linkType)
  {
    hide Emitted;
    if b == [] {
      assert a + b == a;
    } else {
      var init, last := b[..|b| - 1], b[|b| - 1];
      EmissionsConcat(a, init, linkType);
      assert (a + b)[..|a + b| - 1] == a + init && (a + b)[|a + b| - 1] == last;
      assert Emissions(a + b, linkType) == Emissions(a + init, linkType) + Emitted(last, linkType);
    }
  }

  lemma EmissionsOne(p: Packet, linkType: int)
    ensures Emissions([p], linkType) == Emitted(p, linkType)
  {
    assert [p][..0] == [];
  }

  lemma EmissionsFirst(packets: seq<Packet>, linkType: int)
    requires packets != []
    ensures Emissions(packets, linkType) == Emitted(packets[0], linkType) + Emissions(packets[1..], linkType)
  {
    assert packets == [packets[0]] + packets[1..];
    EmissionsConcat([packets[0]], packets[1..], linkType);
    EmissionsOne(packets[0], linkType);
  }

  lemma RoutedMore(log: seq<Packet>, p: Packet, c: Config, w: nat)
    requires c.threads > 0
    ensures Routed(log + [p], c, w) == if RouteOf(p, c) == To(w) then Routed(log, c, w) + [p] else Routed(log, c, w)
  {
    assert (log + [p])[..|log|] == log;
  }

  lemma RouteInRange(p: Packet, c: Config)
    requires c.threads > 0 && RouteOf(p, c).To?
    ensures RouteOf(p, c).worker < c.threads
  {
  }

  lemma SendKeeps(s: State, c: Config, p: Packet)
    requires Inv(s, c)
    ensures Inv(Send(s, c, p), c)
  {
    hide Emissions, Routed, RouteOf;
    var route := RouteOf(p, c);
    if route.To? {
      RouteInRange(p, c);
    }
    var t := Send(s, c, p);
    if t != s {
      forall w: nat | w < c.threads ensures WorkerInOrder(t, c, w) {
        assert WorkerInOrder(s, c, w);
        RoutedMore(s.log, p, c, w);
        if route == To(w) {
          EmissionsConcat(Routed(s.log, c, w), [p], c.linkType);
          EmissionsConcat(s.channels[w], [p], c.linkType);
          var v := s.workers[w];
          assert v.handed + v.pending + (Emissions(s.channels[w], c.linkType) + Emissions([p], c.linkType))
            == v.handed + v.pending + Emissions(s.channels[w], c.linkType) + Emissions([p], c.linkType);
        }
      }
    }
  }

  lemma WorkKeeps(s: State, c: Config, w: nat, e: Event, succeeds: bool)
    requires Inv(s, c) && w < c.threads
    requires e.Received? ==> s.channels[w] != [] && e.packet == s.channels[w][0]
    ensures var rest := if e.Received? then s.channels[w][1..] else s.channels[w];
      Inv(s.(channels := s.channels[w := rest],
        workers := s.workers[w := Round(s.workers[w], e, c.linkType, succeeds)]), c)
  {
    hide Emissions, Routed, RouteOf, Round, Emitted;
    var rest := if e.Received? then s.channels[w][1..] else s.channels[w];
    var t := s.(channels := s.channels[w := rest],
      workers := s.workers[w := Round(s.workers[w], e, c.linkType, succeeds)]);
    assert WorkerInOrder(s, c, w);
    RoundKeepsOrder(s.workers[w], e, c.linkType, succeeds);
    if e.Received? {
      EmissionsFirst(s.channels[w], c.linkType);
    }
    var v := s.workers[w];
    assert v.handed + v.pending + (Appended(e, c.linkType) + Emissions(rest, c.linkType))
      == v.handed + v.pending + Appended(e, c.linkType) + Emissions(rest, c.linkType);
    assert [] + Emissions(rest, c.linkType) == Emissions(rest, c.linkType);
    forall x: nat | x < c.threads ensures WorkerInOrder(t, c, x) {
      assert WorkerInOrder(s, c, x);
    }
  }

  lemma InvFormed(s: State, c: Config)
    requires Inv(s, c)
    ensures WellFormed(s, c)
  {
  }

  lemma NextKeeps(s: State, c: Config, step: Step)
    requires Inv(s, c)
    ensures Inv(Next(s, c, step), c)
  {
    hide Inv, Send, Round;
    InvFormed(s, c);
    match step {
      case Capture(data, outcome) => SendKeeps(s, c, Captured(data, outcome));
      case SendDefault(srcIp, port, body) =>
        if -TWO_31 <= port < TWO_31 {
          SendKeeps(s, c, Prepared(MysqlRequest(srcIp, Positive(port), body)));
        }
      case Receive(w, succeeds) =>
        if w < c.threads && s.channels[w] != [] {
          WorkKeeps(s, c, w, Received(s.channels[w][0]), succeeds);
        }
      case Tick(w, succeeds) =>
        if w < c.threads {
          WorkKeeps(s, c, w, Ticked, succeeds);
          assert s.channels[w := s.channels[w]] == s.channels;
        }
    }
  }

  lemma InitialInv(c: Config)
    requires c.threads > 0
    ensures Inv(Initial(c), c)
  {
  }

  lemma {:induction false} RunKeeps(s: State, c: Config, steps: seq<Step>)
    requires Inv(s, c)
    ensures Inv(Run(s, c, steps), c)
    decreases |steps|
  {
    hide Inv, Next;
    InvFormed(s, c);
    if steps != [] {
      NextKeeps(s, c, steps[0]);
      RunKeeps(Next(s, c, steps[0]), c, steps[1..]);
    }
  }

  lemma {:induction false} OfPortConcat(a: seq<MysqlRequest>, b: seq<MysqlRequest>, port: int)
    ensures OfPort(a + b, port) == OfPort(a, port) + OfPort(b, port)
  {
    if b == [] {
      assert a + b == a;
    } else {
      OfPortConcat(a, b[..|b| - 1], port);
      assert (a + b)[..|a + b| - 1] == a + b[..|b| - 1];
    }
  }

  lemma OfPortOne(p: Packet, c: Config, port: int)
    requires c.threads > 0 && RouteOf(p, c).To? && RouteOf(p, c).worker != Remainder(port, c.threads)
    ensures OfPort(Emitted(p, c.linkType), port) == []
  {
    var r := Emitted(p, c.linkType);
    if r != [] {
      RequestOnItsWorker(p, c, r[0]);
      assert r[..0] == [];
    }
  }

  // All packets that yield requests of a port are routed to the same worker.
  lemma {:induction false} OnePortOneRoute(log: seq<Packet>, c: Config, w: nat, port: int)
    requires c.threads > 0 && forall k :: 0 <= k < |log| ==> RouteOf(log[k], c).To?
    ensures OfPort(Emissions(Routed(log, c, w), c.linkType), port) ==
      if w == Remainder(port, c.threads) then OfPort(Emissions(log, c.linkType), port) else []
  {
    hide RouteOf, Emitted, Remainder;
    if log != [] {
      var init, p := log[..|log| - 1], log[|log| - 1];
      assert log == init + [p];
      OnePortOneRoute(init, c, w, port);
      RoutedMore(init, p, c, w);
      var e := Emitted(p, c.linkType);
      EmissionsMore(init, p, c.linkType);
      EmissionsMore(Routed(init, c, w), p, c.linkType);
      OfPortConcat(Emissions(init, c.linkType), e, port);
      OfPortConcat(Emissions(Routed(init, c, w), c.linkType), e, port);
      if RouteOf(p, c).worker != Remainder(port, c.threads) {
        OfPortOne(p, c, port);
      }
    }
  }

  lemma EmissionsMore(packets: seq<Packet>, p: Packet, linkType: int)
    ensures Emissions(packets + [p], linkType) == Emissions(packets, linkType) + Emitted(p, linkType)
  {
    assert (packets + [p])[..|packets|] == packets;
  }

  // In every run the requests of one port go through one worker only, which hands them over in
  // the order in which their packets were sent, none of them lost or doubled; those not handed
  // over yet are in its batch or its channel.
  lemma EachPortInOrder(c: Config, steps: seq<Step>, w: nat, port: int)
    requires c.threads > 0 && w < c.threads
    ensures var s := Run(Initial(c), c, steps);
      var v := s.workers[w];
      OfPort(v.handed + v.pending + Emissions(s.channels[w], c.linkType), port) ==
        if w == Remainder(port, c.threads) then OfPort(Emissions(s.log, c.linkType), port) else []
  {
    hide Emissions, Routed, OfPort, Run, Remainder;
    InitialInv(c);
    RunKeeps(Initial(c), c, steps);
    var s := Run(Initial(c), c, steps);
    assert WorkerInOrder(s, c, w);
    OnePortOneRoute(s.log, c, w, port);
  }

  // In every run each request a worker took from its channel is inserted, counted as an
  // error, or waits in a batch that is not full.
  lemma EveryRequestAccounted(c: Config, steps: seq<Step>, w: nat)
    requires c.threads > 0 && w < c.threads
    ensures var s := Run(Initial(c), c, steps);
      var v := s.workers[w];
      && |v.pending| < QUEUE_BATCH_SIZE
      && v.inserted + v.errors + |v.pending| + |Emissions(s.channels[w], c.linkType)|
        == |Emissions(Routed(s.log, c, w), c.linkType)|
  {
    hide Emissions, Routed, Run;
    InitialInv(c);
    RunKeeps(Initial(c), c, steps);
    assert WorkerInOrder(Run(Initial(c), c, steps), c, w);
  }
}
