/** The client of the home control center: which node it talks to, which connections it keeps, and
    when it moves on. */
module HomeFailover {
  import opened Text

  datatype Node = Node(ip: string, port: int, clientCount: int, isMaster: bool, lastSeen: int)

  // A host without surrounding white space and a port to dial.
  datatype Address = Address(host: string, port: int)

  const FAILOVER_THRESHOLD := 3

  function AddressOf(host: string, port: int): Option<Address> {
    if Trim(host) == "" || port <= 0 then None else Some(Address(Trim(host), port))
  }

  // ----- Normalising a list of nodes -----

  function Cleaned(nodes: seq<Node>): seq<Node> {
    if nodes == [] then []
    else
      var node := nodes[|nodes| - 1].(ip := Trim(nodes[|nodes| - 1].ip));
      var before := Cleaned(nodes[..|nodes| - 1]);
      if node.ip == "" || node.port <= 0 then before
      else before + [if node.clientCount < 0 then node.(clientCount := 0) else node]
  }

  // Behind everything that does not have more clients.
  function Inserted(sorted: seq<Node>, node: Node): (r: seq<Node>)
    ensures |r| == |sorted| + 1
  {
    if sorted != [] && node.clientCount < sorted[|sorted| - 1].clientCount then
      Inserted(sorted[..|sorted| - 1], node) + [sorted[|sorted| - 1]]
    else sorted + [node]
  }

  // sort.SliceStable by the number of clients.
  function StableSorted(nodes: seq<Node>): (r: seq<Node>)
    ensures |r| == |nodes|
  {
    if nodes == [] then [] else Inserted(StableSorted(nodes[..|nodes| - 1]), nodes[|nodes| - 1])
  }

  function Normalized(nodes: seq<Node>): seq<Node> {
    StableSorted(Cleaned(nodes))
  }

  ghost predicate Sorted(nodes: seq<Node>) {
    forall i, j :: 0 <= i < j < |nodes| ==> nodes[i].clientCount <= nodes[j].clientCount
  }

  // The nodes with so many clients, in order.
  function WithCount(nodes: seq<Node>, count: int): seq<Node> {
    if nodes == [] then []
    else
      var last := nodes[|nodes| - 1];
      WithCount(nodes[..|nodes| - 1], count) + (if last.clientCount == count then [last] else [])
  }

  lemma {:induction false} InsertedIsSorted(sorted: seq<Node>, node: Node)
    requires Sorted(sorted)
    ensures Sorted(Inserted(sorted, node))
    decreases |sorted|
  {
    if sorted != [] && node.clientCount < sorted[|sorted| - 1].clientCount {
      var n := |sorted| - 1;
      InsertedIsSorted(sorted[..n], node);
      InsertedKeeps(sorted[..n], node);
      AllAtMost(sorted, node);
      SortedSnoc(Inserted(sorted[..n], node), sorted[n]);
    }
  }

  lemma SortedSnoc(sorted: seq<Node>, last: Node)
    requires Sorted(sorted) && forall i :: 0 <= i < |sorted| ==> sorted[i].clientCount <= last.clientCount
    ensures Sorted(sorted + [last])
  {
  }

  lemma {:induction false} InsertedKeeps(sorted: seq<Node>, node: Node)
    ensures multiset(Inserted(sorted, node)) == multiset(sorted) + multiset{node}
    decreases |sorted|
  {
    if sorted != [] && node.clientCount < sorted[|sorted| - 1].clientCount {
      InsertedKeeps(sorted[..|sorted| - 1], node);
      assert sorted == sorted[..|sorted| - 1] + [sorted[|sorted| - 1]];
    }
  }

  lemma AllAtMost(sorted: seq<Node>, node: Node)
    requires Sorted(sorted) && sorted != [] && node.clientCount < sorted[|sorted| - 1].clientCount
    ensures var n := |sorted| - 1;
            var front := Inserted(sorted[..n], node);
            forall i :: 0 <= i < |front| ==> front[i].clientCount <= sorted[n].clientCount
  {
    var n := |sorted| - 1;
    var front := Inserted(sorted[..n], node);
    InsertedKeeps(sorted[..n], node);
    forall i | 0 <= i < |front| ensures front[i].clientCount <= sorted[n].clientCount {
      assert front[i] in multiset(front);
    }
  }

  lemma WithCountSnoc(nodes: seq<Node>, node: Node, count: int)
    ensures WithCount(nodes + [node], count)
            == WithCount(nodes, count) + (if node.clientCount == count then [node] else [])
  {
    assert (nodes + [node])[..|nodes|] == nodes;
  }

  lemma {:induction false} InsertedIsStable(sorted: seq<Node>, node: Node, count: int)
    ensures WithCount(Inserted(sorted, node), count) == WithCount(sorted + [node], count)
    decreases |sorted|
  {
    WithCountSnoc(sorted, node, count);
    if sorted != [] && node.clientCount < sorted[|sorted| - 1].clientCount {
      var n := |sorted| - 1;
      InsertedIsStable(sorted[..n], node, count);
      WithCountSnoc(sorted[..n], node, count);
      WithCountSnoc(Inserted(sorted[..n], node), sorted[n], count);
    }
  }

  // Sorted, a permutation, and stable.
  lemma {:induction false} SortSorts(nodes: seq<Node>)
    ensures Sorted(StableSorted(nodes)) && multiset(StableSorted(nodes)) == multiset(nodes)
    decreases |nodes|
  {
    if nodes != [] {
      var n := |nodes| - 1;
      SortSorts(nodes[..n]);
      InsertedIsSorted(StableSorted(nodes[..n]), nodes[n]);
      InsertedKeeps(StableSorted(nodes[..n]), nodes[n]);
      assert nodes == nodes[..n] + [nodes[n]];
    }
  }

  lemma {:induction false} SortIsStable(nodes: seq<Node>, count: int)
    ensures WithCount(StableSorted(nodes), count) == WithCount(nodes, count)
    decreases |nodes|
  {
    if nodes != [] {
      var n := |nodes| - 1;
      SortIsStable(nodes[..n], count);
      InsertedIsStable(StableSorted(nodes[..n]), nodes[n], count);
      WithCountSnoc(StableSorted(nodes[..n]), nodes[n], count);
    }
  }

  lemma {:induction false} NoneAbove(nodes: seq<Node>, count: int)
    requires forall i :: 0 <= i < |nodes| ==> nodes[i].clientCount < count
    ensures WithCount(nodes, count) == []
    decreases |nodes|
  {
    if nodes != [] {
      NoneAbove(nodes[..|nodes| - 1], count);
    }
  }

  lemma EndsWithItsKind(nodes: seq<Node>)
    ensures nodes != [] ==>
              var last := nodes[|nodes| - 1];
              var kind := WithCount(nodes, last.clientCount);
              kind != [] && kind[|kind| - 1] == last
  {
  }

  // The last of a sorted list is the last of those with the most clients, so it is determined.
  lemma LastDetermined(a: seq<Node>, b: seq<Node>)
    requires Sorted(a) && Sorted(b) && a != [] && b != []
    requires var x := a[|a| - 1].clientCount; WithCount(a, x) == WithCount(b, x)
    requires var y := b[|b| - 1].clientCount; WithCount(a, y) == WithCount(b, y)
    ensures b[|b| - 1] == a[|a| - 1]
  {
    var x, y := a[|a| - 1], b[|b| - 1];
    EndsWithItsKind(a);
    EndsWithItsKind(b);
    if x.clientCount < y.clientCount {
      NoneAbove(a, y.clientCount);
    } else if y.clientCount < x.clientCount {
      NoneAbove(b, x.clientCount);
    }
  }

  lemma DropLast(a: seq<Node>, b: seq<Node>, count: int)
    requires a != [] && b != [] && a[|a| - 1] == b[|b| - 1] && WithCount(a, count) == WithCount(b, count)
    ensures WithCount(a[..|a| - 1], count) == WithCount(b[..|b| - 1], count)
  {
    var last := if a[|a| - 1].clientCount == count then [a[|a| - 1]] else [];
    var front, front' := WithCount(a[..|a| - 1], count), WithCount(b[..|b| - 1], count);
    assert front + last == front' + last;
    assert front == (front + last)[..|front + last| - |last|];
    assert front' == (front' + last)[..|front' + last| - |last|];
  }

  // Of every count the two lists hold the same nodes in the same order.
  ghost predicate SameKinds(a: seq<Node>, b: seq<Node>) {
    forall count :: WithCount(a, count) == WithCount(b, count)
  }

  lemma EmptyTogether(a: seq<Node>, b: seq<Node>)
    requires SameKinds(a, b)
    ensures a == [] <==> b == []
  {
    EndsWithItsKind(a);
    EndsWithItsKind(b);
  }

  lemma FrontsAlike(a: seq<Node>, b: seq<Node>)
    requires SameKinds(a, b) && a != [] && b != [] && a[|a| - 1] == b[|b| - 1]
    ensures SameKinds(a[..|a| - 1], b[..|b| - 1])
  {
    var a', b' := a[..|a| - 1], b[..|b| - 1];
    forall count ensures WithCount(a', count) == WithCount(b', count) {
      DropLast(a, b, count);
    }
  }

  lemma LastsAlike(a: seq<Node>, b: seq<Node>)
    requires SameKinds(a, b) && Sorted(a) && Sorted(b) && a != [] && b != []
    ensures a[|a| - 1] == b[|b| - 1]
  {
    LastDetermined(a, b);
  }

  lemma Rejoined(a: seq<Node>, b: seq<Node>)
    requires a != [] && b != [] && a[..|a| - 1] == b[..|b| - 1] && a[|a| - 1] == b[|b| - 1]
    ensures a == b
  {
    assert a == a[..|a| - 1] + [a[|a| - 1]] && b == b[..|b| - 1] + [b[|b| - 1]];
  }

  // So any stable sort by the number of clients gives this one list.
  lemma {:induction false} StableSortIsUnique(a: seq<Node>, b: seq<Node>)
    requires Sorted(a) && Sorted(b) && SameKinds(a, b)
    ensures a == b
    decreases |a|
  {
    EmptyTogether(a, b);
    if a != [] {
      LastsAlike(a, b);
      FrontsAlike(a, b);
      StableSortIsUnique(a[..|a| - 1], b[..|b| - 1]);
      Rejoined(a, b);
    }
  }

  // ----- State -----

  // cmd and sub: the cached connections, by the address they were built for.
  datatype State = State(enabled: bool, discovery: bool, host: string, port: int, seedHost: string, seedPort: int,
                         cmd: Option<Address>, sub: Option<Address>, nodes: seq<Node>, failures: nat)

  function Current(s: State): Option<Address> {
    AddressOf(s.host, s.port)
  }

  function SwitchTo(s: State, ip: string, port: int): State {
    var host := Trim(ip);
    if host == "" || port <= 0 || (Trim(s.host) == host && s.port == port) then s
    else s.(host := host, port := port, cmd := None, sub := None)
  }

  // Whether switchToNodeLocked reports a switch.
  predicate Switches(s: State, ip: string, port: int) {
    Trim(ip) != "" && port > 0 && !(Trim(s.host) == Trim(ip) && s.port == port)
  }

  // cmdOptions and subOptions: whether the connection options can be built (TLS).
  function Ensured(s: State, cmdOptions: bool, subOptions: bool): State {
    if !s.enabled || Current(s).None? then s
    else if s.cmd.None? && !cmdOptions then s
    else
      var s' := if s.cmd.None? then s.(cmd := Current(s)) else s;
      if s'.sub.None? && subOptions then s'.(sub := Current(s)) else s'
  }

  // payload None: no answer, or not a list of nodes.
  function RefreshedNodes(s: State, payload: Option<seq<Node>>): State {
    if !s.discovery || payload.None? || Normalized(payload.value) == [] then s
    else
      var nodes := Normalized(payload.value);
      SwitchTo(s.(nodes := nodes, failures := 0), nodes[0].ip, nodes[0].port)
  }

  function UpdatedNodes(s: State, payload: Option<seq<Node>>): State {
    if !s.discovery || payload.None? then s else s.(nodes := Normalized(payload.value))
  }

  function Candidates(s: State): seq<Node> {
    s.nodes + (if Trim(s.seedHost) != "" && s.seedPort > 0 then [Node(s.seedHost, s.seedPort, 0, false, 0)] else [])
  }

  // The first candidate to switch to.
  function FirstOther(s: State, candidates: seq<Node>): Option<Node> {
    if candidates == [] then None
    else if Switches(s, candidates[0].ip, candidates[0].port) then Some(candidates[0])
    else FirstOther(s, candidates[1..])
  }

  // Whether failoverAfterReconnectFailure reports a switch.
  predicate FailsOver(s: State) {
    s.discovery && s.failures + 1 >= FAILOVER_THRESHOLD && FirstOther(s, Candidates(s)).Some?
  }

  function Failed(s: State): State {
    if !s.discovery then s.(failures := 0)
    else if s.failures + 1 < FAILOVER_THRESHOLD then s.(failures := s.failures + 1)
    else
      var s' := s.(failures := 0);
      match FirstOther(s', Candidates(s'))
      case None => s'
      case Some(node) => SwitchTo(s', node.ip, node.port)
  }

  // The sections run under the lock.
  datatype Op =
    | Ensure(cmdOptions: bool, subOptions: bool)
    | Refresh(payload: Option<seq<Node>>)
    | Update(payload: Option<seq<Node>>)
    | Failure
    | Reset
    | Close

  function Apply(s: State, op: Op): State {
    match op
    case Ensure(c, b) => Ensured(s, c, b)
    case Refresh(payload) => RefreshedNodes(s, payload)
    case Update(payload) => UpdatedNodes(s, payload)
    case Failure => Failed(s)
    case Reset => s.(failures := 0)
    case Close => s.(cmd := None, sub := None)
  }

  function RunFrom(s: State, ops: seq<Op>): State {
    if ops == [] then s else Apply(RunFrom(s, ops[..|ops| - 1]), ops[|ops| - 1])
  }

  function New(enabled: bool, discovery: bool, host: string, port: int): State {
    State(enabled, discovery, host, port, Trim(host), port, None, None, [], 0)
  }

  // ----- Cached connections -----

  ghost predicate ConnectionsCurrent(s: State) {
    (s.cmd.Some? ==> s.cmd == Current(s)) && (s.sub.Some? ==> s.sub == Current(s))
  }

  // A switch drops what was cached for the old address.
  lemma SwitchKeepsConnections(s: State, ip: string, port: int)
    requires ConnectionsCurrent(s)
    ensures ConnectionsCurrent(SwitchTo(s, ip, port))
  {
  }

  lemma EnsureKeepsConnections(s: State, cmdOptions: bool, subOptions: bool)
    requires ConnectionsCurrent(s)
    ensures ConnectionsCurrent(Ensured(s, cmdOptions, subOptions))
  {
  }

  // An enabled client with an address to dial gets the connections it lacks, as far as their options can
  // be built, and to that address; without the command connection it does not try the other. Any other
  // client gets none.
  lemma EnsuredConnects(s: State, cmdOptions: bool, subOptions: bool)
    ensures var s' := Ensured(s, cmdOptions, subOptions);
            var dials := s.enabled && Trim(s.host) != "" && s.port > 0;
            && s' == s.(cmd := s'.cmd, sub := s'.sub)
            && s'.cmd == (if s.cmd.None? && dials && cmdOptions then Some(Address(Trim(s.host), s.port)) else s.cmd)
            && s'.sub == (if s.sub.None? && dials && subOptions && s'.cmd.Some? then Some(Address(Trim(s.host), s.port))
                          else s.sub)
  {
  }

  lemma ApplyKeepsConnections(s: State, op: Op)
    requires ConnectionsCurrent(s)
    ensures ConnectionsCurrent(Apply(s, op))
  {
    match op
    case Ensure(c, b) => EnsureKeepsConnections(s, c, b);
    case Refresh(payload) =>
      if payload.Some? && Normalized(payload.value) != [] {
        var nodes := Normalized(payload.value);
        SwitchKeepsConnections(s.(nodes := nodes, failures := 0), nodes[0].ip, nodes[0].port);
      }
    case Failure =>
      var s' := s.(failures := 0);
      var node := FirstOther(s', Candidates(s'));
      if node.Some? {
        SwitchKeepsConnections(s', node.value.ip, node.value.port);
      }
    case _ =>
  }

  // In every reachable state a cached connection was built for the address in use now.
  lemma {:induction false} ConnectionsAlwaysCurrent(enabled: bool, discovery: bool, host: string, port: int,
                                                    ops: seq<Op>)
    ensures ConnectionsCurrent(RunFrom(New(enabled, discovery, host, port), ops))
    decreases |ops|
  {
    if ops != [] {
      ConnectionsAlwaysCurrent(enabled, discovery, host, port, ops[..|ops| - 1]);
      ApplyKeepsConnections(RunFrom(New(enabled, discovery, host, port), ops[..|ops| - 1]), ops[|ops| - 1]);
    }
  }

  // ----- When a failover happens -----

  predicate ResetsFailures(op: Op) {
    op.Reset? || (op.Refresh? && op.payload.Some? && Normalized(op.payload.value) != [])
  }

  // The failures that stand after a run with discovery on: those since the last reset, in threes.
  function Standing(ops: seq<Op>): (n: nat)
    ensures n < FAILOVER_THRESHOLD
  {
    if ops == [] then 0
    else
      var before := Standing(ops[..|ops| - 1]);
      var op := ops[|ops| - 1];
      if op.Failure? then (if before + 1 == FAILOVER_THRESHOLD then 0 else before + 1)
      else if ResetsFailures(op) then 0
      else before
  }

  lemma ApplyCounts(s: State, op: Op)
    ensures Apply(s, op).discovery == s.discovery
    ensures s.discovery && s.failures < FAILOVER_THRESHOLD ==>
              Apply(s, op).failures ==
              if op.Failure? then (if s.failures + 1 == FAILOVER_THRESHOLD then 0 else s.failures + 1)
              else if ResetsFailures(op) then 0
              else s.failures
    ensures !s.discovery && s.failures == 0 ==> Apply(s, op).failures == 0
  {
  }

  lemma {:induction false} FailuresCounted(s: State, ops: seq<Op>)
    requires s.failures == 0
    ensures RunFrom(s, ops).discovery == s.discovery
    ensures RunFrom(s, ops).failures == if s.discovery then Standing(ops) else 0
    decreases |ops|
  {
    if ops != [] {
      FailuresCounted(s, ops[..|ops| - 1]);
      ApplyCounts(RunFrom(s, ops[..|ops| - 1]), ops[|ops| - 1]);
    }
  }

  // ----- Where it goes -----

  // The addresses of the candidates, each at its first place.
  function Distinct(candidates: seq<Node>): (r: seq<Address>)
    ensures forall i, j :: 0 <= i < j < |r| ==> r[i] != r[j]
  {
    if candidates == [] then []
    else
      var before := Distinct(candidates[..|candidates| - 1]);
      match AddressOf(candidates[|candidates| - 1].ip, candidates[|candidates| - 1].port)
      case None => before
      case Some(a) => if a in before then before else before + [a]
  }

  // The first of two that is not the one in use.
  function Target(firsts: seq<Address>, current: Option<Address>): Option<Address> {
    if firsts == [] then None
    else if current != Some(firsts[0]) then Some(firsts[0])
    else if |firsts| == 1 then None
    else Some(firsts[1])
  }

  function Destination(node: Option<Node>): Option<Address> {
    if node.None? then None else AddressOf(node.value.ip, node.value.port)
  }

  lemma SwitchesIsOther(s: State, ip: string, port: int)
    ensures Switches(s, ip, port) <==> AddressOf(ip, port).Some? && AddressOf(ip, port) != Current(s)
  {
  }

  lemma {:induction false} FirstOtherSnoc(s: State, candidates: seq<Node>, node: Node)
    ensures FirstOther(s, candidates + [node]) ==
            if FirstOther(s, candidates).Some? then FirstOther(s, candidates)
            else if Switches(s, node.ip, node.port) then Some(node) else None
    decreases |candidates|
  {
    if candidates == [] {
      assert ([] + [node])[1..] == [];
    } else {
      FirstOtherSnoc(s, candidates[1..], node);
      assert (candidates + [node])[1..] == candidates[1..] + [node];
    }
  }

  lemma TargetSnoc(firsts: seq<Address>, current: Option<Address>, a: Address)
    requires forall i, j :: 0 <= i < j < |firsts| ==> firsts[i] != firsts[j]
    ensures Target(if a in firsts then firsts else firsts + [a], current) ==
            if Target(firsts, current).Some? then Target(firsts, current)
            else if current != Some(a) then Some(a) else None
  {
  }

  lemma DistinctSnoc(candidates: seq<Node>, node: Node)
    ensures Distinct(candidates + [node]) ==
            match AddressOf(node.ip, node.port)
            case None => Distinct(candidates)
            case Some(a) => if a in Distinct(candidates) then Distinct(candidates) else Distinct(candidates) + [a]
  {
    assert (candidates + [node])[..|candidates|] == candidates;
  }

  lemma {:induction false} FirstOtherIsTarget(s: State, candidates: seq<Node>)
    ensures Destination(FirstOther(s, candidates)) == Target(Distinct(candidates), Current(s))
    ensures FirstOther(s, candidates).Some? <==> Target(Distinct(candidates), Current(s)).Some?
    decreases |candidates|
  {
    if candidates != [] {
      var n := |candidates| - 1;
      FirstOtherIsTarget(s, candidates[..n]);
      FirstOtherSnoc(s, candidates[..n], candidates[n]);
      assert candidates[..n] + [candidates[n]] == candidates;
      SwitchesIsOther(s, candidates[n].ip, candidates[n].port);
      DistinctSnoc(candidates[..n], candidates[n]);
      var address := AddressOf(candidates[n].ip, candidates[n].port);
      if address.Some? {
        TargetSnoc(Distinct(candidates[..n]), Current(s), address.value);
      }
    }
  }

  lemma {:induction false} FirstOtherSwitches(s: State, candidates: seq<Node>)
    ensures FirstOther(s, candidates).Some? ==>
              Switches(s, FirstOther(s, candidates).value.ip, FirstOther(s, candidates).value.port)
    decreases |candidates|
  {
    if candidates != [] {
      FirstOtherSwitches(s, candidates[1..]);
    }
  }

  lemma {:induction false} CountIsNoMatter(s: State, failures: nat, candidates: seq<Node>)
    ensures FirstOther(s.(failures := failures), candidates) == FirstOther(s, candidates)
    decreases |candidates|
  {
    if candidates != [] {
      CountIsNoMatter(s, failures, candidates[1..]);
    }
  }

  lemma TrimmedAddress(host: string, port: int)
    requires AddressOf(host, port).Some?
    ensures AddressOf(Trim(host), port) == AddressOf(host, port)
  {
    TrimIdempotent(host);
  }

  // A failure moves the client exactly when it is the third one standing and there is another
  // candidate, and then to the first or second distinct candidate, never to where it is.
  lemma FailoverExactly(s: State)
    requires s.failures < 3
    ensures var target := Target(Distinct(Candidates(s)), Current(s));
            var moves := s.discovery && s.failures == 2 && target.Some?;
            && Current(Failed(s)) == (if moves then target else Current(s))
            && (moves <==> FailsOver(s))
            && (moves ==> target != Current(s) && Failed(s).cmd.None? && Failed(s).sub.None?)
            && (!moves ==> Failed(s).cmd == s.cmd && Failed(s).sub == s.sub)
  {
    var s' := s.(failures := 0);
    FirstOtherIsTarget(s', Candidates(s'));
    CountIsNoMatter(s, 0, Candidates(s));
    FirstOtherSwitches(s', Candidates(s'));
    var node := FirstOther(s', Candidates(s'));
    if node.Some? {
      TrimmedAddress(node.value.ip, node.value.port);
    }
  }

  // The host and port stand for the address in use.
  ghost predicate IsAt(s: State, host: string, port: int) {
    Trim(s.host) == Trim(host) && s.port == port
  }

  ghost predicate CanMoveTo(s: State, host: string, port: int) {
    Trim(host) != "" && port > 0 && !IsAt(s, host, port)
  }

  // The third failure moves the client to the first node it is not at, else back to the seed, and forgets
  // the failures and the connections; if there is nowhere to go it only forgets the failures.
  lemma ThirdFailureMoves(s: State, i: nat)
    requires s.discovery && s.failures == 2 && i <= |s.nodes|
    requires forall j :: 0 <= j < i ==> !CanMoveTo(s, s.nodes[j].ip, s.nodes[j].port)
    ensures i < |s.nodes| && CanMoveTo(s, s.nodes[i].ip, s.nodes[i].port) ==>
              Failed(s) == s.(host := Trim(s.nodes[i].ip), port := s.nodes[i].port, cmd := None, sub := None,
                              failures := 0)
    ensures i == |s.nodes| ==>
              Failed(s) == if CanMoveTo(s, s.seedHost, s.seedPort)
                then s.(host := Trim(s.seedHost), port := s.seedPort, cmd := None, sub := None, failures := 0)
                else s.(failures := 0)
  {
    var s' := s.(failures := 0);
    var candidates := Candidates(s);
    NoneBefore(s', candidates, i);
    assert i < |s.nodes| ==> candidates[i] == s.nodes[i];
    if i < |candidates| {
      FirstOtherStep(s', candidates, i);
      assert i == |s.nodes| ==> candidates[i + 1..] == [];
    } else {
      assert candidates[i..] == [];
    }
  }

  lemma {:induction false} NoneBefore(s: State, candidates: seq<Node>, i: nat)
    requires i <= |candidates|
    requires forall j :: 0 <= j < i ==> !Switches(s, candidates[j].ip, candidates[j].port)
    ensures FirstOther(s, candidates) == FirstOther(s, candidates[i..])
  {
    if i == 0 {
      assert candidates[0..] == candidates;
    } else {
      NoneBefore(s, candidates, i - 1);
      FirstOtherStep(s, candidates, i - 1);
    }
  }

  // Over any run: a failover comes only with the third failure since the last reset.
  lemma FailoverOnThird(enabled: bool, discovery: bool, host: string, port: int, ops: seq<Op>)
    ensures var s := RunFrom(New(enabled, discovery, host, port), ops);
            Current(Failed(s)) != Current(s) <==>
            discovery && Standing(ops) == 2 && Target(Distinct(Candidates(s)), Current(s)).Some?
  {
    var start := New(enabled, discovery, host, port);
    FailuresCounted(start, ops);
    FailoverExactly(RunFrom(start, ops));
  }

  // ----- Between changes of the node list -----

  predicate LeavesNodes(op: Op) {
    !op.Refresh? && !op.Update?
  }

  function FirstTwo(s: State): (r: seq<Address>)
    ensures |r| <= 2 && r <= Distinct(Candidates(s))
  {
    var all := Distinct(Candidates(s));
    if |all| > 2 then all[..2] else all
  }

  lemma TargetIsOfTwo(s: State)
    ensures var target := Target(Distinct(Candidates(s)), Current(s));
            target.Some? ==> target.value in FirstTwo(s)
  {
    var all := Distinct(Candidates(s));
    if |all| > 2 {
      assert all[..2][0] == all[0] && all[..2][1] == all[1];
    }
  }

  lemma LeavesFacts(s: State, op: Op)
    requires LeavesNodes(op)
    ensures var s' := Apply(s, op);
            && s'.nodes == s.nodes && s'.seedHost == s.seedHost && s'.seedPort == s.seedPort
            && (!op.Failure? ==> Current(s') == Current(s))
  {
  }

  lemma StaysOneMore(s: State, op: Op)
    requires s.failures < FAILOVER_THRESHOLD && LeavesNodes(op)
    ensures var s' := Apply(s, op);
            && s'.failures < FAILOVER_THRESHOLD && Candidates(s') == Candidates(s)
            && (Current(s') == Current(s) || (Current(s').Some? && Current(s').value in FirstTwo(s)))
  {
    LeavesFacts(s, op);
    ApplyCounts(s, op);
    if op.Failure? {
      FailoverExactly(s);
      TargetIsOfTwo(s);
    }
  }

  // While the node list stays, the client is where it was or at one of the first two distinct
  // candidates.
  lemma {:induction false} StaysWithinTwo(s: State, ops: seq<Op>)
    requires s.failures < FAILOVER_THRESHOLD && forall i :: 0 <= i < |ops| ==> LeavesNodes(ops[i])
    ensures var s' := RunFrom(s, ops);
            && s'.failures < FAILOVER_THRESHOLD && Candidates(s') == Candidates(s)
            && (Current(s') == Current(s) || (Current(s').Some? && Current(s').value in FirstTwo(s)))
    decreases |ops|
  {
    if ops != [] {
      var mid := RunFrom(s, ops[..|ops| - 1]);
      var op := ops[|ops| - 1];
      StaysWithinTwo(s, ops[..|ops| - 1]);
      StaysOneMore(mid, op);
    }
  }

  // ----- The least loaded node -----

  lemma {:induction false} CleanedIsValid(nodes: seq<Node>)
    ensures forall i :: 0 <= i < |Cleaned(nodes)| ==>
              AddressOf(Cleaned(nodes)[i].ip, Cleaned(nodes)[i].port).Some? && Cleaned(nodes)[i].clientCount >= 0
              && Trim(Cleaned(nodes)[i].ip) == Cleaned(nodes)[i].ip
    decreases |nodes|
  {
    if nodes != [] {
      CleanedIsValid(nodes[..|nodes| - 1]);
      TrimIdempotent(nodes[|nodes| - 1].ip);
    }
  }

  lemma NormalizedIsValid(nodes: seq<Node>)
    ensures Sorted(Normalized(nodes)) && multiset(Normalized(nodes)) == multiset(Cleaned(nodes))
    ensures forall i ::
            0 <= i < |Normalized(nodes)| ==> AddressOf(Normalized(nodes)[i].ip, Normalized(nodes)[i].port).Some?
    ensures forall i :: 0 <= i < |Normalized(nodes)| ==>
                          var node := Normalized(nodes)[i];
                          Trim(node.ip) != "" && Trim(node.ip) == node.ip && node.port > 0 && node.clientCount >= 0
  {
    SortSorts(Cleaned(nodes));
    CleanedIsValid(nodes);
    forall i | 0 <= i < |Normalized(nodes)|
      ensures AddressOf(Normalized(nodes)[i].ip, Normalized(nodes)[i].port).Some?
      ensures Normalized(nodes)[i].clientCount >= 0 && Trim(Normalized(nodes)[i].ip) == Normalized(nodes)[i].ip
    {
      assert Normalized(nodes)[i] in multiset(Cleaned(nodes));
    }
  }

  lemma CleanedSnoc(nodes: seq<Node>, node: Node)
    ensures Cleaned(nodes + [node]) == Cleaned(nodes) + Cleaned([node])
  {
    assert (nodes + [node])[..|nodes|] == nodes && [node][..0] == [];
  }

  // Cleaning works node by node, in order: one that can be dialled stays, trimmed and with no negative
  // count, and one that cannot goes.
  lemma {:induction false} CleanedByNode(before: seq<Node>, after: seq<Node>)
    ensures Cleaned(before + after) == Cleaned(before) + Cleaned(after)
    decreases |after|
  {
    if after == [] {
      assert before + after == before;
    } else {
      var front, last := after[..|after| - 1], after[|after| - 1];
      assert before + after == (before + front) + [last] && after == front + [last];
      CleanedByNode(before, front);
      CleanedSnoc(before + front, last);
      CleanedSnoc(front, last);
    }
  }

  lemma CleanedOne(node: Node)
    ensures Cleaned([node]) ==
            if Trim(node.ip) != "" && node.port > 0
            then [Node(Trim(node.ip), node.port, if node.clientCount > 0 then node.clientCount else 0, node.isMaster,
                       node.lastSeen)]
            else []
  {
    assert [node][..0] == [];
  }

  lemma SwitchLands(s: State, ip: string, port: int)
    requires AddressOf(ip, port).Some?
    ensures Current(SwitchTo(s, ip, port)) == AddressOf(ip, port) && SwitchTo(s, ip, port).nodes == s.nodes
  {
    TrimIdempotent(ip);
  }

  // Closing forgets both connections, and success forgets the failures.
  lemma ForgetsOnly(s: State)
    ensures Apply(s, Close) == s.(cmd := None, sub := None) && Apply(s, Reset) == s.(failures := 0)
  {
  }

  // A refresh that brings none, or with discovery off, changes nothing; an update files the nodes and
  // changes nothing else.
  lemma OtherwiseStays(s: State, payload: Option<seq<Node>>)
    ensures !s.discovery || payload.None? || Cleaned(payload.value) == [] ==> RefreshedNodes(s, payload) == s
    ensures UpdatedNodes(s, payload)
            == if s.discovery && payload.Some? then s.(nodes := StableSorted(Cleaned(payload.value))) else s
  {
  }

  // A refresh that brings nodes ends at the first of those with the fewest clients.
  lemma RefreshPicksLeast(s: State, nodes: seq<Node>)
    requires s.discovery && Normalized(nodes) != []
    ensures var s' := RefreshedNodes(s, Some(nodes));
            && s'.nodes == Normalized(nodes)
            && Current(s') == AddressOf(s'.nodes[0].ip, s'.nodes[0].port) && Current(s').Some?
            && s' == (if IsAt(s, s'.nodes[0].ip, s'.nodes[0].port) then s.(nodes := s'.nodes, failures := 0)
                      else s.(nodes := s'.nodes, failures := 0, host := Trim(s'.nodes[0].ip), port := s'.nodes[0].port,
                              cmd := None, sub := None))
            && forall i :: 0 <= i < |s'.nodes| ==> s'.nodes[0].clientCount <= s'.nodes[i].clientCount
  {
    NormalizedIsValid(nodes);
    var best := Normalized(nodes)[0];
    SwitchLands(s.(nodes := Normalized(nodes), failures := 0), best.ip, best.port);
  }

  // ----- The client -----

  lemma FirstOtherStep(s: State, candidates: seq<Node>, i: nat)
    requires i < |candidates|
    ensures FirstOther(s, candidates[i..]) ==
            if Switches(s, candidates[i].ip, candidates[i].port) then Some(candidates[i])
            else FirstOther(s, candidates[i + 1..])
  {
    assert candidates[i..][1..] == candidates[i + 1..];
  }

  lemma SwitchMoves(s: State, ip: string, port: int)
    ensures Switches(s, ip, port) <==> Current(SwitchTo(s, ip, port)) != Current(s)
  {
    SwitchesIsOther(s, ip, port);
    if Switches(s, ip, port) {
      TrimmedAddress(ip, port);
    }
  }

  method NormalizeClusterNodes(nodes: seq<Node>) returns (out: seq<Node>)
    ensures out == Normalized(nodes)
  {
    var clean: seq<Node> := [];
    for i := 0 to |nodes|
      invariant clean == Cleaned(nodes[..i])
    {
      assert nodes[..i + 1][..i] == nodes[..i];
      var node := nodes[i].(ip := Trim(nodes[i].ip));
      if node.ip == "" || node.port <= 0 {
        continue;
      }
      if node.clientCount < 0 {
        node := node.(clientCount := 0);
      }
      clean := clean + [node];
    }
    assert nodes[..|nodes|] == nodes;
    return StableSorted(clean);
  }

  class Client {
    const enabled: bool
    const discovery: bool
    const seedHost: string
    const seedPort: int
    var host: string
    var port: int
    var cmd: Option<Address>
    var sub: Option<Address>
    var clusterNodes: seq<Node>
    var reconnectFailures: nat

    ghost function Now(): State
      reads this
    {
      State(enabled, discovery, host, port, seedHost, seedPort, cmd, sub, clusterNodes, reconnectFailures)
    }

    constructor (enabled: bool, discovery: bool, host: string, port: int)
      ensures Now() == New(enabled, discovery, host, port)
    {
      this.enabled, this.discovery, this.host, this.port := enabled, discovery, host, port;
      seedHost, seedPort := Trim(host), port;
      cmd, sub, clusterNodes, reconnectFailures := None, None, [], 0;
    }

    method CloseClients()
      modifies this
      ensures Now() == Apply(old(Now()), Close)
    {
      cmd, sub := None, None;
    }

    method EnsureClients(cmdOptions: bool, subOptions: bool) returns (ok: bool)
      modifies this
      ensures Now() == Ensured(old(Now()), cmdOptions, subOptions)
      ensures ok <==> enabled && Trim(host) != "" && port > 0 && cmd.Some? && sub.Some?
      ensures ok <==> enabled && Trim(host) != "" && port > 0
                      && (old(cmd).Some? || cmdOptions) && (old(sub).Some? || subOptions)
    {
      if !enabled {
        return false;
      }
      var addr := AddressOf(host, port);
      if addr.None? {
        return false;
      }
      if cmd.None? {
        if !cmdOptions {
          return false;
        }
        cmd := addr;
      }
      if sub.None? {
        if !subOptions {
          return false;
        }
        sub := addr;
      }
      return true;
    }

    method SwitchToNode(ip: string, port: int) returns (switched: bool)
      modifies this
      ensures Now() == SwitchTo(old(Now()), ip, port) && (switched <==> Switches(old(Now()), ip, port))
    {
      var host := Trim(ip);
      if host == "" || port <= 0 {
        return false;
      }
      if Trim(this.host) == host && this.port == port {
        return false;
      }
      this.host, this.port := host, port;
      CloseClients();
      return true;
    }

    method RefreshClusterNodes(payload: Option<seq<Node>>) returns (switched: bool)
      modifies this
      ensures Now() == RefreshedNodes(old(Now()), payload)
      ensures switched ==> Current(Now()) != old(Current(Now()))
    {
      if !discovery || payload.None? {
        return false;
      }
      var nodes := NormalizeClusterNodes(payload.value);
      if |nodes| == 0 {
        return false;
      }
      clusterNodes, reconnectFailures := nodes, 0;
      SwitchMoves(Now(), nodes[0].ip, nodes[0].port);
      switched := SwitchToNode(nodes[0].ip, nodes[0].port);
    }

    method UpdateClusterNodes(payload: Option<seq<Node>>)
      modifies this
      ensures Now() == UpdatedNodes(old(Now()), payload)
    {
      if !discovery || payload.None? {
        return;
      }
      clusterNodes := NormalizeClusterNodes(payload.value);
    }

    method FailoverAfterReconnectFailure() returns (switched: bool)
      modifies this
      ensures Now() == Failed(old(Now()))
      ensures switched <==> FailsOver(old(Now()))
    {
      CountIsNoMatter(Now(), 0, Candidates(Now()));
      if !discovery {
        reconnectFailures := 0;
        return false;
      }
      reconnectFailures := reconnectFailures + 1;
      if reconnectFailures < FAILOVER_THRESHOLD {
        return false;
      }
      reconnectFailures := 0;
      switched := SwitchToFirstOther();
    }

    method SwitchToFirstOther() returns (switched: bool)
      modifies this
      ensures var node := FirstOther(old(Now()), Candidates(old(Now())));
              && (switched <==> node.Some?)
              && Now() == if switched then SwitchTo(old(Now()), node.value.ip, node.value.port) else old(Now())
    {
      ghost var s := Now();
      var currentHost, currentPort := Trim(host), port;
      var candidates := clusterNodes;
      if Trim(seedHost) != "" && seedPort > 0 {
        candidates := candidates + [Node(seedHost, seedPort, 0, false, 0)];
      }
      assert candidates == Candidates(s);
      for i := 0 to |candidates|
        invariant Now() == s && FirstOther(s, candidates[i..]) == FirstOther(s, candidates)
      {
        FirstOtherStep(s, candidates, i);
        var node := candidates[i];
        var nodeHost := Trim(node.ip);
        if nodeHost == "" || node.port <= 0 {
          continue;
        }
        if nodeHost == currentHost && node.port == currentPort {
          continue;
        }
        TrimIdempotent(node.ip);
        switched := SwitchToNode(nodeHost, node.port);
        if switched {
          return;
        }
      }
      return false;
    }

    method ResetReconnectFailures()
      modifies this
      ensures Now() == Apply(old(Now()), Reset)
    {
      reconnectFailures := 0;
    }
  }
}
