/** Session bookkeeping of remote shells (src/alpn/shell.py): the host's caps and the client's permits. */
module ShellSessions {
  import opened Common

  type NodeId = string
  type SessionId = int

  const SHELL_MAX_SESSIONS := 4
  const SHELL_MAX_PER_PEER := 2

  // --------------------------------------------------------------------- host

  /** `live` maps each registered teardown event to the peer its coroutine serves. */
  datatype Host = Host(live: map<SessionId, NodeId>, counts: map<NodeId, int>)

  function Get(counts: map<NodeId, int>, p: NodeId, default: int): int {
    if p in counts then counts[p] else default
  }

  datatype HostStep = Begin(id: SessionId, remote: NodeId) | End(id: SessionId)

  predicate Accepts(h: Host, remote: NodeId) {
    |h.live| < SHELL_MAX_SESSIONS && Get(h.counts, remote, 0) < SHELL_MAX_PER_PEER
  }

  function AfterEnd(counts: map<NodeId, int>, remote: NodeId): map<NodeId, int> {
    var n := Max(0, Get(counts, remote, 1) - 1);
    if n == 0 then counts - {remote} else counts[remote := n]
  }

  /** A session begins under a new id; ending an id that is not live is no step of the program. */
  ghost predicate HostEnabled(h: Host, s: HostStep) {
    match s
    case Begin(id, _) => id !in h.live
    case End(id) => id in h.live
  }

  function HostApply(h: Host, s: HostStep): Host
    requires HostEnabled(h, s)
  {
    match s
    case Begin(id, remote) =>
      if !Accepts(h, remote) then h
      else Host(h.live[id := remote], h.counts[remote := Get(h.counts, remote, 0) + 1])
    case End(id) => Host(h.live - {id}, AfterEnd(h.counts, h.live[id]))
  }

  ghost function SessionsOf(live: map<SessionId, NodeId>, p: NodeId): set<SessionId> {
    set id | id in live && live[id] == p
  }

  /** The sum of all per-peer counts. */
  ghost function Total(counts: map<NodeId, int>): int
    decreases counts.Keys
  {
    if counts.Keys == {} then 0 else
      assert exists p :: p in counts.Keys by { var p := Member(counts.Keys); }
      var p :| p in counts.Keys;
      counts[p] + Total(counts - {p})
  }

  lemma {:induction false} TotalWithout(counts: map<NodeId, int>, p: NodeId)
    requires p in counts
    ensures Total(counts) == counts[p] + Total(counts - {p})
    decreases counts.Keys
  {
    assert exists q :: q in counts.Keys by { var q := Member(counts.Keys); }
    var q :| q in counts.Keys && Total(counts) == counts[q] + Total(counts - {q});
    if q != p {
      TotalWithout(counts - {q}, p);
      TotalWithout(counts - {p}, q);
      assert counts - {q} - {p} == counts - {p} - {q};
    }
  }

  lemma TotalUpdate(counts: map<NodeId, int>, p: NodeId, n: int)
    ensures Total(counts[p := n]) == Total(counts) - Get(counts, p, 0) + n
  {
    TotalWithout(counts[p := n], p);
    assert counts[p := n] - {p} == counts - {p};
    if p in counts {
      TotalWithout(counts, p);
    } else {
      assert counts - {p} == counts;
    }
  }

  /** Each peer's count is how many live sessions it has. */
  ghost predicate CountsExact(live: map<SessionId, NodeId>, counts: map<NodeId, int>) {
    forall p :: |SessionsOf(live, p)| == Get(counts, p, 0)
  }

  ghost predicate CountsBounded(counts: map<NodeId, int>) {
    forall p :: p in counts ==> 1 <= counts[p] <= SHELL_MAX_PER_PEER
  }

  ghost predicate HostInv(h: Host) {
    && |h.live| <= SHELL_MAX_SESSIONS
    && CountsBounded(h.counts)
    && CountsExact(h.live, h.counts)
    && Total(h.counts) == |h.live|
  }

  lemma LiveAfterBegin(live: map<SessionId, NodeId>, id: SessionId, remote: NodeId)
    requires id !in live
    ensures |live[id := remote]| == |live| + 1
  {
    assert live[id := remote].Keys == live.Keys + {id};
  }

  lemma LiveAfterEnd(live: map<SessionId, NodeId>, id: SessionId)
    requires id in live
    ensures |live - {id}| == |live| - 1
  {
    assert (live - {id}).Keys == live.Keys - {id};
  }

  /** Registering a session adds it to its own peer's sessions and to no other's. */
  lemma SessionsAfterBegin(live: map<SessionId, NodeId>, id: SessionId, remote: NodeId, p: NodeId)
    requires id !in live
    ensures SessionsOf(live[id := remote], p) == SessionsOf(live, p) + (if p == remote then {id} else {})
  {
  }

  lemma SessionsAfterEnd(live: map<SessionId, NodeId>, id: SessionId, p: NodeId)
    requires id in live
    ensures SessionsOf(live - {id}, p) == SessionsOf(live, p) - (if p == live[id] then {id} else {})
  {
  }

  lemma CountsAfterBegin(live: map<SessionId, NodeId>, counts: map<NodeId, int>, id: SessionId, remote: NodeId)
    requires CountsExact(live, counts) && id !in live
    ensures CountsExact(live[id := remote], counts[remote := Get(counts, remote, 0) + 1])
  {
    var after := live[id := remote];
    forall p ensures |SessionsOf(after, p)| == |SessionsOf(live, p)| + (if p == remote then 1 else 0) {
      SessionsAfterBegin(live, id, remote, p);
      assert id !in SessionsOf(live, p);
    }
  }

  lemma CountsAfterEnd(live: map<SessionId, NodeId>, counts: map<NodeId, int>, id: SessionId)
    requires CountsExact(live, counts) && id in live
    ensures CountsExact(live - {id}, AfterEnd(counts, live[id]))
    ensures Get(counts, live[id], 0) >= 1
  {
    var after := live - {id};
    forall p ensures |SessionsOf(after, p)| == |SessionsOf(live, p)| - (if p == live[id] then 1 else 0) {
      SessionsAfterEnd(live, id, p);
      assert p == live[id] ==> id in SessionsOf(live, p);
    }
    assert id in SessionsOf(live, live[id]);
  }

  lemma BeginKeeps(h: Host, id: SessionId, remote: NodeId)
    requires HostInv(h) && id !in h.live
    ensures HostInv(HostApply(h, Begin(id, remote)))
  {
    if Accepts(h, remote) {
      TotalUpdate(h.counts, remote, Get(h.counts, remote, 0) + 1);
      LiveAfterBegin(h.live, id, remote);
      CountsAfterBegin(h.live, h.counts, id, remote);
      assert |SessionsOf(h.live, remote)| == Get(h.counts, remote, 0);
    }
  }

  lemma TotalAfterEnd(counts: map<NodeId, int>, remote: NodeId)
    requires remote in counts && counts[remote] >= 1
    ensures Total(AfterEnd(counts, remote)) == Total(counts) - 1
  {
    var n := counts[remote] - 1;
    if n == 0 {
      TotalWithout(counts, remote);
      assert AfterEnd(counts, remote) == counts - {remote};
    } else {
      TotalUpdate(counts, remote, n);
      assert AfterEnd(counts, remote) == counts[remote := n];
    }
  }

  lemma EndKeeps(h: Host, id: SessionId)
    requires HostInv(h) && id in h.live
    ensures HostInv(HostApply(h, End(id)))
    ensures h.live[id] in h.counts && h.counts[h.live[id]] - 1 >= 0
  {
    CountsAfterEnd(h.live, h.counts, id);
    TotalAfterEnd(h.counts, h.live[id]);
    LiveAfterEnd(h.live, id);
  }

  ghost predicate HostRun(h: Host, steps: seq<HostStep>, last: Host)
    decreases |steps|
  {
    if steps == [] then h == last else HostEnabled(h, steps[0]) && HostRun(HostApply(h, steps[0]), steps[1..], last)
  }

  lemma {:induction false} HostRunKeeps(h: Host, steps: seq<HostStep>, last: Host)
    requires HostInv(h) && HostRun(h, steps, last)
    ensures HostInv(last)
    decreases |steps|
  {
    if steps != [] {
      match steps[0] {
        case Begin(id, remote) => BeginKeeps(h, id, remote);
        case End(id) => EndKeeps(h, id);
      }
      HostRunKeeps(HostApply(h, steps[0]), steps[1..], last);
    }
  }

  /** In every interleaving of session starts and ends: at most 4 live sessions, per-peer counts exact, each
      between 1 and 2, adding up to the live sessions, and an end never meets the clamp at 0. */
  lemma HostConservation(steps: seq<HostStep>, h: Host)
    requires HostRun(Host(map[], map[]), steps, h)
    ensures |h.live| <= SHELL_MAX_SESSIONS && Total(h.counts) == |h.live|
    ensures forall p :: |SessionsOf(h.live, p)| == Get(h.counts, p, 0)
    ensures forall p :: p in h.counts ==> 1 <= h.counts[p] <= SHELL_MAX_PER_PEER
    ensures forall id :: id in h.live ==> Get(h.counts, h.live[id], 1) - 1 >= 0 && h.live[id] in h.counts
  {
    forall p ensures |SessionsOf(map[], p)| == 0 { assert SessionsOf(map[], p) == {}; }
    HostRunKeeps(Host(map[], map[]), steps, h);
    forall id | id in h.live ensures Get(h.counts, h.live[id], 1) - 1 >= 0 && h.live[id] in h.counts {
      EndKeeps(h, id);
    }
  }

  /** What the two cap tests read is the true number of live sessions, in all and of that peer. */
  lemma CapsCountSessions(h: Host, remote: NodeId)
    requires HostInv(h)
    ensures |h.live.Keys| == |h.live| && Get(h.counts, remote, 0) == |SessionsOf(h.live, remote)|
  {
  }

  class ShellHost {
    var teardowns: set<SessionId>
    var peerCounts: map<NodeId, int>
    ghost var serving: map<SessionId, NodeId>

    ghost function View(): Host
      reads this
    {
      Host(serving, peerCounts)
    }

    ghost predicate Valid()
      reads this
    {
      HostInv(View()) && teardowns == serving.Keys
    }

    constructor ()
      ensures Valid() && View() == Host(map[], map[])
    {
      teardowns, peerCounts, serving := {}, map[], map[];
      new;
      forall p ensures |SessionsOf(map[], p)| == 0 { assert SessionsOf(map[], p) == {}; }
    }

    /** The head of `_serve_shell`, up to its first await. */
    method BeginSession(id: SessionId, remote: NodeId) returns (accepted: bool)
      requires Valid() && id !in teardowns
      modifies this
      ensures Valid()
      ensures View() == HostApply(old(View()), Begin(id, remote))
      ensures accepted <==>
        old(|teardowns|) < SHELL_MAX_SESSIONS && |SessionsOf(old(serving), remote)| < SHELL_MAX_PER_PEER
    {
      BeginKeeps(View(), id, remote);
      CapsCountSessions(View(), remote);
      if |teardowns| >= SHELL_MAX_SESSIONS {
        return false;
      }
      if Get(peerCounts, remote, 0) >= SHELL_MAX_PER_PEER {
        return false;
      }
      teardowns := teardowns + {id};
      peerCounts := peerCounts[remote := Get(peerCounts, remote, 0) + 1];
      serving := serving[id := remote];
      accepted := true;
    }

    /** The bookkeeping of the `finally` block. */
    method EndSession(id: SessionId, remote: NodeId)
      requires Valid() && id in teardowns && serving[id] == remote
      modifies this
      ensures Valid()
      ensures View() == HostApply(old(View()), End(id))
    {
      EndKeeps(View(), id);
      teardowns := teardowns - {id};
      peerCounts := peerCounts[remote := Max(0, Get(peerCounts, remote, 1) - 1)];
      if peerCounts[remote] == 0 {
        peerCounts := peerCounts - {remote};
      }
      serving := serving - {id};
      assert peerCounts == AfterEnd(old(peerCounts), remote);
    }
  }

  // ------------------------------------------------------------------- client

  datatype Phase = Open | Closing | Released

  /** The semaphore's value, the opens between acquire and success or failure, and every session ever handed out. */
  datatype Client = Client(permits: nat, opening: nat, sessions: map<SessionId, Phase>)

  datatype ClientStep =
    | Acquire
    | OpenFails
    | OpenSucceeds(id: SessionId)
    | CloseStarts(id: SessionId)      // one run of `_aclose` reaches its `_closed` test
    | CloseEnds(id: SessionId)        // the run that passed the test reaches `release()`

  ghost predicate ClientEnabled(c: Client, s: ClientStep) {
    match s
    case Acquire => c.permits > 0
    case OpenFails => c.opening > 0
    case OpenSucceeds(id) => c.opening > 0 && id !in c.sessions
    case CloseStarts(id) => id in c.sessions
    case CloseEnds(id) => id in c.sessions && c.sessions[id] == Closing
  }

  function ClientApply(c: Client, s: ClientStep): Client
    requires ClientEnabled(c, s)
  {
    match s
    case Acquire => c.(permits := c.permits - 1, opening := c.opening + 1)
    case OpenFails => c.(permits := c.permits + 1, opening := c.opening - 1)
    case OpenSucceeds(id) => c.(opening := c.opening - 1, sessions := c.sessions[id := Open])
    case CloseStarts(id) => if c.sessions[id] == Open then c.(sessions := c.sessions[id := Closing]) else c
    case CloseEnds(id) => c.(permits := c.permits + 1, sessions := c.sessions[id := Released])
  }

  ghost function Unreleased(c: Client): set<SessionId> {
    set id | id in c.sessions && c.sessions[id] != Released
  }

  ghost predicate ClientInv(c: Client) {
    c.permits + c.opening + |Unreleased(c)| == SHELL_MAX_SESSIONS
  }

  lemma ClientStepKeeps(c: Client, s: ClientStep)
    requires ClientInv(c) && ClientEnabled(c, s)
    ensures ClientInv(ClientApply(c, s))
  {
    var d := ClientApply(c, s);
    match s
    case Acquire =>
    case OpenFails =>
    case OpenSucceeds(id) => assert Unreleased(d) == Unreleased(c) + {id};
    case CloseStarts(id) => assert Unreleased(d) == Unreleased(c);
    case CloseEnds(id) => assert id in Unreleased(c) && Unreleased(d) == Unreleased(c) - {id};
  }

  ghost predicate ClientRun(c: Client, steps: seq<ClientStep>, last: Client)
    decreases |steps|
  {
    if steps == [] then c == last else
      ClientEnabled(c, steps[0]) && ClientRun(ClientApply(c, steps[0]), steps[1..], last)
  }

  lemma {:induction false} ClientRunKeeps(c: Client, steps: seq<ClientStep>, last: Client)
    requires ClientInv(c) && ClientRun(c, steps, last)
    ensures ClientInv(last)
    decreases |steps|
  {
    if steps != [] {
      ClientStepKeeps(c, steps[0]);
      ClientRunKeeps(ClientApply(c, steps[0]), steps[1..], last);
    }
  }

  /** Free permits, opens in flight and sessions not yet released always add up to 4, however often each
      session is asked to close; so at most 4 sessions are open and no permit is released twice. */
  lemma PermitConservation(steps: seq<ClientStep>, c: Client)
    requires ClientRun(Client(SHELL_MAX_SESSIONS, 0, map[]), steps, c)
    ensures c.permits + c.opening + |Unreleased(c)| == SHELL_MAX_SESSIONS
  {
    var start := Client(SHELL_MAX_SESSIONS, 0, map[]);
    assert Unreleased(start) == {};
    ClientRunKeeps(start, steps, c);
  }

  /** The engine's semaphore and session set, and each session's `_closed` flag. */
  class ShellClient {
    var permits: nat
    var shellSessions: set<SessionId>
    var closed: map<SessionId, bool>
    ghost var opening: nat
    ghost var phases: map<SessionId, Phase>

    ghost function View(): Client
      reads this
    {
      Client(permits, opening, phases)
    }

    ghost predicate Valid()
      reads this
    {
      && ClientInv(View())
      && shellSessions == Unreleased(View())
      && closed.Keys == phases.Keys
      && forall id :: id in phases ==> closed[id] == (phases[id] != Open)
    }

    constructor ()
      ensures Valid() && View() == Client(SHELL_MAX_SESSIONS, 0, map[])
    {
      permits, shellSessions, closed := SHELL_MAX_SESSIONS, {}, map[];
      opening, phases := 0, map[];
      new;
      assert Unreleased(View()) == {};
    }

    /** `open_peer_shell` up to its permit. */
    method BeginOpen()
      requires Valid() && permits > 0
      modifies this
      ensures Valid() && View() == ClientApply(old(View()), Acquire)
    {
      ClientStepKeeps(View(), Acquire);
      permits, opening := permits - 1, opening + 1;
      assert Unreleased(View()) == shellSessions;
    }

    /** The connect or a stream failed or timed out. */
    method AbandonOpen()
      requires Valid() && opening > 0
      modifies this
      ensures Valid() && View() == ClientApply(old(View()), OpenFails)
    {
      ClientStepKeeps(View(), OpenFails);
      permits, opening := permits + 1, opening - 1;
      assert Unreleased(View()) == shellSessions;
    }

    method FinishOpen(id: SessionId)
      requires Valid() && opening > 0 && id !in closed
      modifies this
      ensures Valid() && View() == ClientApply(old(View()), OpenSucceeds(id))
    {
      ClientStepKeeps(View(), OpenSucceeds(id));
      shellSessions, closed := shellSessions + {id}, closed[id := false];
      opening, phases := opening - 1, phases[id := Open];
      assert Unreleased(View()) == shellSessions;
    }

    /** `_aclose` up to its first await: only the first run of a session goes on. */
    method BeginClose(id: SessionId) returns (goesOn: bool)
      requires Valid() && id in closed
      modifies this
      ensures Valid() && View() == ClientApply(old(View()), CloseStarts(id))
      ensures goesOn <==> old(phases)[id] == Open
    {
      ClientStepKeeps(View(), CloseStarts(id));
      if closed[id] {
        return false;
      }
      closed := closed[id := true];
      phases := phases[id := Closing];
      assert Unreleased(View()) == shellSessions;
      goesOn := true;
    }

    /** The end of the run that went on. */
    method FinishClose(id: SessionId)
      requires Valid() && id in phases && phases[id] == Closing
      modifies this
      ensures Valid() && View() == ClientApply(old(View()), CloseEnds(id))
    {
      ClientStepKeeps(View(), CloseEnds(id));
      shellSessions := shellSessions - {id};
      permits := permits + 1;
      phases := phases[id := Released];
      assert Unreleased(View()) == shellSessions;
    }
  }
}
