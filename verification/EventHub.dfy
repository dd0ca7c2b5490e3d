/**
 The websocket event hub of core/internal/server/node_events.go. `clients` and `pending` are guarded by
 one mutex; client channels hold eight messages, reply channels one. Clients and requests are numbered.
 */
module EventHub {
  import opened Wrappers

  const CLIENT_CAPACITY := 8

  datatype Chan = Chan(buffer: seq<string>, closed: bool)

  predicate HasRoom(ch: Chan) {
    |ch.buffer| < CLIENT_CAPACITY
  }

  function RequestKey(nodeID: string, requestID: string): string {
    nodeID + "\0" + requestID
  }

  function ClientsOf(clients: map<string, set<nat>>, nodeID: string): set<nat> {
    if nodeID in clients then clients[nodeID] else {}
  }

  function Registered(clients: map<string, set<nat>>, nodeID: string, client: nat): map<string, set<nat>> {
    clients[nodeID := ClientsOf(clients, nodeID) + {client}]
  }

  function Unregistered(clients: map<string, set<nat>>, nodeID: string, client: nat): map<string, set<nat>> {
    var left := ClientsOf(clients, nodeID) - {client};
    if nodeID !in clients then clients
    else if left == {} then clients - {nodeID}
    else clients[nodeID := left]
  }

  /** The target channels that can take one more message. */
  function Receivers(chans: map<nat, Chan>, targets: set<nat>): set<nat> {
    set c | c in targets && c in chans && HasRoom(chans[c])
  }

  /** A non-blocking send to every target. */
  function Deliver(chans: map<nat, Chan>, targets: set<nat>, payload: string): map<nat, Chan> {
    map c | c in chans ::
      if c in Receivers(chans, targets) then chans[c].(buffer := chans[c].buffer + [payload]) else chans[c]
  }

  /** Go panics on a send to a closed channel. */
  predicate AllOpen(chans: map<nat, Chan>, targets: set<nat>) {
    forall c :: c in targets ==> c in chans && !chans[c].closed
  }

  class Hub {
    var clients: map<string, set<nat>>
    var pending: map<string, nat>
    var chans: map<nat, Chan>

    constructor ()
      ensures clients == map[] && pending == map[] && chans == map[]
    {
      clients, pending, chans := map[], map[], map[];
    }

    method register(nodeID: string, client: nat)
      modifies this`clients, this`chans
      ensures clients == Registered(old(clients), nodeID, client)
      ensures chans == old(chans)[client := Chan([], false)]
    {
      chans := chans[client := Chan([], false)];
      if nodeID !in clients {
        clients := clients[nodeID := {}];
      }
      clients := clients[nodeID := clients[nodeID] + {client}];
    }

    /** The critical section of the function that `register` returns. */
    method unregister(nodeID: string, client: nat)
      modifies this`clients
      ensures clients == Unregistered(old(clients), nodeID, client)
    {
      if nodeID in clients {
        clients := clients[nodeID := clients[nodeID] - {client}];
        if |clients[nodeID]| == 0 {
          clients := clients - {nodeID};
        }
      }
    }

    /** Clients are visited in an arbitrary order; full channels are skipped. */
    method broadcast(nodeID: string, payload: string) returns (count: nat)
      requires AllOpen(chans, ClientsOf(clients, nodeID))
      modifies this`chans
      ensures chans == Deliver(old(chans), ClientsOf(clients, nodeID), payload)
      ensures count == |Receivers(old(chans), ClientsOf(clients, nodeID))|
    {
      count := 0;
      var left := if nodeID in clients then clients[nodeID] else {};
      ghost var targets := left;
      ghost var before := chans;
      while left != {}
        invariant left <= targets
        invariant chans.Keys == before.Keys
        invariant chans == Deliver(before, targets - left, payload)
        invariant forall c :: c in left ==> c in chans && chans[c] == before[c]
        invariant count == |Receivers(before, targets - left)|
        decreases left
      {
        var client :| client in left;
        assert before[client] == chans[client];
        if HasRoom(chans[client]) {
          chans := chans[client := chans[client].(buffer := chans[client].buffer + [payload])];
          count := count + 1;
          assert Receivers(before, targets - (left - {client})) == Receivers(before, targets - left) + {client};
        } else {
          assert Receivers(before, targets - (left - {client})) == Receivers(before, targets - left);
        }
        left := left - {client};
      }
      assert targets - left == targets;
    }

    /** The critical section of `request`: `None` when no client took the message. */
    method startRequest(nodeID: string, requestID: string, channel: nat, payload: string) returns (delivered: nat)
      requires AllOpen(chans, ClientsOf(clients, nodeID))
      modifies this`pending, this`chans
      ensures chans == Deliver(old(chans), ClientsOf(clients, nodeID), payload)
      ensures delivered == |Receivers(old(chans), ClientsOf(clients, nodeID))|
      ensures pending == if delivered == 0 then old(pending) - {RequestKey(nodeID, requestID)}
                         else old(pending)[RequestKey(nodeID, requestID) := channel]
    {
      var key := RequestKey(nodeID, requestID);
      ghost var before := pending;
      pending := pending[key := channel];
      delivered := broadcast(nodeID, payload);
      if delivered == 0 {
        pending := pending - {key};
        assert pending == before - {key};
      }
    }
  }

  // ------------------------------------------------------------------ all interleavings

  /**
   The life of one websocket connection: registered; about to send its own "sync" message, which blocks while
   the channel is full; in the loop that drains the channel; unregistered; closed.
   */
  datatype Conn = Joined(nodeID: string) | Greeting(nodeID: string) | Serving(nodeID: string) | Leaving(nodeID: string) | Gone

  predicate IsLive(conn: Conn, nodeID: string) {
    conn == Joined(nodeID) || conn == Greeting(nodeID) || conn == Serving(nodeID)
  }

  /** What a `resolve` sent: the ids it was called with travel along so that replies can be traced. */
  datatype Reply = Reply(nodeID: string, requestID: string, payload: string)

  /** `Returning` is between the `select` and the deferred delete. */
  datatype Phase = Waiting | Returning(result: Option<Reply>) | Returned(result: Option<Reply>)

  datatype Asked = Asked(nodeID: string, requestID: string, phase: Phase)

  /** A `resolve` between its lookup and its send. */
  datatype Resolver = Resolver(reply: Reply, channel: nat)

  datatype World = World(clients: map<string, set<nat>>, pending: map<string, nat>, chans: map<nat, Chan>,
                         conns: map<nat, Conn>, asked: map<nat, Asked>, replies: map<nat, Reply>,
                         resolvers: map<nat, Resolver>, resolved: set<Reply>)

  const START := World(map[], map[], map[], map[], map[], map[], map[], {})

  datatype Step =
    | Register(c: nat, nodeID: string)
    | Unregister(c: nat)
    | CloseClient(c: nat)
    | Prepare(c: nat, ok: bool)            // the "sync" message is made, or left out after an error
    | OwnSend(c: nat, payload: string)
    | Drain(c: nat)
    | Broadcast(nodeID: string, payload: string)
    | Ask(r: nat, nodeID: string, requestID: string, payload: string)
    | TakeReply(r: nat)
    | GiveUp(r: nat)
    | CleanUp(r: nat)
    | Lookup(t: nat, reply: Reply)
    | Send(t: nat)

  predicate Enabled(w: World, s: Step) {
    match s
    case Register(c, _) => c !in w.conns
    case Unregister(c) => c in w.conns && w.conns[c].Serving?
    case CloseClient(c) => c in w.conns && w.conns[c].Leaving?
    case Prepare(c, _) => c in w.conns && w.conns[c].Joined?
    case OwnSend(c, _) => c in w.conns && w.conns[c].Greeting? && c in w.chans && HasRoom(w.chans[c])
    case Drain(c) => c in w.conns && w.conns[c].Serving? && c in w.chans && w.chans[c].buffer != []
    case Broadcast(_, _) => true
    case Ask(r, _, _, _) => r !in w.asked
    case TakeReply(r) => r in w.asked && w.asked[r].phase.Waiting? && r in w.replies
    case GiveUp(r) => r in w.asked && w.asked[r].phase.Waiting?
    case CleanUp(r) => r in w.asked && w.asked[r].phase.Returning?
    case Lookup(t, _) => t !in w.resolvers
    case Send(t) => t in w.resolvers
  }

  function KeyOf(a: Asked): string {
    RequestKey(a.nodeID, a.requestID)
  }

  function Ask1(w: World, r: nat, nodeID: string, requestID: string, payload: string): World {
    if nodeID == "" || requestID == "" then
      w.(asked := w.asked[r := Asked(nodeID, requestID, Returned(None))])
    else
      var targets := ClientsOf(w.clients, nodeID);
      var key := RequestKey(nodeID, requestID);
      var chans := Deliver(w.chans, targets, payload);
      if Receivers(w.chans, targets) == {} then
        w.(chans := chans, pending := w.pending - {key}, asked := w.asked[r := Asked(nodeID, requestID, Returned(None))])
      else
        w.(chans := chans, pending := w.pending[key := r], asked := w.asked[r := Asked(nodeID, requestID, Waiting)])
  }

  function Next(w: World, s: Step): World
    requires Enabled(w, s)
  {
    match s
    case Register(c, nodeID) =>
      w.(clients := Registered(w.clients, nodeID, c), chans := w.chans[c := Chan([], false)], conns := w.conns[c := Joined(nodeID)])
    case Unregister(c) =>
      w.(clients := Unregistered(w.clients, w.conns[c].nodeID, c), conns := w.conns[c := Leaving(w.conns[c].nodeID)])
    case CloseClient(c) =>
      w.(chans := if c in w.chans then w.chans[c := w.chans[c].(closed := true)] else w.chans, conns := w.conns[c := Gone])
    case Prepare(c, ok) =>
      w.(conns := w.conns[c := if ok then Greeting(w.conns[c].nodeID) else Serving(w.conns[c].nodeID)])
    case OwnSend(c, payload) =>
      w.(chans := w.chans[c := w.chans[c].(buffer := w.chans[c].buffer + [payload])],
         conns := w.conns[c := Serving(w.conns[c].nodeID)])
    case Drain(c) => w.(chans := w.chans[c := w.chans[c].(buffer := w.chans[c].buffer[1..])])
    case Broadcast(nodeID, payload) => w.(chans := Deliver(w.chans, ClientsOf(w.clients, nodeID), payload))
    case Ask(r, nodeID, requestID, payload) => Ask1(w, r, nodeID, requestID, payload)
    case TakeReply(r) =>
      w.(asked := w.asked[r := w.asked[r].(phase := Returning(Some(w.replies[r])))], replies := w.replies - {r})
    case GiveUp(r) => w.(asked := w.asked[r := w.asked[r].(phase := Returning(None))])
    case CleanUp(r) =>
      w.(pending := w.pending - {KeyOf(w.asked[r])}, asked := w.asked[r := w.asked[r].(phase := Returned(w.asked[r].phase.result))])
    case Lookup(t, reply) =>
      var key := RequestKey(reply.nodeID, reply.requestID);
      if reply.nodeID == "" || reply.requestID == "" || key !in w.pending then w
      else w.(resolvers := w.resolvers[t := Resolver(reply, w.pending[key])])
    case Send(t) =>
      var x := w.resolvers[t];
      if x.channel in w.replies then w.(resolvers := w.resolvers - {t})
      else w.(resolvers := w.resolvers - {t}, replies := w.replies[x.channel := x.reply], resolved := w.resolved + {x.reply})
  }

  predicate Legal(w: World, steps: seq<Step>)
    decreases |steps|
  {
    steps != [] ==> Enabled(w, steps[0]) && Legal(Next(w, steps[0]), steps[1..])
  }

  function Run(w: World, steps: seq<Step>): World
    requires Legal(w, steps)
    decreases |steps|
  {
    if steps == [] then w else Run(Next(w, steps[0]), steps[1..])
  }

  // ------------------------------------------------------------------ client channels

  /** A client in the table is live, registered under its own node, and its channel is open. */
  ghost predicate ClientsOpen(w: World) {
    && (forall n :: n in w.clients ==> w.clients[n] != {})
    && (forall n, c :: n in w.clients && c in w.clients[n] ==> c in w.conns && IsLive(w.conns[c], n))
    && (forall c :: c in w.conns && !w.conns[c].Gone? ==> c in w.chans && !w.chans[c].closed)
  }

  /** `after` has the same channels as `before`, none newly closed. */
  ghost predicate KeepsOpen(before: map<nat, Chan>, after: map<nat, Chan>) {
    forall c :: c in before ==> c in after && after[c].closed == before[c].closed
  }

  lemma RegisterKeepsOpen(w: World, s: Step)
    requires ClientsOpen(w) && Enabled(w, s) && s.Register?
    ensures ClientsOpen(Next(w, s))
  {
    var v := Next(w, s);
    forall n, c | n in v.clients && c in v.clients[n]
      ensures c in v.conns && IsLive(v.conns[c], n)
    {
      assert c == s.c || (n in w.clients && c in w.clients[n]);
    }
  }

  lemma UnregisterKeepsOpen(w: World, s: Step)
    requires ClientsOpen(w) && Enabled(w, s) && s.Unregister?
    ensures ClientsOpen(Next(w, s))
  {
    var v := Next(w, s);
    forall n, c | n in v.clients && c in v.clients[n]
      ensures c in v.conns && IsLive(v.conns[c], n)
    {
      assert n in w.clients && c in w.clients[n] && c != s.c;
    }
  }

  lemma CloseKeepsOpen(w: World, s: Step)
    requires ClientsOpen(w) && Enabled(w, s) && s.CloseClient?
    ensures ClientsOpen(Next(w, s))
  {
  }

  /** `after` has the same connections as `before`, each as live as it was. */
  ghost predicate SameLives(before: map<nat, Conn>, after: map<nat, Conn>) {
    forall c :: c in after ==>
      c in before && (before[c].Gone? ==> after[c].Gone?)
      && forall n :: IsLive(before[c], n) ==> IsLive(after[c], n)
  }

  lemma SameTableKeepsOpen(w: World, v: World)
    requires ClientsOpen(w) && v.clients == w.clients && KeepsOpen(w.chans, v.chans)
    requires v.conns.Keys == w.conns.Keys && SameLives(w.conns, v.conns)
    ensures ClientsOpen(v)
  {
    forall n, c | n in v.clients && c in v.clients[n]
      ensures c in v.conns && IsLive(v.conns[c], n)
    {
      assert n in w.clients && c in w.clients[n];
    }
  }

  lemma OtherStepsKeepTable(w: World, s: Step)
    requires Enabled(w, s) && !s.Register? && !s.Unregister? && !s.CloseClient?
    ensures var v := Next(w, s); v.clients == w.clients && KeepsOpen(w.chans, v.chans)
    ensures Next(w, s).conns.Keys == w.conns.Keys && SameLives(w.conns, Next(w, s).conns)
  {
    if s.Broadcast? {
      DeliverKeepsOpen(w.chans, ClientsOf(w.clients, s.nodeID), s.payload);
    } else if s.Ask? {
      DeliverKeepsOpen(w.chans, ClientsOf(w.clients, s.nodeID), s.payload);
      AskKeepsTable(w, s);
    }
  }

  lemma DeliverKeepsOpen(chans: map<nat, Chan>, targets: set<nat>, payload: string)
    ensures KeepsOpen(chans, Deliver(chans, targets, payload))
  {
  }

  lemma AskKeepsTable(w: World, s: Step)
    requires Enabled(w, s) && s.Ask?
    ensures var v := Next(w, s); v.clients == w.clients && v.conns == w.conns
    ensures Next(w, s).chans == w.chans || Next(w, s).chans == Deliver(w.chans, ClientsOf(w.clients, s.nodeID), s.payload)
  {
    Ask1KeepsTable(w, s.r, s.nodeID, s.requestID, s.payload);
    assert Next(w, s) == Ask1(w, s.r, s.nodeID, s.requestID, s.payload);
  }

  lemma Ask1KeepsTable(w: World, r: nat, nodeID: string, requestID: string, payload: string)
    ensures var v := Ask1(w, r, nodeID, requestID, payload);
            && v.clients == w.clients && v.conns == w.conns
            && (v.chans == w.chans || v.chans == Deliver(w.chans, ClientsOf(w.clients, nodeID), payload))
  {
    var v := Ask1(w, r, nodeID, requestID, payload);
    if nodeID == "" || requestID == "" {
      assert v.chans == w.chans;
    } else if Receivers(w.chans, ClientsOf(w.clients, nodeID)) == {} {
      assert v.chans == Deliver(w.chans, ClientsOf(w.clients, nodeID), payload);
    } else {
      assert v.chans == Deliver(w.chans, ClientsOf(w.clients, nodeID), payload);
    }
  }

  lemma StepKeepsClientsOpen(w: World, s: Step)
    requires ClientsOpen(w) && Enabled(w, s)
    ensures ClientsOpen(Next(w, s))
  {
    if s.Register? {
      RegisterKeepsOpen(w, s);
    } else if s.Unregister? {
      UnregisterKeepsOpen(w, s);
    } else if s.CloseClient? {
      CloseKeepsOpen(w, s);
    } else {
      OtherStepsKeepTable(w, s);
      SameTableKeepsOpen(w, Next(w, s));
    }
  }

  /** The targets of a step that sends to client channels. */
  function TargetsOf(w: World, s: Step): set<nat> {
    match s
    case Broadcast(nodeID, _) => ClientsOf(w.clients, nodeID)
    case Ask(_, nodeID, _, _) => ClientsOf(w.clients, nodeID)
    case OwnSend(c, _) => {c}
    case _ => {}
  }

  lemma {:induction false} ClientsOpenHolds(w: World, steps: seq<Step>)
    requires ClientsOpen(w) && Legal(w, steps)
    ensures ClientsOpen(Run(w, steps))
    decreases |steps|
  {
    if steps != [] {
      StepKeepsClientsOpen(w, steps[0]);
      ClientsOpenHolds(Next(w, steps[0]), steps[1..]);
    }
  }

  /** In every interleaving, no send goes to a closed channel, and no channel is closed twice. */
  lemma NoSendAfterClose(steps: seq<Step>, s: Step)
    requires Legal(START, steps) && Enabled(Run(START, steps), s)
    ensures AllOpen(Run(START, steps).chans, TargetsOf(Run(START, steps), s))
    ensures s.CloseClient? ==> s.c in Run(START, steps).chans && !Run(START, steps).chans[s.c].closed
  {
    ClientsOpenHolds(START, steps);
  }

  // ------------------------------------------------------------------ replies

  predicate NulFree(s: string) {
    '\0' !in s
  }

  /** Keys of NUL-free node ids determine both ids. */
  lemma KeyIsInjective(n1: string, r1: string, n2: string, r2: string)
    requires NulFree(n1) && NulFree(n2)
    ensures RequestKey(n1, r1) == RequestKey(n2, r2) <==> n1 == n2 && r1 == r2
  {
    var a, b := RequestKey(n1, r1), RequestKey(n2, r2);
    if a == b {
      assert a[|n1|] == '\0' && b[|n2|] == '\0';
      assert forall i :: 0 <= i < |n1| ==> a[i] == n1[i];
      assert forall i :: 0 <= i < |n2| ==> b[i] == n2[i];
      assert |n1| == |n2|;
      assert n1 == a[..|n1|] && n2 == b[..|n2|] && r1 == a[|n1| + 1..] && r2 == b[|n2| + 1..];
    }
  }

  /** One id continues the other behind a NUL, or they are the same. */
  predicate KeysMayMeet(n1: string, n2: string) {
    n1 == n2 || n1 + "\0" <= n2 || n2 + "\0" <= n1
  }

  lemma EqualKeysMeet(n1: string, r1: string, n2: string, r2: string)
    requires RequestKey(n1, r1) == RequestKey(n2, r2) && |n1| <= |n2|
    ensures n1 == n2 || n1 + "\0" <= n2
    ensures n1 == n2 ==> r1 == r2
  {
    var a := RequestKey(n1, r1);
    assert a[..|n1|] == n1 && a[|n1|] == '\0' && a[|n1| + 1..] == r1;
    var b := RequestKey(n2, r2);
    assert b[..|n2|] == n2 && b[|n2| + 1..] == r2;
    if |n1| < |n2| {
      assert n1 + "\0" == a[..|n1| + 1];
      assert b[..|n1| + 1] == n2[..|n1| + 1];
    }
  }

  lemma MeetingIds(n1: string, n2: string) returns (r1: string, r2: string)
    requires n1 == n2 || n1 + "\0" <= n2
    ensures RequestKey(n1, r1) == RequestKey(n2, r2)
  {
    if n1 == n2 {
      r1, r2 := "", "";
    } else {
      r1, r2 := n2[|n1| + 1..] + "\0", "";
      assert n2 == n1 + "\0" + n2[|n1| + 1..];
      assert n1 + "\0" + (n2[|n1| + 1..] + "\0") == n2 + "\0" + "";
    }
  }

  /**
   Two node ids have requests with one key exactly when they are the same or one continues the other behind a
   NUL; for one node id the request ids then agree.
   */
  lemma KeysCollideIff(n1: string, n2: string)
    ensures (exists r1, r2 :: RequestKey(n1, r1) == RequestKey(n2, r2)) <==> KeysMayMeet(n1, n2)
    ensures forall r1, r2 :: RequestKey(n1, r1) == RequestKey(n1, r2) ==> r1 == r2
  {
    forall r1, r2 | RequestKey(n1, r1) == RequestKey(n2, r2)
      ensures KeysMayMeet(n1, n2)
    {
      if |n1| <= |n2| {
        EqualKeysMeet(n1, r1, n2, r2);
      } else {
        EqualKeysMeet(n2, r2, n1, r1);
      }
    }
    forall r1, r2 | RequestKey(n1, r1) == RequestKey(n1, r2)
      ensures r1 == r2
    {
      EqualKeysMeet(n1, r1, n1, r2);
    }
    if n1 == n2 || n1 + "\0" <= n2 {
      var r1, r2 := MeetingIds(n1, n2);
    } else if n2 + "\0" <= n1 {
      var r2, r1 := MeetingIds(n2, n1);
    }
  }

  predicate InFlight(a: Asked) {
    !a.phase.Returned?
  }

  function KeyOfReply(reply: Reply): string {
    RequestKey(reply.nodeID, reply.requestID)
  }

  /** Every channel number leads to a request with the key under which it was found. */
  ghost predicate RepliesMatch(w: World) {
    && (forall k :: k in w.pending ==> w.pending[k] in w.asked && KeyOf(w.asked[w.pending[k]]) == k && InFlight(w.asked[w.pending[k]]))
    && (forall t :: t in w.resolvers ==>
          w.resolvers[t].channel in w.asked && KeyOf(w.asked[w.resolvers[t].channel]) == KeyOfReply(w.resolvers[t].reply))
    && (forall r :: r in w.replies ==>
          r in w.asked && KeyOf(w.asked[r]) == KeyOfReply(w.replies[r]) && w.replies[r] in w.resolved)
    && (forall r :: r in w.asked && !w.asked[r].phase.Waiting? && w.asked[r].phase.result.Some? ==>
          KeyOf(w.asked[r]) == KeyOfReply(w.asked[r].phase.result.value) && w.asked[r].phase.result.value in w.resolved)
  }

  /** A new request without a reply, found under its key or not, disturbs nobody else's reply. */
  lemma NewRequestKeepsReplies(w: World, v: World, r: nat, a: Asked)
    requires RepliesMatch(w) && r !in w.asked && (a.phase.Waiting? || a.phase == Returned(None))
    requires v.asked == w.asked[r := a] && v.replies == w.replies && v.resolvers == w.resolvers && v.resolved == w.resolved
    requires forall k :: k in v.pending ==>
               (k in w.pending && v.pending[k] == w.pending[k]) || (v.pending[k] == r && k == KeyOf(a) && a.phase.Waiting?)
    ensures RepliesMatch(v)
  {
    forall k | k in v.pending
      ensures v.pending[k] in v.asked && KeyOf(v.asked[v.pending[k]]) == k && InFlight(v.asked[v.pending[k]])
    {
      if k in w.pending && v.pending[k] == w.pending[k] {
        assert v.asked[v.pending[k]] == w.asked[w.pending[k]];
      }
    }
  }

  lemma AskChanges(w: World, s: Step)
    requires Enabled(w, s) && s.Ask?
    ensures var v := Next(w, s); var a := Asked(s.nodeID, s.requestID, v.asked[s.r].phase);
            && v.asked == w.asked[s.r := a] && (a.phase.Waiting? || a.phase == Returned(None))
            && v.replies == w.replies && v.resolvers == w.resolvers && v.resolved == w.resolved
            && (v.pending == w.pending || v.pending == w.pending - {KeyOf(a)}
                || (v.pending == w.pending[KeyOf(a) := s.r] && a.phase.Waiting?))
  {
    var v := Next(w, s);
    if s.nodeID == "" || s.requestID == "" {
      assert v == w.(asked := w.asked[s.r := Asked(s.nodeID, s.requestID, Returned(None))]);
    } else if Receivers(w.chans, ClientsOf(w.clients, s.nodeID)) == {} {
      assert v.asked == w.asked[s.r := Asked(s.nodeID, s.requestID, Returned(None))];
    } else {
      assert v.asked == w.asked[s.r := Asked(s.nodeID, s.requestID, Waiting)];
    }
  }

  lemma AskKeepsReplies(w: World, s: Step)
    requires RepliesMatch(w) && Enabled(w, s) && s.Ask?
    ensures RepliesMatch(Next(w, s))
  {
    AskChanges(w, s);
    NewRequestKeepsReplies(w, Next(w, s), s.r, Next(w, s).asked[s.r]);
  }

  lemma PhaseKeepsReplies(w: World, s: Step)
    requires RepliesMatch(w) && Enabled(w, s) && (s.TakeReply? || s.GiveUp?)
    ensures RepliesMatch(Next(w, s))
  {
    if s.TakeReply? {
      TakeKeepsReplies(w, s);
    } else {
      GiveUpKeepsReplies(w, s);
    }
  }

  lemma TakeKeepsReplies(w: World, s: Step)
    requires RepliesMatch(w) && Enabled(w, s) && s.TakeReply?
    ensures RepliesMatch(Next(w, s))
  {
  }

  lemma GiveUpKeepsReplies(w: World, s: Step)
    requires RepliesMatch(w) && Enabled(w, s) && s.GiveUp?
    ensures RepliesMatch(Next(w, s))
  {
  }

  lemma CleanUpKeepsReplies(w: World, s: Step)
    requires RepliesMatch(w) && Enabled(w, s) && s.CleanUp?
    ensures RepliesMatch(Next(w, s))
  {
  }

  lemma ResolveKeepsReplies(w: World, s: Step)
    requires RepliesMatch(w) && Enabled(w, s) && (s.Lookup? || s.Send?)
    ensures RepliesMatch(Next(w, s))
  {
  }

  lemma StepKeepsReplies(w: World, s: Step)
    requires RepliesMatch(w) && Enabled(w, s)
    ensures RepliesMatch(Next(w, s))
  {
    match s
    case Ask(_, _, _, _) => AskKeepsReplies(w, s);
    case TakeReply(_) => PhaseKeepsReplies(w, s);
    case GiveUp(_) => PhaseKeepsReplies(w, s);
    case CleanUp(_) => CleanUpKeepsReplies(w, s);
    case Lookup(_, _) => ResolveKeepsReplies(w, s);
    case Send(_) => ResolveKeepsReplies(w, s);
    case _ =>
      var v := Next(w, s);
      assert v.pending == w.pending && v.asked == w.asked && v.replies == w.replies && v.resolvers == w.resolvers
          && v.resolved == w.resolved;
  }

  lemma {:induction false} RepliesMatchHolds(w: World, steps: seq<Step>)
    requires RepliesMatch(w) && Legal(w, steps)
    ensures RepliesMatch(Run(w, steps))
    decreases |steps|
  {
    if steps != [] {
      StepKeepsReplies(w, steps[0]);
      RepliesMatchHolds(Next(w, steps[0]), steps[1..]);
    }
  }

  /**
   A reply that `request` returns was sent by a `resolve` whose ids give the same key: for the same node and
   request, unless one node id continues the other behind a NUL.
   */
  lemma RepliesComeFromTheirResolve(steps: seq<Step>, r: nat)
    requires Legal(START, steps)
    requires var w := Run(START, steps); r in w.asked && w.asked[r].phase.Returned? && w.asked[r].phase.result.Some?
    ensures var a := Run(START, steps).asked[r]; var reply := a.phase.result.value;
            && reply in Run(START, steps).resolved
            && KeyOf(a) == KeyOfReply(reply)
            && ((reply.nodeID == a.nodeID && reply.requestID == a.requestID)
                || (reply.nodeID != a.nodeID && KeysMayMeet(a.nodeID, reply.nodeID)))
            && (NulFree(a.nodeID) && NulFree(reply.nodeID) ==> reply.nodeID == a.nodeID && reply.requestID == a.requestID)
  {
    RepliesMatchHolds(START, steps);
    var a := Run(START, steps).asked[r];
    var reply := a.phase.result.value;
    KeysCollideIff(a.nodeID, reply.nodeID);
    if NulFree(a.nodeID) && NulFree(reply.nodeID) {
      KeyIsInjective(a.nodeID, a.requestID, reply.nodeID, reply.requestID);
    }
  }

  /** With nothing in flight the pending table is empty, whether or not request ids were unique. */
  lemma PendingDrains(steps: seq<Step>)
    requires Legal(START, steps)
    requires forall r :: r in Run(START, steps).asked ==> !InFlight(Run(START, steps).asked[r])
    ensures Run(START, steps).pending == map[]
  {
    RepliesMatchHolds(START, steps);
    var w := Run(START, steps);
    assert w.pending.Keys == {};
  }

  // ------------------------------------------------------------------ waiting requests

  /** Every waiting request is found under its key. */
  ghost predicate WaitersFound(w: World) {
    forall r :: r in w.asked && w.asked[r].phase.Waiting? ==>
      KeyOf(w.asked[r]) in w.pending && w.pending[KeyOf(w.asked[r])] == r
  }

  /** Every request in flight, waiting or cleaning up, is found under its key. */
  ghost predicate InFlightFound(w: World) {
    forall r :: r in w.asked && InFlight(w.asked[r]) ==>
      KeyOf(w.asked[r]) in w.pending && w.pending[KeyOf(w.asked[r])] == r
  }

  /** The entry of the key belongs to a waiting request. */
  predicate HeldByWaiter(w: World, key: string) {
    key in w.pending && w.pending[key] in w.asked && w.asked[w.pending[key]].phase.Waiting?
  }

  /** A step that writes or deletes the entry of a waiting request. */
  predicate TakesEntry(w: World, s: Step)
    requires Enabled(w, s)
  {
    match s
    case Ask(_, nodeID, requestID, _) => nodeID != "" && requestID != "" && HeldByWaiter(w, RequestKey(nodeID, requestID))
    case CleanUp(r) => HeldByWaiter(w, KeyOf(w.asked[r]))
    case _ => false
  }

  /** A request whose key is already in the table; `request` could see that under its mutex. */
  predicate ReusesKey(w: World, s: Step) {
    s.Ask? && s.nodeID != "" && s.requestID != "" && RequestKey(s.nodeID, s.requestID) in w.pending
  }

  /** The table after an `Ask` of `key`: unchanged for blank ids, else its own entry, or none after a refusal. */
  predicate PendsAs(before: map<string, nat>, after: map<string, nat>, blank: bool, key: string, r: nat, phase: Phase) {
    if blank then after == before && phase == Returned(None)
    else if phase.Waiting? then after == before[key := r]
    else after == before - {key} && phase == Returned(None)
  }

  lemma AskPends(w: World, s: Step)
    requires Enabled(w, s) && s.Ask?
    ensures var v := Next(w, s);
            && s.r in v.asked
            && PendsAs(w.pending, v.pending, s.nodeID == "" || s.requestID == "", RequestKey(s.nodeID, s.requestID), s.r,
                       v.asked[s.r].phase)
  {
    Ask1Pends(w, s.r, s.nodeID, s.requestID, s.payload);
    assert Next(w, s) == Ask1(w, s.r, s.nodeID, s.requestID, s.payload);
  }

  lemma Ask1Pends(w: World, r: nat, nodeID: string, requestID: string, payload: string)
    ensures var v := Ask1(w, r, nodeID, requestID, payload);
            && r in v.asked
            && PendsAs(w.pending, v.pending, nodeID == "" || requestID == "", RequestKey(nodeID, requestID), r, v.asked[r].phase)
  {
    var v := Ask1(w, r, nodeID, requestID, payload);
    if nodeID == "" || requestID == "" {
      assert v.asked[r].phase == Returned(None);
    } else if Receivers(w.chans, ClientsOf(w.clients, nodeID)) == {} {
      assert v.asked[r].phase == Returned(None);
    } else {
      assert v.asked[r].phase == Waiting;
    }
  }

  lemma AskFindsWaitersIff(w: World, s: Step)
    requires WaitersFound(w) && RepliesMatch(w) && Enabled(w, s) && s.Ask?
    ensures WaitersFound(Next(w, s)) <==> !TakesEntry(w, s)
  {
    AskChanges(w, s);
    AskPends(w, s);
    NewRequestFindsIff(w, Next(w, s), s.r, Next(w, s).asked[s.r], s.nodeID == "" || s.requestID == "");
  }

  lemma NewRequestFindsIff(w: World, v: World, r: nat, a: Asked, blank: bool)
    requires WaitersFound(w) && RepliesMatch(w) && r !in w.asked && v.asked == w.asked[r := a]
    requires PendsAs(w.pending, v.pending, blank, KeyOf(a), r, a.phase)
    ensures WaitersFound(v) <==> blank || !HeldByWaiter(w, KeyOf(a))
  {
    var key := KeyOf(a);
    if !blank && HeldByWaiter(w, key) {
      var q := w.pending[key];
      assert v.asked[q] == w.asked[q] && KeyOf(v.asked[q]) == key;
    } else {
      forall q | q in v.asked && v.asked[q].phase.Waiting?
        ensures KeyOf(v.asked[q]) in v.pending && v.pending[KeyOf(v.asked[q])] == q
      {
        assert q != r ==> v.asked[q] == w.asked[q] && w.pending[KeyOf(w.asked[q])] == q;
      }
    }
  }

  lemma CleanUpFindsWaitersIff(w: World, s: Step)
    requires WaitersFound(w) && RepliesMatch(w) && Enabled(w, s) && s.CleanUp?
    ensures WaitersFound(Next(w, s)) <==> !TakesEntry(w, s)
  {
    var v, key := Next(w, s), KeyOf(w.asked[s.r]);
    if HeldByWaiter(w, key) {
      var q := w.pending[key];
      assert v.asked[q] == w.asked[q] && KeyOf(v.asked[q]) == key;
    } else {
      forall q | q in v.asked && v.asked[q].phase.Waiting?
        ensures KeyOf(v.asked[q]) in v.pending && v.pending[KeyOf(v.asked[q])] == q
      {
        assert v.asked[q] == w.asked[q] && w.pending[KeyOf(w.asked[q])] == q;
      }
    }
  }

  lemma OthersKeepWaiters(w: World, s: Step)
    requires WaitersFound(w) && Enabled(w, s) && !s.Ask? && !s.CleanUp?
    ensures WaitersFound(Next(w, s))
  {
    assert Next(w, s).pending == w.pending;
  }

  /**
   The exact step at which a waiting request becomes unreachable: an `Ask` with its key, delivered or refused,
   or the clean-up of another request with its key.
   */
  lemma WaiterIsLostIff(w: World, s: Step)
    requires WaitersFound(w) && RepliesMatch(w) && Enabled(w, s)
    ensures WaitersFound(Next(w, s)) <==> !TakesEntry(w, s)
  {
    match s
    case Ask(_, _, _, _) => AskFindsWaitersIff(w, s);
    case CleanUp(_) => CleanUpFindsWaitersIff(w, s);
    case _ => OthersKeepWaiters(w, s);
  }

  // ------------------------------------------------------------------ the guard

  lemma AskKeepsInFlightIff(w: World, s: Step)
    requires InFlightFound(w) && RepliesMatch(w) && Enabled(w, s) && s.Ask?
    ensures InFlightFound(Next(w, s)) <==> !ReusesKey(w, s)
  {
    AskChanges(w, s);
    AskPends(w, s);
    NewRequestKeepsIff(w, Next(w, s), s.r, Next(w, s).asked[s.r], s.nodeID == "" || s.requestID == "");
  }

  lemma NewRequestKeepsIff(w: World, v: World, r: nat, a: Asked, blank: bool)
    requires InFlightFound(w) && RepliesMatch(w) && r !in w.asked && v.asked == w.asked[r := a]
    requires PendsAs(w.pending, v.pending, blank, KeyOf(a), r, a.phase)
    ensures InFlightFound(v) <==> blank || KeyOf(a) !in w.pending
  {
    var key := KeyOf(a);
    if !blank && key in w.pending {
      var q := w.pending[key];
      assert v.asked[q] == w.asked[q] && KeyOf(v.asked[q]) == key && InFlight(v.asked[q]);
    } else {
      forall q | q in v.asked && InFlight(v.asked[q])
        ensures KeyOf(v.asked[q]) in v.pending && v.pending[KeyOf(v.asked[q])] == q
      {
        assert q != r ==> v.asked[q] == w.asked[q] && w.pending[KeyOf(w.asked[q])] == q;
      }
    }
  }

  lemma CleanUpKeepsInFlight(w: World, s: Step)
    requires InFlightFound(w) && Enabled(w, s) && s.CleanUp?
    ensures InFlightFound(Next(w, s))
  {
    var v := Next(w, s);
    assert w.pending[KeyOf(w.asked[s.r])] == s.r;
    forall q | q in v.asked && InFlight(v.asked[q])
      ensures KeyOf(v.asked[q]) in v.pending && v.pending[KeyOf(v.asked[q])] == q
    {
      assert q != s.r && v.asked[q] == w.asked[q] && w.pending[KeyOf(w.asked[q])] == q;
    }
  }

  lemma OthersKeepInFlight(w: World, s: Step)
    requires InFlightFound(w) && Enabled(w, s) && !s.Ask? && !s.CleanUp?
    ensures InFlightFound(Next(w, s))
  {
    var v := Next(w, s);
    assert v.pending == w.pending;
    forall q | q in v.asked && InFlight(v.asked[q])
      ensures KeyOf(v.asked[q]) in v.pending && v.pending[KeyOf(v.asked[q])] == q
    {
      assert q in w.asked && InFlight(w.asked[q]) && KeyOf(v.asked[q]) == KeyOf(w.asked[q]);
    }
  }

  /** While all requests in flight are found, exactly a request whose key is in the table ends that. */
  lemma GuardIsExact(w: World, s: Step)
    requires InFlightFound(w) && RepliesMatch(w) && Enabled(w, s)
    ensures InFlightFound(Next(w, s)) <==> !ReusesKey(w, s)
  {
    match s
    case Ask(_, _, _, _) => AskKeepsInFlightIff(w, s);
    case CleanUp(_) => CleanUpKeepsInFlight(w, s);
    case _ => OthersKeepInFlight(w, s);
  }

  /** Every request of the run is made at a time when its key is not in the table. */
  predicate FreshAsks(w: World, steps: seq<Step>)
    requires Legal(w, steps)
    decreases |steps|
  {
    steps != [] ==> !ReusesKey(w, steps[0]) && FreshAsks(Next(w, steps[0]), steps[1..])
  }

  /** Every state of the run finds the requests in flight. */
  ghost predicate AlwaysFound(w: World, steps: seq<Step>)
    requires Legal(w, steps)
    decreases |steps|
  {
    InFlightFound(w) && (steps != [] ==> AlwaysFound(Next(w, steps[0]), steps[1..]))
  }

  lemma {:induction false} AlwaysFoundIff(w: World, steps: seq<Step>)
    requires InFlightFound(w) && RepliesMatch(w) && Legal(w, steps)
    ensures AlwaysFound(w, steps) <==> FreshAsks(w, steps)
    decreases |steps|
  {
    if steps != [] {
      GuardIsExact(w, steps[0]);
      StepKeepsReplies(w, steps[0]);
      if !ReusesKey(w, steps[0]) {
        AlwaysFoundIff(Next(w, steps[0]), steps[1..]);
      } else {
        NotFoundAtOnce(Next(w, steps[0]), steps[1..]);
      }
    }
  }

  lemma NotFoundAtOnce(w: World, steps: seq<Step>)
    requires Legal(w, steps) && !InFlightFound(w)
    ensures !AlwaysFound(w, steps)
  {
  }

  lemma {:induction false} FreshRunsEndFound(w: World, steps: seq<Step>)
    requires InFlightFound(w) && RepliesMatch(w) && Legal(w, steps) && FreshAsks(w, steps)
    ensures InFlightFound(Run(w, steps))
    decreases |steps|
  {
    if steps != [] {
      GuardIsExact(w, steps[0]);
      StepKeepsReplies(w, steps[0]);
      FreshRunsEndFound(Next(w, steps[0]), steps[1..]);
    }
  }

  /**
   A run finds the requests in flight all along exactly when no request is made while its key is in the table;
   then `resolve` reaches the channel of every waiting request.
   */
  lemma WaitersAreFound(steps: seq<Step>)
    requires Legal(START, steps)
    ensures AlwaysFound(START, steps) <==> FreshAsks(START, steps)
    ensures FreshAsks(START, steps) ==> InFlightFound(Run(START, steps)) && WaitersFound(Run(START, steps))
  {
    AlwaysFoundIff(START, steps);
    if FreshAsks(START, steps) {
      FreshRunsEndFound(START, steps);
    }
  }

  // ------------------------------------------------------------------ unique and reused request ids

  /** No two requests ever made have the same key. */
  ghost predicate UniqueKeys(w: World) {
    forall a, b :: a in w.asked && b in w.asked && a != b ==> KeyOf(w.asked[a]) != KeyOf(w.asked[b])
  }

  lemma StepKeepsKeys(w: World, s: Step)
    requires Enabled(w, s)
    ensures forall r :: r in w.asked ==> r in Next(w, s).asked && KeyOf(Next(w, s).asked[r]) == KeyOf(w.asked[r])
  {
    if s.Ask? {
      AskChanges(w, s);
    }
  }

  lemma {:induction false} KeysAccumulate(w: World, steps: seq<Step>)
    requires Legal(w, steps)
    ensures forall r :: r in w.asked ==> r in Run(w, steps).asked && KeyOf(Run(w, steps).asked[r]) == KeyOf(w.asked[r])
    decreases |steps|
  {
    if steps != [] {
      StepKeepsKeys(w, steps[0]);
      KeysAccumulate(Next(w, steps[0]), steps[1..]);
    }
  }

  lemma ReuseIsSeen(w: World, s: Step)
    requires RepliesMatch(w) && Enabled(w, s) && ReusesKey(w, s)
    ensures !UniqueKeys(Next(w, s))
  {
    AskChanges(w, s);
    var v, q := Next(w, s), w.pending[RequestKey(s.nodeID, s.requestID)];
    assert v.asked[q] == w.asked[q] && KeyOf(v.asked[q]) == KeyOf(v.asked[s.r]) && q != s.r;
  }

  /** Unique request ids, such as random ones, meet the guard. */
  lemma {:induction false} UniqueRequestsAreFresh(w: World, steps: seq<Step>)
    requires RepliesMatch(w) && Legal(w, steps) && UniqueKeys(Run(w, steps))
    ensures FreshAsks(w, steps)
    decreases |steps|
  {
    if steps != [] {
      var v := Next(w, steps[0]);
      KeysAccumulate(v, steps[1..]);
      UniqueEarlier(v, Run(w, steps));
      if ReusesKey(w, steps[0]) {
        ReuseIsSeen(w, steps[0]);
      }
      StepKeepsReplies(w, steps[0]);
      UniqueRequestsAreFresh(v, steps[1..]);
    }
  }

  lemma UniqueEarlier(w: World, v: World)
    requires UniqueKeys(v)
    requires forall r :: r in w.asked ==> r in v.asked && KeyOf(v.asked[r]) == KeyOf(w.asked[r])
    ensures UniqueKeys(w)
  {
  }

  /**
   A second request with the key of a waiting one hides it at once, whether or not a client takes its message;
   so does the clean-up of one of two waiting requests with one key.
   */
  lemma DuplicateIdsLoseAWaiter(w: World, a: nat, b: nat, payload: string)
    requires WaitersFound(w) && RepliesMatch(w) && a in w.asked && w.asked[a].phase.Waiting? && b !in w.asked
    requires w.asked[a].nodeID != "" && w.asked[a].requestID != ""
    ensures var v := Next(w, Ask(b, w.asked[a].nodeID, w.asked[a].requestID, payload));
            && a in v.asked && v.asked[a].phase.Waiting?
            && !(KeyOf(v.asked[a]) in v.pending && v.pending[KeyOf(v.asked[a])] == a)
            && (v.asked[b].phase.Waiting? ==> KeyOf(v.asked[a]) !in Next(Next(v, GiveUp(b)), CleanUp(b)).pending)
  {
    var s := Ask(b, w.asked[a].nodeID, w.asked[a].requestID, payload);
    AskChanges(w, s);
    AskPends(w, s);
    var v := Next(w, s);
    assert v.asked[a] == w.asked[a];
    if v.asked[b].phase.Waiting? {
      var u := Next(v, GiveUp(b));
      assert KeyOf(u.asked[b]) == KeyOf(v.asked[a]);
    }
  }

  /** Two waiting requests with one key are reachable: nothing in the hub makes request ids unique. */
  lemma DuplicateIdsCanWait(nodeID: string, requestID: string) returns (steps: seq<Step>)
    requires nodeID != "" && requestID != ""
    ensures Legal(START, steps)
    ensures var w := Run(START, steps);
            && 1 in w.asked && 2 in w.asked && KeyOf(w.asked[1]) == KeyOf(w.asked[2])
            && w.asked[1].phase.Waiting? && w.asked[2].phase.Waiting?
  {
    steps := [Register(0, nodeID), Ask(1, nodeID, requestID, ""), Ask(2, nodeID, requestID, "")];
    var w1 := Next(START, steps[0]);
    assert 0 in Receivers(w1.chans, ClientsOf(w1.clients, nodeID));
    var w2 := Next(w1, steps[1]);
    assert 0 in Receivers(w2.chans, ClientsOf(w2.clients, nodeID));
    var w3 := Next(w2, steps[2]);
    assert steps[1..][1..] == steps[2..] && steps[2..][1..] == [];
    assert Legal(w3, []) && Run(w3, []) == w3;
    assert Legal(w2, steps[2..]) && Run(w2, steps[2..]) == w3;
    assert Legal(w1, steps[1..]) && Run(w1, steps[1..]) == w3;
  }

  // ------------------------------------------------------------------ connections that never serve

  /** The connection waits to send its own first message into a channel that only it would drain. */
  predicate Stuck(w: World, c: nat) {
    c in w.conns && w.conns[c].Greeting? && c in w.chans && !HasRoom(w.chans[c])
  }

  lemma StuckStays(w: World, s: Step, c: nat)
    requires Stuck(w, c) && Enabled(w, s)
    ensures Stuck(Next(w, s), c) && Next(w, s).conns[c] == w.conns[c] && Next(w, s).chans[c] == w.chans[c]
  {
    if s.Ask? {
      AskKeepsTable(w, s);
    }
  }

  /** Such a connection never changes again, in any run; while it is greeting it can go on exactly when it is not stuck. */
  lemma {:induction false} StuckForever(w: World, steps: seq<Step>, c: nat)
    requires Stuck(w, c) && Legal(w, steps)
    ensures Stuck(Run(w, steps), c) && Run(w, steps).chans[c] == w.chans[c]
    decreases |steps|
  {
    if steps != [] {
      StuckStays(w, steps[0], c);
      StuckForever(Next(w, steps[0]), steps[1..], c);
    }
  }

  lemma GreetingGoesOnIff(w: World, c: nat, payload: string)
    requires c in w.conns && w.conns[c].Greeting? && c in w.chans
    ensures Enabled(w, OwnSend(c, payload)) <==> !Stuck(w, c)
    ensures Enabled(w, OwnSend(c, payload)) ==> Next(w, OwnSend(c, payload)).conns[c].Serving?
  {
  }

  /** The connection has not come to its loop yet. */
  predicate Unserved(w: World, c: nat) {
    c in w.conns && (w.conns[c].Joined? || w.conns[c].Greeting?)
  }

  /** The step puts a message of somebody else into the channel. */
  predicate DeliversTo(w: World, s: Step, c: nat) {
    ((s.Broadcast? || (s.Ask? && s.nodeID != "" && s.requestID != "")) && c in Receivers(w.chans, ClientsOf(w.clients, s.nodeID)))
  }

  function Deliveries(w: World, steps: seq<Step>, c: nat): nat
    requires Legal(w, steps)
    decreases |steps|
  {
    if steps == [] then 0 else (if DeliversTo(w, steps[0], c) then 1 else 0) + Deliveries(Next(w, steps[0]), steps[1..], c)
  }

  lemma {:induction false} ServedStays(w: World, steps: seq<Step>, c: nat)
    requires Legal(w, steps) && c in w.conns && !Unserved(w, c)
    ensures c in Run(w, steps).conns && !Unserved(Run(w, steps), c)
    decreases |steps|
  {
    if steps != [] {
      LivesOnce(w, steps[0], c);
      ServedStays(Next(w, steps[0]), steps[1..], c);
    }
  }

  lemma LivesOnce(w: World, s: Step, c: nat)
    requires Enabled(w, s) && c in w.conns
    ensures c in Next(w, s).conns && (Unserved(Next(w, s), c) ==> Unserved(w, c))
  {
    if s.Ask? {
      AskKeepsTable(w, s);
    }
  }

  /** The messages in the channel of a connection. */
  function Held(w: World, c: nat): nat {
    if c in w.conns && c in w.chans then |w.chans[c].buffer| else 0
  }

  lemma StepFills(w: World, s: Step, c: nat)
    requires ClientsOpen(w) && Enabled(w, s) && Unserved(Next(w, s), c)
    ensures Held(Next(w, s), c) == Held(w, c) + (if DeliversTo(w, s, c) then 1 else 0)
  {
    if s.Ask? {
      AskFills(w, s.r, s.nodeID, s.requestID, s.payload, c);
      assert Next(w, s) == Ask1(w, s.r, s.nodeID, s.requestID, s.payload);
    } else if s.Broadcast? {
      DeliverFills(w, s.nodeID, s.payload, c);
    } else if s.Register? && s.c == c {
      assert c !in w.conns;
    }
  }

  lemma DeliverFills(w: World, nodeID: string, payload: string, c: nat)
    requires ClientsOpen(w)
    ensures var chans := Deliver(w.chans, ClientsOf(w.clients, nodeID), payload);
            && (c in w.chans <==> c in chans)
            && (c in w.chans ==> |chans[c].buffer| == |w.chans[c].buffer|
                                   + (if c in Receivers(w.chans, ClientsOf(w.clients, nodeID)) then 1 else 0))
            && (c !in w.conns ==> c !in Receivers(w.chans, ClientsOf(w.clients, nodeID)))
  {
  }

  lemma AskFills(w: World, r: nat, nodeID: string, requestID: string, payload: string, c: nat)
    requires ClientsOpen(w) && c in w.conns
    ensures Held(Ask1(w, r, nodeID, requestID, payload), c)
         == Held(w, c) + (if nodeID != "" && requestID != "" && c in Receivers(w.chans, ClientsOf(w.clients, nodeID)) then 1 else 0)
  {
    DeliverFills(w, nodeID, payload, c);
    AskDelivers(w, r, nodeID, requestID, payload);
  }

  lemma AskDelivers(w: World, r: nat, nodeID: string, requestID: string, payload: string)
    ensures var v := Ask1(w, r, nodeID, requestID, payload);
            && v.conns == w.conns
            && v.chans == if nodeID == "" || requestID == "" then w.chans
                          else Deliver(w.chans, ClientsOf(w.clients, nodeID), payload)
  {
    var v := Ask1(w, r, nodeID, requestID, payload);
    if nodeID == "" || requestID == "" {
      assert v.chans == w.chans;
    } else if Receivers(w.chans, ClientsOf(w.clients, nodeID)) == {} {
      assert v.chans == Deliver(w.chans, ClientsOf(w.clients, nodeID), payload);
    } else {
      assert v.chans == Deliver(w.chans, ClientsOf(w.clients, nodeID), payload);
    }
  }

  lemma {:induction false} UnservedFills(w: World, steps: seq<Step>, c: nat)
    requires ClientsOpen(w) && Legal(w, steps) && Unserved(Run(w, steps), c)
    ensures Held(Run(w, steps), c) == Held(w, c) + Deliveries(w, steps, c)
    decreases |steps|
  {
    if steps != [] {
      var v := Next(w, steps[0]);
      if c in v.conns && !Unserved(v, c) {
        ServedStays(v, steps[1..], c);
      } else {
        StepKeepsClientsOpen(w, steps[0]);
        UnservedFills(v, steps[1..], c);
        if c in v.conns {
          StepFills(w, steps[0], c);
        } else {
          NotThereYet(w, steps[0], c);
        }
      }
    }
  }

  lemma NotThereYet(w: World, s: Step, c: nat)
    requires ClientsOpen(w) && Enabled(w, s) && c !in Next(w, s).conns
    ensures c !in w.conns && !DeliversTo(w, s, c)
  {
    if c in w.conns {
      LivesOnce(w, s, c);
    }
    if s.Broadcast? || s.Ask? {
      DeliverFills(w, s.nodeID, s.payload, c);
    }
  }

  /**
   A connection that is about to send its own first message blocks, for good, exactly when eight messages were
   delivered to it since it was registered.
   */
  lemma ConnectionIsStuckIff(steps: seq<Step>, c: nat)
    requires Legal(START, steps)
    requires var w := Run(START, steps); c in w.conns && w.conns[c].Greeting?
    ensures Stuck(Run(START, steps), c) <==> Deliveries(START, steps, c) >= CLIENT_CAPACITY
  {
    ClientsOpenHolds(START, steps);
    UnservedFills(START, steps, c);
  }

  function Broadcasts(nodeID: string, n: nat): seq<Step> {
    if n == 0 then [] else [Broadcast(nodeID, "")] + Broadcasts(nodeID, n - 1)
  }

  lemma {:induction false} BroadcastsFill(w: World, nodeID: string, c: nat, n: nat)
    requires ClientsOpen(w) && c in w.conns && w.conns[c] == Greeting(nodeID) && c in ClientsOf(w.clients, nodeID)
    requires Held(w, c) + n <= CLIENT_CAPACITY
    ensures Legal(w, Broadcasts(nodeID, n))
    ensures var v := Run(w, Broadcasts(nodeID, n)); v.conns == w.conns && c in v.chans && Held(v, c) == Held(w, c) + n
    decreases n
  {
    if n > 0 {
      var s := Broadcast(nodeID, "");
      StepKeepsClientsOpen(w, s);
      DeliverFills(w, nodeID, "", c);
      BroadcastsFill(Next(w, s), nodeID, c, n - 1);
      assert Broadcasts(nodeID, n)[0] == s && Broadcasts(nodeID, n)[1..] == Broadcasts(nodeID, n - 1);
    }
  }

  /** That is reachable: eight broadcasts right after a registration. */
  lemma EightBroadcastsBlock(nodeID: string) returns (w: World)
    ensures Legal(START, [Register(0, nodeID), Prepare(0, true)]) && w == Run(START, [Register(0, nodeID), Prepare(0, true)])
    ensures Legal(w, Broadcasts(nodeID, CLIENT_CAPACITY)) && Stuck(Run(w, Broadcasts(nodeID, CLIENT_CAPACITY)), 0)
  {
    var steps := [Register(0, nodeID), Prepare(0, true)];
    var w1 := Next(START, steps[0]);
    w := Next(w1, steps[1]);
    assert steps[1..][1..] == [];
    assert Legal(w, []) && Run(w, []) == w;
    assert Legal(w1, steps[1..]) && Run(w1, steps[1..]) == w;
    ClientsOpenHolds(START, steps);
    BroadcastsFill(w, nodeID, 0, CLIENT_CAPACITY);
  }
}
