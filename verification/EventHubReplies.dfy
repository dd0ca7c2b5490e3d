/**
 That requests of core/internal/server/node_events.go get their replies: what a resolver puts into the channel of a waiting
 request is what the request returns, in every interleaving.
 */
module EventHubReplies {
  import opened Wrappers
  import opened EventHub

  // ------------------------------------------------------------------ messages

  /** What a delivery does to one channel: a target with room gets the payload behind its messages, nothing else changes. */
  lemma DeliveryReaches(chans: map<nat, Chan>, targets: set<nat>, payload: string, c: nat)
    requires c in chans
    ensures var after := Deliver(chans, targets, payload);
            && c in after && after[c].closed == chans[c].closed
            && after[c].buffer == chans[c].buffer + (if c in targets && |chans[c].buffer| < 8 then [payload] else [])
  {
    if !(c in targets && HasRoom(chans[c])) {
      assert chans[c].buffer + [] == chans[c].buffer;
    }
  }

  /** A client has room for one more message of its node. */
  ghost predicate SomeoneListens(w: World, nodeID: string) {
    exists c :: c in ClientsOf(w.clients, nodeID) && c in w.chans && |w.chans[c].buffer| < 8
  }

  /** A request waits exactly when its ids are there and some client of the node has room; otherwise it returns nothing at once. */
  lemma RequestWaitsIff(w: World, r: nat, nodeID: string, requestID: string, payload: string)
    requires Enabled(w, Ask(r, nodeID, requestID, payload))
    ensures var v := Next(w, Ask(r, nodeID, requestID, payload));
            && r in v.asked && v.asked[r].nodeID == nodeID && v.asked[r].requestID == requestID
            && (nodeID != "" && requestID != "" && SomeoneListens(w, nodeID) ==>
                  && v.asked[r].phase == Waiting
                  && RequestKey(nodeID, requestID) in v.pending && v.pending[RequestKey(nodeID, requestID)] == r)
            && (!(nodeID != "" && requestID != "" && SomeoneListens(w, nodeID)) ==> v.asked[r].phase == Returned(None))
  {
    ReceiversIff(w, nodeID);
  }

  lemma ReceiversIff(w: World, nodeID: string)
    ensures Receivers(w.chans, ClientsOf(w.clients, nodeID)) != {} <==> SomeoneListens(w, nodeID)
  {
    var receivers := Receivers(w.chans, ClientsOf(w.clients, nodeID));
    if receivers != {} {
      var c :| c in receivers;
      assert |w.chans[c].buffer| < 8;
    }
    if SomeoneListens(w, nodeID) {
      var c :| c in ClientsOf(w.clients, nodeID) && c in w.chans && |w.chans[c].buffer| < 8;
      assert c in receivers;
    }
  }

  // ------------------------------------------------------------------ one reply

  /** The reply lies in the channel of the waiting request. */
  predicate Holds(w: World, r: nat, reply: Reply) {
    r in w.asked && w.asked[r].phase.Waiting? && r in w.replies && w.replies[r] == reply
  }

  /** The request returns, or has returned, this reply. */
  predicate Returns(w: World, r: nat, reply: Reply) {
    r in w.asked && (w.asked[r].phase == Returning(Some(reply)) || w.asked[r].phase == Returned(Some(reply)))
  }

  /** The steps by which a request stops waiting. */
  predicate EndsWaiting(s: Step, r: nat) {
    s == TakeReply(r) || s == GiveUp(r)
  }

  /** A lookup under the key of a request that the table has finds that request, and its send fills the empty channel. */
  lemma ResolveFills(w: World, t: nat, r: nat, reply: Reply)
    requires t !in w.resolvers && reply.nodeID != "" && reply.requestID != ""
    requires RequestKey(reply.nodeID, reply.requestID) in w.pending && w.pending[RequestKey(reply.nodeID, reply.requestID)] == r
    ensures var v := Next(w, Lookup(t, reply));
            && v == w.(resolvers := w.resolvers[t := Resolver(reply, r)])
            && Enabled(v, Send(t))
            && (r in w.asked && w.asked[r].phase.Waiting? && r !in w.replies ==> Holds(Next(v, Send(t)), r, reply))
  {
  }

  lemma SendFills(w: World, t: nat)
    requires Enabled(w, Send(t)) && w.resolvers[t].channel in w.asked && w.asked[w.resolvers[t].channel].phase.Waiting?
    ensures var r, v := w.resolvers[t].channel, Next(w, Send(t));
            if r in w.replies then v.replies == w.replies else Holds(v, r, w.resolvers[t].reply)
  {
  }

  lemma AskLeavesOthers(w: World, s: Step, r: nat)
    requires Enabled(w, s) && s.Ask? && r in w.asked
    ensures var v := Next(w, s); r in v.asked && v.asked[r] == w.asked[r] && v.replies == w.replies
  {
    AskChanges(w, s);
  }

  lemma StepKeepsReply(w: World, s: Step, r: nat, reply: Reply)
    requires Enabled(w, s) && Holds(w, r, reply) && !EndsWaiting(s, r)
    ensures Holds(Next(w, s), r, reply)
  {
    if s.Ask? {
      AskLeavesOthers(w, s, r);
    }
  }

  /** A reply stays in the channel, whatever happens elsewhere, until its request takes it or gives up. */
  lemma {:induction false} ReplyStays(w: World, steps: seq<Step>, r: nat, reply: Reply)
    requires Legal(w, steps) && Holds(w, r, reply) && forall i :: 0 <= i < |steps| ==> !EndsWaiting(steps[i], r)
    ensures Holds(Run(w, steps), r, reply)
    decreases |steps|
  {
    if steps != [] {
      StepKeepsReply(w, steps[0], r, reply);
      ReplyStays(Next(w, steps[0]), steps[1..], r, reply);
    }
  }

  lemma StepKeepsResult(w: World, s: Step, r: nat, reply: Reply)
    requires Enabled(w, s) && Returns(w, r, reply)
    ensures Returns(Next(w, s), r, reply)
  {
    if s.Ask? {
      AskLeavesOthers(w, s, r);
    }
  }

  lemma {:induction false} ResultStays(w: World, steps: seq<Step>, r: nat, reply: Reply)
    requires Legal(w, steps) && Returns(w, r, reply)
    ensures Returns(Run(w, steps), r, reply)
    decreases |steps|
  {
    if steps != [] {
      StepKeepsResult(w, steps[0], r, reply);
      ResultStays(Next(w, steps[0]), steps[1..], r, reply);
    }
  }

  /**
   In every run, a reply in the channel of a waiting request is what the request returns when it takes it, however long it
   waits before and whatever follows.
   */
  lemma ReplyIsReturned(w: World, before: seq<Step>, after: seq<Step>, r: nat, reply: Reply)
    requires Legal(w, before) && Holds(w, r, reply) && forall i :: 0 <= i < |before| ==> !EndsWaiting(before[i], r)
    ensures Enabled(Run(w, before), TakeReply(r))
    ensures Legal(Next(Run(w, before), TakeReply(r)), after) ==> Returns(Run(Next(Run(w, before), TakeReply(r)), after), r, reply)
  {
    ReplyStays(w, before, r, reply);
    var v := Next(Run(w, before), TakeReply(r));
    if Legal(v, after) {
      ResultStays(v, after, r, reply);
    }
  }

  // ------------------------------------------------------------------ the other direction

  /** A request whose channel is empty has no reply to take: it goes on waiting, or gives up with nothing. */
  lemma NothingWithoutReply(w: World, s: Step, r: nat)
    requires Enabled(w, s) && r in w.asked && w.asked[r].phase.Waiting? && r !in w.replies
    ensures var v := Next(w, s);
            r in v.asked && (v.asked[r].phase.Waiting? || (s == GiveUp(r) && v.asked[r].phase == Returning(None)))
  {
    if s.Ask? {
      AskLeavesOthers(w, s, r);
    }
  }

  // ------------------------------------------------------------------ a whole exchange

  lemma Then(w: World, s: Step, rest: seq<Step>)
    requires Enabled(w, s) && Legal(Next(w, s), rest)
    ensures Legal(w, [s] + rest) && Run(w, [s] + rest) == Run(Next(w, s), rest)
  {
    assert ([s] + rest)[1..] == rest;
  }

  lemma Done(w: World)
    ensures Legal(w, []) && Run(w, []) == w
  {
  }

  /** A client registers, gets the message of a request, and its answer is returned, for all ids that are there. */
  lemma RequestIsAnswered(nodeID: string, requestID: string, message: string, payload: string)
    returns (steps: seq<Step>, w: World)
    requires nodeID != "" && requestID != ""
    ensures Legal(START, steps) && w == Run(START, steps)
    ensures 0 in w.chans && w.chans[0].buffer == [message]
    ensures 1 in w.asked && w.asked[1].phase == Returned(Some(Reply(nodeID, requestID, payload)))
    ensures w.pending == map[] && w.replies == map[]
  {
    var reply := Reply(nodeID, requestID, payload);
    var ask := Ask(1, nodeID, requestID, message);
    var w1 := Next(START, Register(0, nodeID));
    assert SomeoneListens(w1, nodeID);
    RequestWaitsIff(w1, 1, nodeID, requestID, message);
    DeliveryReaches(w1.chans, ClientsOf(w1.clients, nodeID), message, 0);
    var w2 := Next(w1, ask);
    w := AnswerAndReturn(w2, reply);
    var rest := [Lookup(0, reply)] + ([Send(0)] + ([TakeReply(1)] + [CleanUp(1)]));
    Then(w1, ask, rest);
    Then(START, Register(0, nodeID), [ask] + rest);
    steps := [Register(0, nodeID)] + ([ask] + rest);
  }

  lemma AnswerAndReturn(w: World, reply: Reply) returns (v: World)
    requires reply.nodeID != "" && reply.requestID != "" && w.resolvers == map[] && w.replies == map[]
    requires w.asked == map[1 := Asked(reply.nodeID, reply.requestID, Waiting)]
    requires w.pending == map[RequestKey(reply.nodeID, reply.requestID) := 1]
    ensures var steps := [Lookup(0, reply)] + ([Send(0)] + ([TakeReply(1)] + [CleanUp(1)])); Legal(w, steps) && v == Run(w, steps)
    ensures v.chans == w.chans && v.asked == map[1 := Asked(reply.nodeID, reply.requestID, Returned(Some(reply)))]
    ensures v.pending == map[] && v.replies == map[]
  {
    var w1 := Next(w, Lookup(0, reply));
    var w2 := Next(w1, Send(0));
    assert Holds(w2, 1, reply);
    var w3 := Next(w2, TakeReply(1));
    v := Next(w3, CleanUp(1));
    Done(v);
    Then(w3, CleanUp(1), []);
    assert [CleanUp(1)] + [] == [CleanUp(1)];
    Then(w2, TakeReply(1), [CleanUp(1)]);
    Then(w1, Send(0), [TakeReply(1)] + [CleanUp(1)]);
    Then(w, Lookup(0, reply), [Send(0)] + ([TakeReply(1)] + [CleanUp(1)]));
  }
}
