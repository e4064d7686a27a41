/** Runs of the chat room: any interleaving of user actions and inbound
    socket events, applied one at a time to the current state, as the
    single-threaded event loop delivers them. */
module Traces {
  import opened Wrappers
  import Text
  import opened ChatRoom

  /** Everything that can happen to the component. */
  datatype Action =
    | Pair                      // "start chatting" clicked
    | Leave                     // "leave" clicked
    | Type(text: string)        // the compose box changed
    | Submit(now: Timestamp)    // the compose form submitted at `now`
    | Matched(peer: Id)         // inbound startChat
    | PeerLeft                  // inbound otherUserLeft
    | Incoming(message: Message) // inbound receiveMessage

  /** Dispatch one action to its handler; `self` is the local socket id. */
  function Apply(s: State, self: Id, a: Action): Step {
    match a
    case Pair => HandlePairing(s)
    case Leave => HandleUnpair(s)
    case Type(text) => EditInput(s, text)
    case Submit(now) => HandleSendMessage(s, self, now)
    case Matched(peer) => StartChat(s, peer)
    case PeerLeft => OtherUserLeft(s)
    case Incoming(m) => ReceiveMessage(s, m)
  }

  /** The final state of a run and everything it emitted, in order. */
  function Run(s: State, self: Id, actions: seq<Action>): Step
    decreases |actions|
  {
    if actions == [] then Step(s, [])
    else
      var first := Apply(s, self, actions[0]);
      var rest := Run(first.state, self, actions[1..]);
      Step(rest.state, first.emitted + rest.emitted)
  }

  /** One step of a run: the first action, then the rest from where it left. */
  lemma RunFirst(s: State, self: Id, a: Action, rest: seq<Action>)
    ensures Run(s, self, [a] + rest).state == Run(Apply(s, self, a).state, self, rest).state
    ensures Run(s, self, [a] + rest).emitted == Apply(s, self, a).emitted + Run(Apply(s, self, a).state, self, rest).emitted
  {
  }

  /** Only `Matched` and `Leave` change who the peer is. */
  predicate ChangesPeer(a: Action) {
    a.Matched? || a.Leave?
  }

  /** Every single transition keeps the log invariant: the peer changes only
      together with a cleared log, and only our own or the peer's messages
      are appended. */
  lemma ApplyPreservesLogFromParticipants(s: State, self: Id, a: Action)
    requires LogFromParticipants(s, self)
    ensures LogFromParticipants(Apply(s, self, a).state, self)
  {
    var t := Apply(s, self, a).state;
    if !ChangesPeer(a) {
      // The peer is unchanged and the old entries keep their places.
      assert t.chattingUser == s.chattingUser;
      assert s.chatMessages <= t.chatMessages;
      forall i | 0 <= i < |t.chatMessages|
        ensures FromParticipant(t.chatMessages[i], t, self)
      {
        if i < |s.chatMessages| {
          assert FromParticipant(s.chatMessages[i], s, self);
        }
      }
    }
  }

  /** The log invariant holds after any run from a state satisfying it. */
  lemma {:induction false} RunPreservesLogFromParticipants(s: State, self: Id, actions: seq<Action>)
    requires LogFromParticipants(s, self)
    ensures LogFromParticipants(Run(s, self, actions).state, self)
    decreases |actions|
  {
    if actions != [] {
      ApplyPreservesLogFromParticipants(s, self, actions[0]);
      RunPreservesLogFromParticipants(Apply(s, self, actions[0]).state, self, actions[1..]);
    }
  }

  /** From the freshly mounted component, the log never shows a third party. */
  lemma ReachableLogFromParticipants(self: Id, actions: seq<Action>)
    ensures LogFromParticipants(Run(Initial, self, actions).state, self)
  {
    InitialIsIdle(self);
    RunPreservesLogFromParticipants(Initial, self, actions);
  }

  /** Every message the client emits is signed with the local id. */
  lemma {:induction false} RunSendsOnlyOwnMessages(s: State, self: Id, actions: seq<Action>)
    ensures forall i :: 0 <= i < |Run(s, self, actions).emitted| && Run(s, self, actions).emitted[i].SendMessage? ==>
      Run(s, self, actions).emitted[i].message.sender == self
    decreases |actions|
  {
    if actions != [] {
      var first := Apply(s, self, actions[0]);
      RunSendsOnlyOwnMessages(first.state, self, actions[1..]);
      var rest := Run(first.state, self, actions[1..]);
      assert Run(s, self, actions).emitted == first.emitted + rest.emitted;
    }
  }

  /** While the peer stays the same, the log only grows at its end: nothing
      already shown is dropped or reordered. */
  lemma {:induction false} StablePeerExtendsLog(s: State, self: Id, actions: seq<Action>)
    requires forall i :: 0 <= i < |actions| ==> !ChangesPeer(actions[i])
    ensures Run(s, self, actions).state.chattingUser == s.chattingUser
    ensures s.chatMessages <= Run(s, self, actions).state.chatMessages
    decreases |actions|
  {
    if actions != [] {
      var first := Apply(s, self, actions[0]).state;
      assert first.chattingUser == s.chattingUser;
      assert s.chatMessages <= first.chatMessages;
      StablePeerExtendsLog(first, self, actions[1..]);
    }
  }

  /** A whitespace-only draft submits nothing: the log stays, nothing is
      emitted, and the box is emptied. */
  lemma BlankSubmitIsSilent(s: State, self: Id, draft: string, now: Timestamp)
    requires Text.IsBlank(draft)
    ensures Run(s, self, [Type(draft), Submit(now)]).state.chatMessages == s.chatMessages
    ensures Run(s, self, [Type(draft), Submit(now)]).emitted == []
    ensures Run(s, self, [Type(draft), Submit(now)]).state.inputMessage == ""
  {
    var s1 := EditInput(s, draft).state;
    assert Run(s1, self, [Submit(now)]) == HandleSendMessage(s1, self, now);
  }

  /** A message sent and then one received from the peer appear in that
      order, after whatever was already in the log. */
  lemma SendThenReceiveInOrder(s: State, self: Id, peer: Id, draft: string, now: Timestamp, reply: Message)
    requires s.chattingUser == Some(peer)
    requires !Text.IsBlank(draft)
    requires reply.sender == peer
    ensures Run(s, self, [Type(draft), Submit(now), Incoming(reply)]).state.chatMessages
      == s.chatMessages + [Message(self, draft, now), reply]
  {
    var s1 := EditInput(s, draft).state;
    var s2 := SubmitDraft(s1, self, now);
    ReceiveFromPeer(s2, self, reply);
    RunFirst(s1, self, Submit(now), [Incoming(reply)]);
    RunFirst(s, self, Type(draft), [Submit(now), Incoming(reply)]);
  }

  /** A message from the current peer, delivered alone, lands at the end. */
  lemma ReceiveFromPeer(s: State, self: Id, m: Message)
    requires s.chattingUser == Some(m.sender)
    ensures Run(s, self, [Incoming(m)]).state.chatMessages == s.chatMessages + [m]
  {
    assert [Incoming(m)][1..] == [];
  }

  /** The state after submitting a non-blank draft, with the facts the
      scenario above needs. */
  lemma SubmitDraft(s: State, self: Id, now: Timestamp) returns (t: State)
    requires !Text.IsBlank(s.inputMessage)
    ensures t == Apply(s, self, Submit(now)).state
    ensures t.chattingUser == s.chattingUser
    ensures t.chatMessages == s.chatMessages + [Message(self, s.inputMessage, now)]
  {
    t := HandleSendMessage(s, self, now).state;
  }

  /** Pairing with `peer` and then receiving from anyone else leaves the log
      empty: the stale message is dropped. */
  lemma StaleSenderDropped(self: Id, peer: Id, stale: Message)
    requires stale.sender != peer
    ensures Run(Initial, self, [Pair, Matched(peer), Incoming(stale)]).state.chatMessages == []
  {
    var s1 := HandlePairing(Initial).state;
    var s2 := StartChat(s1, peer).state;
    assert Run(s2, self, [Incoming(stale)]).state == ReceiveMessage(s2, stale).state;
    assert Run(s1, self, [Matched(peer), Incoming(stale)]).state == Run(s2, self, [Incoming(stale)]).state;
  }

  /** Leaving and pairing again starts from an empty log, even with the
      same peer as before. */
  lemma RepairStartsEmpty(s: State, self: Id, peer: Id)
    ensures Run(s, self, [Leave, Pair, Matched(peer)]).state.chatMessages == []
    ensures Run(s, self, [Leave, Pair, Matched(peer)]).state.chattingUser == Some(peer)
    ensures Run(s, self, [Leave, Pair, Matched(peer)]).emitted == [Unpair, StartPairing]
  {
    var s1 := HandleUnpair(s).state;
    var s2 := HandlePairing(s1).state;
    assert Run(s2, self, [Matched(peer)]) == StartChat(s2, peer);
    assert Run(s1, self, [Pair, Matched(peer)]) == Step(StartChat(s2, peer).state, [StartPairing]);
  }
}
