/** The chat-session state of the ChatRoom component: one immutable record
    holding the five pieces of component state, and one pure transition per
    user action or inbound socket event. Each transition returns the new
    state together with the events it emits on the socket, in emission order. */
module ChatRoom {
  import opened Wrappers
  import Text

  /** A socket identifier, as assigned by the relay server. */
  type Id = string

  /** The instant a message was created, opaque to the state machine. */
  type Timestamp = int

  datatype Message = Message(sender: Id, text: string, timestamp: Timestamp)

  datatype State = State(
    isPairing: bool,
    chattingUser: Option<Id>,
    chatMessages: seq<Message>,
    inputMessage: string,
    otherUserLeft: bool)

  /** What the client emits on the socket. */
  datatype Outbound = StartPairing | Unpair | SendMessage(message: Message)

  /** The result of one transition. */
  datatype Step = Step(state: State, emitted: seq<Outbound>)

  /** The state the component mounts with: idle, nobody to talk to. */
  const Initial: State := State(false, None, [], "", false)

  /** The message was written locally or by the peer of the current session. */
  predicate FromParticipant(m: Message, s: State, self: Id) {
    m.sender == self || s.chattingUser == Some(m.sender)
  }

  /** The log invariant: nobody but the two participants of the current
      session appears as a sender. */
  predicate LogFromParticipants(s: State, self: Id) {
    forall i :: 0 <= i < |s.chatMessages| ==> FromParticipant(s.chatMessages[i], s, self)
  }

  /** The "start chatting" button: asks the server for a partner. There is
      no guard, so it applies in every state. */
  function HandlePairing(s: State): (r: Step)
    ensures r.emitted == [StartPairing]
    ensures r.state.isPairing
    ensures r.state.chattingUser == s.chattingUser
    ensures r.state.chatMessages == s.chatMessages
    ensures r.state.inputMessage == s.inputMessage
    ensures r.state.otherUserLeft == s.otherUserLeft
  {
    Step(s.(isPairing := true), [StartPairing])
  }

  /** The "leave" button: tells the server, forgets the peer and the log.
      The draft and the peer-left flag are kept. */
  function HandleUnpair(s: State): (r: Step)
    ensures r.emitted == [Unpair]
    ensures !r.state.isPairing
    ensures r.state.chattingUser.None?
    ensures r.state.chatMessages == []
    ensures r.state.inputMessage == s.inputMessage
    ensures r.state.otherUserLeft == s.otherUserLeft
  {
    Step(s.(isPairing := false, chattingUser := None, chatMessages := []), [Unpair])
  }

  /** Typing in the compose box replaces the draft and nothing else. */
  function EditInput(s: State, text: string): (r: Step)
    ensures r.emitted == []
    ensures r.state.inputMessage == text
    ensures r.state.isPairing == s.isPairing
    ensures r.state.chattingUser == s.chattingUser
    ensures r.state.chatMessages == s.chatMessages
    ensures r.state.otherUserLeft == s.otherUserLeft
  {
    Step(s.(inputMessage := text), [])
  }

  /** Submitting the compose form. A draft with a non-whitespace character
      becomes one message from `self`, carrying the draft untrimmed and the
      caller-supplied instant; it is emitted and appended. A blank draft is
      dropped silently. The draft is cleared either way. */
  function HandleSendMessage(s: State, self: Id, now: Timestamp): (r: Step)
    ensures r.state.inputMessage == ""
    ensures r.state.isPairing == s.isPairing
    ensures r.state.chattingUser == s.chattingUser
    ensures r.state.otherUserLeft == s.otherUserLeft
    ensures !Text.IsBlank(s.inputMessage) ==>
      && r.state.chatMessages == s.chatMessages + [Message(self, s.inputMessage, now)]
      && r.emitted == [SendMessage(Message(self, s.inputMessage, now))]
    ensures Text.IsBlank(s.inputMessage) ==>
      r.state.chatMessages == s.chatMessages && r.emitted == []
  {
    Text.TrimEmptyIffBlank(s.inputMessage);
    if Text.Trim(s.inputMessage) != "" then
      var message := Message(self, s.inputMessage, now);
      Step(s.(inputMessage := "", chatMessages := s.chatMessages + [message]), [SendMessage(message)])
    else
      Step(s.(inputMessage := ""), [])
  }

  /** The server paired us with `peer`: a fresh session with an empty log. */
  function StartChat(s: State, peer: Id): (r: Step)
    ensures r.emitted == []
    ensures !r.state.isPairing
    ensures r.state.chattingUser == Some(peer)
    ensures r.state.chatMessages == []
    ensures !r.state.otherUserLeft
    ensures r.state.inputMessage == s.inputMessage
  {
    Step(s.(isPairing := false, chattingUser := Some(peer), chatMessages := [], otherUserLeft := false), [])
  }

  /** The peer left: a sticky flag, nothing else changes. */
  function OtherUserLeft(s: State): (r: Step)
    ensures r.emitted == []
    ensures r.state.otherUserLeft
    ensures r.state.isPairing == s.isPairing
    ensures r.state.chattingUser == s.chattingUser
    ensures r.state.chatMessages == s.chatMessages
    ensures r.state.inputMessage == s.inputMessage
  {
    Step(s.(otherUserLeft := true), [])
  }

  /** A relayed message: kept only when it comes from the current peer,
      whatever the peer-left flag says. Existing entries are never reordered. */
  function ReceiveMessage(s: State, m: Message): (r: Step)
    ensures r.emitted == []
    ensures s.chattingUser == Some(m.sender) ==> r.state == s.(chatMessages := s.chatMessages + [m])
    ensures s.chattingUser != Some(m.sender) ==> r.state == s
    ensures s.chatMessages <= r.state.chatMessages
  {
    if s.chattingUser.Some? && m.sender == s.chattingUser.value then
      Step(s.(chatMessages := s.chatMessages + [m]), [])
    else
      Step(s, [])
  }

  /** Pairing twice with the same peer is pairing once. */
  lemma StartChatIdempotent(s: State, peer: Id)
    ensures StartChat(StartChat(s, peer).state, peer) == StartChat(s, peer)
  {
  }

  /** A repeated peer-left notice changes nothing further. */
  lemma OtherUserLeftIdempotent(s: State)
    ensures OtherUserLeft(OtherUserLeft(s).state) == OtherUserLeft(s)
  {
  }

  /** The component mounts idle: not pairing, no peer, an empty log, an
      empty draft and no peer-left notice, so the log invariant holds. */
  lemma InitialIsIdle(self: Id)
    ensures !Initial.isPairing && Initial.chattingUser.None?
    ensures Initial.chatMessages == [] && Initial.inputMessage == ""
    ensures !Initial.otherUserLeft
    ensures LogFromParticipants(Initial, self)
  {
  }
}
