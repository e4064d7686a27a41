# HellowTalk chat room: a Dafny model of the session state machine

HellowTalk's front end pairs a user with one random stranger for a text chat.
All its logic sits in the `ChatRoom` React component. The component keeps five
pieces of state:

- `isPairing`: waiting for a partner;
- `chattingUser`: the peer's socket id, or none;
- `chatMessages`: the message log;
- `inputMessage`: the compose-box draft;
- `otherUserLeft`: the peer has gone.

Three user actions change that state and talk to the relay server over a
socket: start pairing, leave, send. Three inbound socket events change it too:
`startChat`, `otherUserLeft`, `receiveMessage`. The message list renders each
logged message with a side (peer or self) and a normalised relative-time label.

This project models that logic as pure functions over one immutable record.

- `Text`: the JavaScript string primitives the component relies on. These are
  `trim`, `indexOf`, `includes` and `replace` with a string pattern.
- `ChatRoom`: the state record and one transition per handler. Each transition
  returns the new state and the events emitted on the socket (`Step`). The module
  also defines the log invariant: every logged message comes from the local id or
  from the current peer.
- `Display`: the side indicator, the label rule and the render projection.
- `Traces`: arbitrary interleavings of actions and events (`Run`). The log
  invariant is proved for every reachable state. The module also proves
  scenarios: a blank submission does nothing, a send followed by a reply stays
  in order, a stale sender is dropped, and leaving and pairing again starts an
  empty log.

The local socket id (`socket.id`) is a parameter `self`. The instant of
`new Date()` is a caller-supplied `Timestamp`. The wording `formatDistanceToNow`
produces is a caller-supplied function `Timestamp -> string`.

The model follows the code as written, including these behaviours:

- `handlePairing` has no guard of its own. The page offers its button only
  while idle: no peer and not pairing (src/ChatRoom.js:87, 154-166). Leave,
  type and send exist only in the chat view (src/ChatRoom.js:130-152).
  `Traces.Action` allows every action in every state. That is a superset of
  the runs the page allows, so the trace lemmas cover those runs too.
- Leaving keeps the peer-left flag and the draft.
- A received message from the current peer is appended even after that peer
  has left.
- The label rule collapses only labels containing 少於 ("less than") to 剛剛
  ("just now"). Any other label only loses its first 大約 ("about"). A label
  such as "大約 1 小時前" becomes " 1 小時前", not "just now".
- The sent text is the draft as typed, untrimmed. Trimming only decides
  whether anything is sent.

## Model

| member | source | states |
|---|---|---|
| Text.TrimStart | src/ChatRoom.js:42 | the leading-whitespace cut of `trim`: the result is a suffix of the input, what was cut is all whitespace, and the result does not start with whitespace |
| Text.TrimEnd | src/ChatRoom.js:42 | the trailing-whitespace cut of `trim`: the result is a prefix of the input, what was cut is all whitespace, and the result does not end with whitespace |
| Text.Trim | src/ChatRoom.js:42 | `trim` returns the input with a blank prefix and a blank suffix cut off (a contiguous slice of the input), and a non-empty result neither starts nor ends with whitespace |
| Text.TrimEmptyIffBlank | src/ChatRoom.js:42 | `inputMessage.trim() !== ''` holds exactly when the draft has a non-whitespace character (both directions) |
| Text.TrimIdempotent | src/ChatRoom.js:42 | trimming an already trimmed string changes nothing |
| Text.FindFrom | src/ChatRoom.js:117-119 | for a start `k` within the string, searching from `k` finds the first occurrence of the pattern at or after `k`, or reports none exactly when no occurrence exists there |
| Text.IndexOf | src/ChatRoom.js:117-119 | `indexOf` returns the first occurrence of the pattern, or none exactly when the pattern does not occur |
| Text.IndexOfFirst | src/ChatRoom.js:117-119 | any occurrence with no earlier one is the index `indexOf` reports |
| Text.Contains | src/ChatRoom.js:117 | `includes` is true exactly when the pattern occurs somewhere in the string |
| Text.ReplaceFirst | src/ChatRoom.js:119 | `replace` with a string pattern and a literal replacement leaves a string without an occurrence unchanged |
| Text.ReplaceFirstAt | src/ChatRoom.js:119 | with the first occurrence at `i`, `replace` with a literal replacement splices the replacement in at `i` and keeps everything else; the length changes by the length difference |
| Text.ReplaceFirstKeepsLaterOccurrences | src/ChatRoom.js:119 | `replace` replaces once: a later non-overlapping occurrence survives, shifted by the length difference |
| ChatRoom.HandlePairing | src/ChatRoom.js:26-29 | from any state: emits exactly `startPairing` and sets the pairing flag; peer, log, draft and peer-left flag are unchanged |
| ChatRoom.HandleUnpair | src/ChatRoom.js:32-37 | emits exactly `unpair`; pairing off, no peer, empty log; the draft and the peer-left flag are kept |
| ChatRoom.EditInput | src/ChatRoom.js:144 | typing replaces the draft and changes nothing else; nothing is emitted |
| ChatRoom.HandleSendMessage | src/ChatRoom.js:40-54 | a draft with a non-whitespace character appends exactly one message (local sender, untrimmed draft, given instant) and emits that same message once; a blank draft leaves the log alone and emits nothing; the draft is cleared either way; peer and flags unchanged |
| ChatRoom.StartChat | src/ChatRoom.js:57-62 | pairing off, peer set to the given id, empty log, peer-left flag cleared; the draft is kept; nothing is emitted |
| ChatRoom.OtherUserLeft | src/ChatRoom.js:64-66 | sets the peer-left flag and changes nothing else |
| ChatRoom.ReceiveMessage | src/ChatRoom.js:67-71 | appends the message at the end exactly when its sender is the current peer, otherwise the state is untouched; existing entries stay a prefix of the log either way; nothing is emitted |
| ChatRoom.StartChatIdempotent | src/ChatRoom.js:57-62 | a second `startChat` with the same peer yields the same state as one |
| ChatRoom.OtherUserLeftIdempotent | src/ChatRoom.js:64-66 | a second `otherUserLeft` changes nothing further |
| ChatRoom.InitialIsIdle | src/ChatRoom.js:11-15 | the component mounts with the `useState` defaults: not pairing, no peer, an empty log, an empty draft, no peer-left notice; that state satisfies the log invariant |
| Display.SideOf | src/ChatRoom.js:101-115 | a message is placed on the peer side exactly when its sender is the current peer, and on the self side otherwise |
| Display.NormalizeLabel | src/ChatRoom.js:117-119 | a label containing 少於 becomes exactly 剛剛; a label with neither 少於 nor 大約 is shown unchanged |
| Display.NormalizeLabelCutsFirstAbout | src/ChatRoom.js:117-119 | without 少於, exactly the first 大約 is cut out and the rest is kept in place, two characters shorter |
| Display.AboutLabelKeepsItsWording | src/ChatRoom.js:117-119 | the label "大約 1 小時前" ("about 1 hour ago") is shown as " 1 小時前", not collapsed to 剛剛 |
| Display.Project | src/ChatRoom.js:94-123 | one row per logged message in log order, carrying its text, its normalised label and a side that is the peer side exactly when the sender is the peer |
| Display.SidesMatchOrigin | src/ChatRoom.js:101-115 | under the log invariant, with a peer other than ourselves, a row is on the self side exactly when we sent it |
| Traces.ApplyPreservesLogFromParticipants | src/ChatRoom.js:32-71 | each handler keeps the log invariant: only the local id or the current peer appears as a sender |
| Traces.RunPreservesLogFromParticipants | src/ChatRoom.js:32-71 | the log invariant survives any sequence of actions and events |
| Traces.ReachableLogFromParticipants | src/ChatRoom.js:11-71 | no state reachable from mounting ever logs a third party's message |
| Traces.RunSendsOnlyOwnMessages | src/ChatRoom.js:43-48 | every `sendMessage` the client ever emits carries the local id as sender |
| Traces.StablePeerExtendsLog | src/ChatRoom.js:40-71 | while no pairing or leaving happens, the peer stays the same and the old log stays a prefix of the new one: nothing shown is dropped or reordered |
| Traces.BlankSubmitIsSilent | src/ChatRoom.js:40-54 | typing a whitespace-only draft and submitting leaves the log as it was, emits nothing and empties the box |
| Traces.SendThenReceiveInOrder | src/ChatRoom.js:40-71 | a sent message followed by a reply from the peer appear at the end of the log in that order |
| Traces.StaleSenderDropped | src/ChatRoom.js:26-71 | after pairing with one peer, a message from anyone else is dropped and the log stays empty |
| Traces.RepairStartsEmpty | src/ChatRoom.js:26-62 | leaving and pairing again, even with the same peer, starts an empty log; exactly `unpair` and then `startPairing` are emitted |

## Left out

- The socket.io connection (src/ChatRoom.js:4-8) is network I/O. Emissions are returned as a list of `Outbound` events.
- React hook mechanics (src/ChatRoom.js:11-15, 56-78) are left out: `useState` batching and `useEffect` listener registration and teardown. Each callback acts on the current state, one at a time. In the program, the `receiveMessage` callback compares against the `chattingUser` captured at the last effect run. A message delivered between `startChat` and the re-subscription is therefore judged against the previous peer. An old peer's message can then land in the freshly cleared log, and a new peer's first message can be dropped. `Traces.ReachableLogFromParticipants`, `Traces.SendThenReceiveInOrder` and the other trace lemmas hold under the current-state reading only.
- The scroll-to-bottom effect (src/ChatRoom.js:18-23) and all layout and styling (src/ChatRoom.js:80-172) are presentation only.
- `formatDistanceToNow` with the zh-TW locale (src/ChatRoom.js:95-98) is a foreign time library. Its output is a caller-supplied function of the timestamp.
- Display.Project: cannot fail, because `ago` is total over integer timestamps. In the program, `formatDistanceToNow` throws `RangeError` on an invalid date. A received message with a missing or malformed `timestamp` passes the sender check (src/ChatRoom.js:68), is appended, and then makes the render at src/ChatRoom.js:95-98 throw. That crash is not modelled.
- `new Date()` (src/ChatRoom.js:46) reads the clock. The instant is a caller-supplied integer.
- `socket.id` is a fixed parameter. A reconnect that changes the id mid-session is not modelled.
- Socket ids are strings, so the model cannot represent a received message whose sender is `null`. In JavaScript such a message would match a `null` peer.
- The view shows the chat only when the peer id is truthy (src/ChatRoom.js:87). An empty-string peer id would hide the chat. The model treats any present id as a session.
- `e.preventDefault()` (src/ChatRoom.js:41) is left out. Its effect is that one submission calls the handler once.
- Text: JavaScript strings are UTF-16 code units, while the model uses one `char` per Unicode code point. Lengths differ for characters outside the Basic Multilingual Plane, and lone surrogates cannot be represented. Every character the component inspects (the whitespace set, 少於, 大約) lies in that plane, so nothing in the core depends on the difference.
- Text.ReplaceFirst: takes the replacement literally. JavaScript expands `$&`, `$$`, `` $` `` and `$'` in a string replacement. The component only replaces with the empty string (src/ChatRoom.js:119), so its behaviour is unaffected. `trim`'s whitespace set is written out from ECMA-262's WhiteSpace and LineTerminator productions, with the Unicode space separators as of Unicode 15.
