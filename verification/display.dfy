/** What the message list shows for each logged message: its text, a
    normalised relative-time label, and the side of the screen it sits on. */
module Display {
  import opened Wrappers
  import opened Text
  import opened ChatRoom

  datatype Side = PeerSide | SelfSide

  /** The zh-TW fragments the label rule looks for and produces. */
  const LessThan: string := "少於"
  const About: string := "大約"
  const JustNow: string := "剛剛"

  /** A message sits on the peer's side (left) exactly when its sender is the
      current peer; anything else sits on the local side (right). */
  function SideOf(m: Message, peer: Option<Id>): (r: Side)
    ensures r == PeerSide <==> peer == Some(m.sender)
    ensures r == SelfSide <==> peer != Some(m.sender)
  {
    if peer.Some? && m.sender == peer.value then PeerSide else SelfSide
  }

  /** Relative-time label normalisation: a label mentioning "less than"
      collapses to "just now"; any other label loses its first "about". */
  function NormalizeLabel(phrase: string): (r: string)
    ensures (exists i: nat :: IsAt(phrase, LessThan, i)) ==> r == JustNow
    ensures (forall i: nat :: !IsAt(phrase, LessThan, i) && !IsAt(phrase, About, i)) ==> r == phrase
  {
    if Contains(phrase, LessThan) then JustNow else ReplaceFirst(phrase, About, "")
  }

  /** Without "less than", the first "about" (at `i`) and only it is cut out. */
  lemma NormalizeLabelCutsFirstAbout(phrase: string, i: nat)
    requires forall k: nat :: !IsAt(phrase, LessThan, k)
    requires IsAt(phrase, About, i)
    requires forall k: nat :: k < i ==> !IsAt(phrase, About, k)
    ensures NormalizeLabel(phrase) == phrase[..i] + phrase[i + |About|..]
    ensures |NormalizeLabel(phrase)| == |phrase| - 2
  {
    ReplaceFirstAt(phrase, About, "", i);
  }

  /** An "about an hour ago" label is not collapsed to "just now": only its
      "about" is cut. */
  lemma AboutLabelKeepsItsWording()
    ensures NormalizeLabel("大約 1 小時前") == " 1 小時前"
  {
    var phrase := "大約 1 小時前";
    forall k: nat
      ensures !IsAt(phrase, LessThan, k)
    {
      if k < |phrase| {
        assert phrase[k] != LessThan[0];
      }
    }
    assert IsAt(phrase, About, 0);
    NormalizeLabelCutsFirstAbout(phrase, 0);
  }

  /** One row of the rendered message list. */
  datatype View = View(text: string, timeAgo: string, side: Side)

  /** The render map over the log, in log order. The relative-time wording
      of a timestamp is supplied by the caller as `ago`. */
  function Project(log: seq<Message>, peer: Option<Id>, ago: Timestamp -> string): (r: seq<View>)
    ensures |r| == |log|
    ensures forall i :: 0 <= i < |log| ==>
      && r[i].text == log[i].text
      && r[i].timeAgo == NormalizeLabel(ago(log[i].timestamp))
      && (r[i].side == PeerSide <==> peer == Some(log[i].sender))
  {
    seq(|log|, i requires 0 <= i < |log| =>
      View(log[i].text, NormalizeLabel(ago(log[i].timestamp)), SideOf(log[i], peer)))
  }

  /** In a session with a peer other than ourselves, the log invariant makes
      the side a faithful origin marker: a row is on the local side exactly
      when we wrote it. */
  lemma SidesMatchOrigin(s: State, self: Id, peer: Id, ago: Timestamp -> string)
    requires LogFromParticipants(s, self)
    requires s.chattingUser == Some(peer) && peer != self
    ensures forall i :: 0 <= i < |s.chatMessages| ==>
      (Project(s.chatMessages, s.chattingUser, ago)[i].side == SelfSide <==> s.chatMessages[i].sender == self)
  {
  }
}
