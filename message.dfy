/** `Code.Message`, the envelope carried from hop to hop: the route in the clear, the index of
    the hop it is addressed to, the current onion layer as three Base64 strings, and the
    content a destination fills in. */
module Messages {
  import opened Wrappers
  import opened Bytes
  import opened Keys
  import Base64

  /** The value of a message's fields at one moment. */
  datatype MessageState = MessageState(
    content: Option<string>,
    fullPath: seq<NodeId>,
    currentHopIndex: nat,
    encryptedPayloadBase64: string,
    ivBase64: string,
    encryptedSymmetricKeyBase64: string)
  {
    /** The index addresses a hop of the route. */
    predicate IndexInRange() {
      currentHopIndex < |fullPath|
    }

    /** The node the message is addressed to. */
    function CurrentHop(): NodeId
      requires IndexInRange()
    {
      fullPath[currentHopIndex]
    }
  }

  /** The effect of `incrementHopIndex` on a message's fields: the index moves on by one unless
      it already addresses the last hop (or lies beyond it). */
  function Incremented(s: MessageState): (r: MessageState)
    ensures r.fullPath == s.fullPath && r.content == s.content
    ensures r.encryptedPayloadBase64 == s.encryptedPayloadBase64 && r.ivBase64 == s.ivBase64
    ensures r.encryptedSymmetricKeyBase64 == s.encryptedSymmetricKeyBase64
    ensures s.currentHopIndex + 1 < |s.fullPath| ==> r.currentHopIndex == s.currentHopIndex + 1
    ensures s.currentHopIndex + 1 >= |s.fullPath| ==> r.currentHopIndex == s.currentHopIndex
    ensures s.IndexInRange() ==> r.IndexInRange()
  {
    if s.currentHopIndex < |s.fullPath| - 1 then s.(currentHopIndex := s.currentHopIndex + 1) else s
  }

  /** The three fields `Message.equals` compares. */
  predicate SameRouteAndContent(a: MessageState, b: MessageState) {
    a.currentHopIndex == b.currentHopIndex && a.content == b.content && a.fullPath == b.fullPath
  }

  class Message {
    var content: Option<string>
    var fullPath: seq<NodeId>
    var currentHopIndex: nat
    var encryptedPayloadBase64: string
    var ivBase64: string
    var encryptedSymmetricKeyForThisHopBase64: string

    /** The message's fields as one value: what a peer is handed when the message is written. */
    function State(): MessageState
      reads this
    {
      MessageState(content, fullPath, currentHopIndex, encryptedPayloadBase64, ivBase64,
                   encryptedSymmetricKeyForThisHopBase64)
    }

    /** A new message has no content, is addressed to the first hop, and keeps the route and
        the three layer strings it is given. */
    constructor (fullPath: seq<NodeId>, encryptedPayloadBase64: string, ivBase64: string,
                 encryptedSymmetricKeyForThisHopBase64: string)
      ensures State() == MessageState(None, fullPath, 0, encryptedPayloadBase64, ivBase64,
                                      encryptedSymmetricKeyForThisHopBase64)
    {
      this.content := None;
      this.fullPath := fullPath;
      this.currentHopIndex := 0;
      this.encryptedPayloadBase64 := encryptedPayloadBase64;
      this.ivBase64 := ivBase64;
      this.encryptedSymmetricKeyForThisHopBase64 := encryptedSymmetricKeyForThisHopBase64;
    }

    /** `setContent`: the destination's delivery of the plaintext. */
    method SetContent(content: Option<string>)
      modifies this`content
      ensures State() == old(State()).(content := content)
    {
      this.content := content;
    }

    /** `getNextHopID`: the node after the addressed one, `None` (Java's `null`) when the
        addressed hop is the last or the index lies beyond the route. */
    function GetNextHopId(): (r: Option<NodeId>)
      reads this
      ensures r.Some? <==> currentHopIndex + 1 < |fullPath|
      ensures r.Some? ==> r.value == fullPath[currentHopIndex + 1]
    {
      if currentHopIndex + 1 < |fullPath| then Some(fullPath[currentHopIndex + 1]) else None
    }

    /** `incrementHopIndex`: never moves the index past the last hop. */
    method IncrementHopIndex()
      modifies this`currentHopIndex
      ensures State() == Incremented(old(State()))
    {
      if currentHopIndex < |fullPath| - 1 {
        currentHopIndex := currentHopIndex + 1;
      }
    }

    /** `getEncryptedPayload`: `None` stands for the exception of a string that is not Base64. */
    function GetEncryptedPayload(): Option<seq<byte>>
      reads this
    {
      Base64.Decode(encryptedPayloadBase64)
    }

    function GetIv(): Option<seq<byte>>
      reads this
    {
      Base64.Decode(ivBase64)
    }

    function GetEncryptedSymmetricKeyForThisHop(): Option<seq<byte>>
      reads this
    {
      Base64.Decode(encryptedSymmetricKeyForThisHopBase64)
    }

    /** `setEncryptedPayload`: stores the Base64 text of `b`; reading it back gives `b`, and
        nothing else changes. */
    method SetEncryptedPayload(b: seq<byte>)
      modifies this`encryptedPayloadBase64
      ensures State() == old(State()).(encryptedPayloadBase64 := Base64.Encode(b))
      ensures GetEncryptedPayload() == Some(b)
    {
      encryptedPayloadBase64 := Base64.Encode(b);
      Base64.DecodeEncode(b);
    }

    method SetIv(b: seq<byte>)
      modifies this`ivBase64
      ensures State() == old(State()).(ivBase64 := Base64.Encode(b))
      ensures GetIv() == Some(b)
    {
      ivBase64 := Base64.Encode(b);
      Base64.DecodeEncode(b);
    }

    method SetEncryptedSymmetricKeyForThisHop(b: seq<byte>)
      modifies this`encryptedSymmetricKeyForThisHopBase64
      ensures State() == old(State()).(encryptedSymmetricKeyBase64 := Base64.Encode(b))
      ensures GetEncryptedSymmetricKeyForThisHop() == Some(b)
    {
      encryptedSymmetricKeyForThisHopBase64 := Base64.Encode(b);
      Base64.DecodeEncode(b);
    }

    /** `equals`: the same object, or another message with the same hop index, content and
        route; the three layer strings are not compared. */
    predicate Equals(o: Message?)
      reads this, o
    {
      o != null &&
      (o == this ||
       (currentHopIndex == o.currentHopIndex && content == o.content && fullPath == o.fullPath))
    }
  }

  /** `equals` agrees with comparing route, index and content, so two messages that differ
      only in their layer strings are equal, and it is an equivalence on messages. */
  lemma EqualsMeansSameRouteAndContent(a: Message, b: Message)
    ensures a.Equals(b) <==> SameRouteAndContent(a.State(), b.State())
  {
  }

  /** `getNextHopID` names the hop `incrementHopIndex` moves the message to: there is a next
      hop exactly when the increment moves the index, and then it is the hop the incremented
      message is addressed to. */
  lemma NextHopIsIncrementedHop(m: Message)
    ensures m.GetNextHopId().None? <==> Incremented(m.State()) == m.State()
    ensures m.GetNextHopId().Some? ==>
              Incremented(m.State()).IndexInRange() && m.GetNextHopId().value == Incremented(m.State()).CurrentHop()
  {
  }

  /** A message on `path` addressed to hop `k`, short of the last, names `path[k + 1]` as
      its next hop. */
  lemma NextHopOnRoute(m: Message, path: seq<NodeId>, k: nat)
    requires m.State().fullPath == path && m.State().currentHopIndex == k && k + 1 < |path|
    ensures m.GetNextHopId() == Some(path[k + 1])
  {
  }

  lemma EqualsIsEquivalence(a: Message, b: Message, c: Message)
    ensures a.Equals(a)
    ensures a.Equals(b) ==> b.Equals(a)
    ensures a.Equals(b) && b.Equals(c) ==> a.Equals(c)
  {
  }
}
