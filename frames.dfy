/** The wire format: the frames the whiteboard sends, and the classification
    of an inbound frame into the action the replica takes. Classification is
    pure; the Whiteboard class applies its result. */
module Frames {
  import opened Json

  predicate HasPrefix(s: string, p: string) {
    |p| <= |s| && s[..|p|] == p
  }

  const DrawTag := "DRAW:"
  const AudioTag := "AUDIO:"
  const Ping := "PRESENCE:PING"
  const Pong := "PRESENCE:PONG"
  /** Sub-tag of a snapshot inside the DRAW family. */
  const HistoryTag := "WHITEBOARD:HISTORY:"
  /** Full prefix of a snapshot frame, tested once more after the DRAW branch. */
  const DrawHistoryTag := "DRAW:WHITEBOARD:HISTORY:"
  /** The `type` a JSON history request carries. */
  const GetHistoryType := "WHITEBOARD:GET_HISTORY"
  /** The history request the late joiner actually sends on init. */
  const LiteralHistoryRequest := "DRAW:WHITEBOARD:GET_HISTORY"

  /** `obj.data`: either a string or some other value. */
  datatype Data = Text(s: string) | NonText

  /** What reaches the handler: the host's envelope `{ senderAddress, data }`,
      or a bare string passed through the exposed test hook. */
  datatype Inbound = Envelope(sender: string, data: Data) | Bare(s: string)

  /** `obj.data || obj`, kept only when it is a string. An envelope whose data
      is the empty string falls back to the envelope itself, which is not a
      string. */
  function FrameText(obj: Inbound): (r: Option<string>)
    ensures r.Some? ==> obj.Bare? || r.value != ""
    ensures obj.Envelope? && obj.data.Text? && obj.data.s != "" ==> r == Some(obj.data.s)
    ensures obj.Envelope? && !(obj.data.Text? && obj.data.s != "") ==> r == None
    ensures obj.Bare? ==> r == Some(obj.s)
  {
    match obj
    case Envelope(_, Text(s)) => if s != "" then Some(s) else None
    case Envelope(_, NonText) => None
    case Bare(s) => Some(s)
  }

  /** What handling one inbound frame amounts to. */
  datatype Action =
    | Ignore
    | AddStroke(payload: Value)
    | UndoLast
    | RedoLast
    | ClearAll
    | SendHistory
    | ReplaceHistory(items: seq<Value>)
    | PlayAudio(chunk: string)
    | ReplyPong
    | PeerAlive

  /** The parsed body of a snapshot, used only when it is an array. */
  function Snapshot(c: Codec, body: string): (a: Action)
    ensures a.ReplaceHistory? || a == Ignore
    ensures c.parse(body).None? ==> a == Ignore
    ensures a.ReplaceHistory? ==> c.parse(body) == Some(Arr(a.items))
    ensures c.parse(body).Some? && c.parse(body).value.Arr? ==>
              a == ReplaceHistory(c.parse(body).value.items)
  {
    match c.parse(body)
    case Some(Arr(items)) => ReplaceHistory(items)
    case _ => Ignore
  }

  /** The catch block: a DRAW body that did not yield an action object is a
      snapshot if it carries the HISTORY sub-tag, and is dropped otherwise. */
  function Fallback(c: Codec, payload: string): (a: Action)
    ensures a.ReplaceHistory? || a == Ignore
    ensures !HasPrefix(payload, HistoryTag) ==> a == Ignore
    ensures HasPrefix(payload, HistoryTag) ==> a == Snapshot(c, payload[|HistoryTag|..])
  {
    if HasPrefix(payload, HistoryTag) then Snapshot(c, payload[|HistoryTag|..]) else Ignore
  }

  /** `payload` of an action object; a missing payload is undefined in the
      source and is modelled as null. */
  function PayloadOf(action: Value): (r: Value)
    ensures action.Obj? && "payload" in action.fields ==> r == action.fields["payload"]
    ensures !(action.Obj? && "payload" in action.fields) ==> r == Null
  {
    match Member(action, "payload")
    case Found(p) => p
    case _ => Null
  }

  /** The body of a DRAW frame: the `try` around JSON.parse and the switch on
      `action.type`, with the catch block as fallback. */
  function ClassifyDraw(c: Codec, payload: string): (a: Action)
    ensures !a.PlayAudio? && a != ReplyPong && a != PeerAlive
    ensures c.parse(payload).None? || c.parse(payload) == Some(Null) ==> a == Fallback(c, payload)
    ensures a.AddStroke? ==>
              && c.parse(payload).Some?
              && Member(c.parse(payload).value, "type") == Found(Str("stroke"))
              && a.payload == PayloadOf(c.parse(payload).value)
    ensures a == SendHistory ==>
              c.parse(payload).Some? && Member(c.parse(payload).value, "type") == Found(Str(GetHistoryType))
  {
    match c.parse(payload)
    case None => Fallback(c, payload)
    case Some(action) =>
      match Member(action, "type")
      case Throws => Fallback(c, payload)
      case Missing => Ignore
      case Found(t) =>
        if t == Str("stroke") then AddStroke(PayloadOf(action))
        else if t == Str("undo") then UndoLast
        else if t == Str("redo") then RedoLast
        else if t == Str("clear") then ClearAll
        else if t == Str(GetHistoryType) then SendHistory
        else Ignore
  }

  /** handleIncomingNetwork's decision, branch for branch. */
  function Classify(c: Codec, obj: Inbound): (a: Action)
    ensures FrameText(obj).None? ==> a == Ignore
    ensures a == ReplyPong ==> FrameText(obj) == Some(Ping)
    ensures a == PeerAlive ==> FrameText(obj) == Some(Pong)
    ensures a.PlayAudio? ==> FrameText(obj) == Some(AudioTag + a.chunk)
  {
    match FrameText(obj)
    case None => Ignore
    case Some(s) =>
      if HasPrefix(s, DrawTag) then ClassifyDraw(c, s[|DrawTag|..])
      else if HasPrefix(s, AudioTag) then
        assert s == s[..|AudioTag|] + s[|AudioTag|..];
        PlayAudio(s[|AudioTag|..])
      else if s == Ping then ReplyPong
      else if s == Pong then PeerAlive
      else if HasPrefix(s, DrawHistoryTag) then Snapshot(c, s[|DrawHistoryTag|..])
      else Ignore
  }

  /** An edit operation as the sender encodes it. */
  datatype EditOp = StrokeOp(stroke: Value) | UndoOp | RedoOp | ClearOp

  /** The object the sender passes to JSON.stringify. */
  function ActionValue(op: EditOp): Value {
    match op
    case StrokeOp(s) => Obj(map["type" := Str("stroke"), "payload" := s])
    case UndoOp => TypeOnly("undo")
    case RedoOp => TypeOnly("redo")
    case ClearOp => TypeOnly("clear")
  }

  /** The action a receiver takes for an edit operation. */
  function Remote(op: EditOp): Action {
    match op
    case StrokeOp(v) => AddStroke(v)
    case UndoOp => UndoLast
    case RedoOp => RedoLast
    case ClearOp => ClearAll
  }

  /** `'DRAW:' + JSON.stringify(action)`. */
  function EditFrame(c: Codec, op: EditOp): (r: string)
    ensures HasPrefix(r, DrawTag) && r[|DrawTag|..] == c.stringify(ActionValue(op))
  {
    DrawPayload(c.stringify(ActionValue(op)));
    DrawTag + c.stringify(ActionValue(op))
  }

  /** The reply to a history request: the whole history as a JSON array. */
  function SnapshotFrame(c: Codec, history: seq<Value>): (r: string)
    ensures HasPrefix(r, DrawTag) && r[|DrawTag|..] == HistoryTag + c.stringify(Arr(history))
  {
    SnapshotFrameSplit(c.stringify(Arr(history)));
    DrawPayload(HistoryTag + c.stringify(Arr(history)));
    DrawHistoryTag + c.stringify(Arr(history))
  }

  /** A history request in the JSON form the receiver answers. */
  function JsonHistoryRequest(c: Codec): (r: string)
    ensures HasPrefix(r, DrawTag) && r[|DrawTag|..] == c.stringify(TypeOnly(GetHistoryType))
  {
    DrawPayload(c.stringify(TypeOnly(GetHistoryType)));
    DrawTag + c.stringify(TypeOnly(GetHistoryType))
  }

  lemma DrawPayload(x: string)
    ensures HasPrefix(DrawTag + x, DrawTag) && (DrawTag + x)[|DrawTag|..] == x
  {
    assert (DrawTag + x)[..|DrawTag|] == DrawTag;
  }

  /** A frame that starts with DRAW: is decided by its body alone. */
  lemma DrawFrameClassified(c: Codec, sender: string, x: string)
    ensures Classify(c, Envelope(sender, Text(DrawTag + x))) == ClassifyDraw(c, x)
  {
    DrawPayload(x);
  }

  /** The switch on `action.type`, for any codec: each of the five known
      types selects its action, an object without `type` is dropped, and a
      body that parses to null goes to the catch block. */
  lemma DrawTypeDispatch(c: Codec, payload: string, action: Value)
    requires c.parse(payload) == Some(action)
    ensures Member(action, "type") == Found(Str("stroke")) ==> ClassifyDraw(c, payload) == AddStroke(PayloadOf(action))
    ensures Member(action, "type") == Found(Str("undo")) ==> ClassifyDraw(c, payload) == UndoLast
    ensures Member(action, "type") == Found(Str("redo")) ==> ClassifyDraw(c, payload) == RedoLast
    ensures Member(action, "type") == Found(Str("clear")) ==> ClassifyDraw(c, payload) == ClearAll
    ensures Member(action, "type") == Found(Str(GetHistoryType)) ==> ClassifyDraw(c, payload) == SendHistory
    ensures Member(action, "type").Missing? ==> ClassifyDraw(c, payload) == Ignore
    ensures Member(action, "type").Throws? ==> ClassifyDraw(c, payload) == Fallback(c, payload)
  {
  }

  /** A DRAW body that parses to the object an edit is encoded as is
      classified as that edit, whatever the codec. */
  lemma EditBodyClassified(c: Codec, body: string, op: EditOp)
    requires c.parse(body) == Some(ActionValue(op))
    ensures ClassifyDraw(c, body) == Remote(op)
  {
    DrawTypeDispatch(c, body, ActionValue(op));
    match op
    case StrokeOp(v) =>
      assert Member(ActionValue(op), "type") == Found(Str("stroke"));
      assert PayloadOf(ActionValue(op)) == v;
    case UndoOp =>
      assert Member(ActionValue(op), "type") == Found(Str("undo"));
    case RedoOp =>
      assert Member(ActionValue(op), "type") == Found(Str("redo"));
    case ClearOp =>
      assert Member(ActionValue(op), "type") == Found(Str("clear"));
  }

  /** Every edit frame a replica sends is classified by its peer as the same
      edit, for all four kinds, when the codec round-trips the edit's object. */
  lemma EditFrameClassified(c: Codec, sender: string, op: EditOp)
    requires RoundTrips(c, ActionValue(op))
    ensures Classify(c, Envelope(sender, Text(EditFrame(c, op)))) == Remote(op)
  {
    var body := c.stringify(ActionValue(op));
    DrawFrameClassified(c, sender, body);
    EditBodyClassified(c, body, op);
  }

  /** Distinct edit operations are sent as distinct frames. */
  lemma EditFrameInjective(c: Codec, op1: EditOp, op2: EditOp)
    requires RoundTrips(c, ActionValue(op1)) && RoundTrips(c, ActionValue(op2))
    requires EditFrame(c, op1) == EditFrame(c, op2)
    ensures op1 == op2
  {
    var b1, b2 := c.stringify(ActionValue(op1)), c.stringify(ActionValue(op2));
    DrawPayload(b1);
    DrawPayload(b2);
    assert b1 == b2;
    assert c.parse(b1) == Some(ActionValue(op1));
    assert c.parse(b2) == Some(ActionValue(op2));
    assert ActionValue(op1) == ActionValue(op2);
    match op1
    case StrokeOp(v) =>
      assert ActionValue(op1).fields["type"] == Str("stroke");
      assert ActionValue(op1).fields["payload"] == v;
    case UndoOp =>
      assert ActionValue(op1).fields["type"] == Str("undo");
    case RedoOp =>
      assert ActionValue(op1).fields["type"] == Str("redo");
    case ClearOp =>
      assert ActionValue(op1).fields["type"] == Str("clear");
  }

  /** The literal request a late joiner sends is not JSON, and it lacks the
      HISTORY sub-tag, so every receiver drops it. */
  lemma LiteralHistoryRequestIgnored(c: Codec, sender: string)
    requires RejectsW(c)
    ensures Classify(c, Envelope(sender, Text(LiteralHistoryRequest))) == Ignore
  {
    var payload := GetHistoryType;
    LiteralRequestSplit();
    DrawFrameClassified(c, sender, payload);
    assert c.parse(payload) == None by {
      assert payload[0] == 'W';
    }
    GetHistoryLacksHistoryTag();
  }

  lemma LiteralRequestSplit()
    ensures LiteralHistoryRequest == DrawTag + GetHistoryType
  {
  }

  lemma GetHistoryLacksHistoryTag()
    ensures !HasPrefix(GetHistoryType, HistoryTag)
  {
    assert GetHistoryType[..|HistoryTag|][11] != HistoryTag[11];
  }

  /** The JSON history request is answered with a snapshot. */
  lemma JsonHistoryRequestAnswered(c: Codec, sender: string)
    requires RoundTrips(c, TypeOnly(GetHistoryType))
    ensures Classify(c, Envelope(sender, Text(JsonHistoryRequest(c)))) == SendHistory
  {
    var body := c.stringify(TypeOnly(GetHistoryType));
    DrawFrameClassified(c, sender, body);
    assert c.parse(body) == Some(TypeOnly(GetHistoryType));
  }

  /** A snapshot of any body: when the tagged text is not JSON and the body
      parses to an array, the array becomes the receiver's history. */
  lemma SnapshotBodyClassified(c: Codec, sender: string, body: string, items: seq<Value>)
    requires c.parse(HistoryTag + body) == None
    requires c.parse(body) == Some(Arr(items))
    ensures Classify(c, Envelope(sender, Text(DrawHistoryTag + body))) == ReplaceHistory(items)
  {
    var payload := HistoryTag + body;
    SnapshotFrameSplit(body);
    DrawFrameClassified(c, sender, payload);
    assert Fallback(c, payload) == Snapshot(c, body) by {
      assert payload[..|HistoryTag|] == HistoryTag;
      assert payload[|HistoryTag|..] == body;
    }
  }

  /** A snapshot frame is taken apart in the catch block of the DRAW branch:
      its body replaces the receiver's history. */
  lemma SnapshotFrameClassified(c: Codec, sender: string, history: seq<Value>)
    requires RejectsW(c) && RoundTrips(c, Arr(history))
    ensures Classify(c, Envelope(sender, Text(SnapshotFrame(c, history)))) == ReplaceHistory(history)
  {
    var body := c.stringify(Arr(history));
    assert c.parse(HistoryTag + body) == None by {
      assert (HistoryTag + body)[0] == 'W';
    }
    SnapshotBodyClassified(c, sender, body, history);
  }

  lemma SnapshotFrameSplit(body: string)
    ensures DrawHistoryTag + body == DrawTag + (HistoryTag + body)
  {
    assert DrawHistoryTag == DrawTag + HistoryTag;
  }

  /** PING is answered with PONG; PONG marks the peer alive. */
  lemma PresenceFramesClassified(c: Codec, sender: string)
    ensures Classify(c, Envelope(sender, Text(Ping))) == ReplyPong
    ensures Classify(c, Envelope(sender, Text(Pong))) == PeerAlive
  {
    assert Ping[..|DrawTag|][0] != DrawTag[0];
    assert Ping[..|AudioTag|][0] != AudioTag[0];
    assert Pong[..|DrawTag|][0] != DrawTag[0];
    assert Pong[..|AudioTag|][0] != AudioTag[0];
  }

  /** An AUDIO frame hands its chunk to playback. */
  lemma AudioFrameClassified(c: Codec, sender: string, chunk: string)
    ensures Classify(c, Envelope(sender, Text(AudioTag + chunk))) == PlayAudio(chunk)
  {
    var s := AudioTag + chunk;
    assert s[..|AudioTag|] == AudioTag;
    assert s[|AudioTag|..] == chunk;
    assert s[..|DrawTag|][0] != DrawTag[0];
  }

  /** The top-level snapshot branch is dead: every frame it would match has
      already been taken by the DRAW branch. */
  lemma DrawHistoryBranchUnreachable(s: string)
    requires HasPrefix(s, DrawHistoryTag)
    ensures HasPrefix(s, DrawTag)
  {
    assert s[..|DrawTag|] == s[..|DrawHistoryTag|][..|DrawTag|];
    assert DrawHistoryTag[..|DrawTag|] == DrawTag;
  }

  /** Text without the `DRAW:` prefix cannot carry the longer snapshot prefix. */
  lemma LacksDrawLacksDrawHistory(s: string)
    requires !HasPrefix(s, DrawTag)
    ensures !HasPrefix(s, DrawHistoryTag)
  {
    if |DrawHistoryTag| <= |s| {
      assert s[..|DrawTag|] == s[..|DrawHistoryTag|][..|DrawTag|];
      assert DrawHistoryTag[..|DrawTag|] == DrawTag;
    }
  }

  /** A text frame that is neither a DRAW nor an AUDIO frame, nor exactly a
      PING or a PONG, falls through every branch and is dropped. */
  lemma UnknownFrameDropped(c: Codec, obj: Inbound)
    requires FrameText(obj).Some?
    requires !HasPrefix(FrameText(obj).value, DrawTag) && !HasPrefix(FrameText(obj).value, AudioTag)
    requires FrameText(obj).value != Ping && FrameText(obj).value != Pong
    ensures Classify(c, obj) == Ignore
  {
    LacksDrawLacksDrawHistory(FrameText(obj).value);
  }

  /** A DRAW body that does not parse and lacks the HISTORY sub-tag, or that
      parses to an object with an unknown `type`, is dropped. */
  lemma MalformedDrawDropped(c: Codec, sender: string, body: string)
    requires (c.parse(body).None? && !HasPrefix(body, HistoryTag))
             || (c.parse(body).Some? && c.parse(body).value.Obj?
                 && "type" in c.parse(body).value.fields
                 && c.parse(body).value.fields["type"] !in
                      {Str("stroke"), Str("undo"), Str("redo"), Str("clear"), Str(GetHistoryType)})
    ensures Classify(c, Envelope(sender, Text(DrawTag + body))) == Ignore
  {
    DrawFrameClassified(c, sender, body);
  }
}
