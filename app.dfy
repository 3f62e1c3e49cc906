/** The whiteboard as the page runs it: closure variables updated in place by
    pointer handlers, button handlers and the network handler. Every method is
    proved against the Board transitions of module Replica. */
module App {
  import opened Json
  import opened Frames
  import opened Replica

  datatype Point = Point(x: real, y: real)

  /** A stroke as the page builds it; the logic never looks inside. */
  datatype Stroke = Stroke(id: string, color: string, size: real, points: seq<Point>)

  function PointValue(p: Point): Value {
    Obj(map["x" := Num(p.x), "y" := Num(p.y)])
  }

  /** The stroke object as it is pushed to the history and stringified. */
  function StrokeValue(s: Stroke): (r: Value)
    ensures Member(r, "id") == Found(Str(s.id))
    ensures Member(r, "color") == Found(Str(s.color))
    ensures Member(r, "size") == Found(Num(s.size))
    ensures Member(r, "points").Found? && Member(r, "points").v.Arr?
    ensures var ps := Member(r, "points").v.items;
            |ps| == |s.points| && forall i | 0 <= i < |ps| :: ps[i] == PointValue(s.points[i])
  {
    Obj(map["id" := Str(s.id), "color" := Str(s.color), "size" := Num(s.size),
            "points" := Arr(seq(|s.points|, i requires 0 <= i < |s.points| => PointValue(s.points[i])))])
  }

  const DefaultColor := "#FFFFFF"
  const DefaultSize := 4.0

  /** Frames sent when the session opens, as the page sends them: the literal
      history request whenever more than one participant is present. */
  function InitFramesAsWritten(participants: seq<string>): (r: seq<string>)
    ensures r != [] <==> |participants| > 1
    ensures forall f <- r :: f == LiteralHistoryRequest
  {
    if |participants| > 1 then [LiteralHistoryRequest] else []
  }

  /** Frames sent when the session opens, with the request in the JSON form
      the receiving handler answers. */
  function InitFrames(c: Codec, participants: seq<string>): (r: seq<string>)
    ensures r != [] <==> |participants| > 1
    ensures forall f <- r :: f == JsonHistoryRequest(c)
  {
    if |participants| > 1 then [JsonHistoryRequest(c)] else []
  }

  /** As the page is written, a late joiner's request reaches a peer that
      neither replies nor changes its board, so the joiner never catches up. */
  lemma AsWrittenJoinerGetsNoReply(c: Codec, joiner: string, peer: Board, participants: seq<string>)
    requires RejectsW(c) && |participants| > 1
    ensures |InitFramesAsWritten(participants)| == 1
    ensures var a := Classify(c, Envelope(joiner, Text(InitFramesAsWritten(participants)[0])));
            Replies(c, peer, a) == [] && Apply(peer, a) == peer
  {
    LiteralHistoryRequestIgnored(c, joiner);
  }

  /** With the JSON request, the peer answers with a snapshot of its history
      and keeps its own board; the snapshot makes the joiner's history equal
      to the peer's, whatever the joiner held before. */
  lemma LateJoinerCatchesUp(c: Codec, joinerAddr: string, peerAddr: string,
                            peer: Board, joiner: Board, participants: seq<string>)
    requires RejectsW(c) && RoundTrips(c, TypeOnly(GetHistoryType)) && RoundTrips(c, Arr(peer.history))
    requires |participants| > 1
    ensures |InitFrames(c, participants)| == 1
    ensures var a := Classify(c, Envelope(joinerAddr, Text(InitFrames(c, participants)[0])));
            && Replies(c, peer, a) == [SnapshotFrame(c, peer.history)]
            && Apply(peer, a) == peer
            && Apply(joiner, Classify(c, Envelope(peerAddr, Text(Replies(c, peer, a)[0]))))
               == Board(peer.history, joiner.redoStack)
  {
    JsonHistoryRequestAnswered(c, joinerAddr);
    SnapshotOverwrites(c, peerAddr, joiner, peer.history);
  }

  class Whiteboard {
    /** The host's JSON library. */
    const codec: Codec
    var selectedColor: string
    var selectedSize: real
    var drawing: bool
    var currentStroke: Option<Stroke>
    var history: seq<Value>
    var redoStack: seq<Value>
    /** Every frame handed to the transport, oldest first. */
    var outbox: seq<string>

    ghost predicate Valid()
      reads this
    {
      drawing ==> currentStroke.Some?
    }

    /** The shared part of the state. */
    function State(): Board
      reads this
    {
      Board(history, redoStack)
    }

    constructor(codec: Codec)
      ensures Valid() && this.codec == codec
      ensures !drawing && currentStroke == None
      ensures State() == Empty && outbox == []
      ensures selectedColor == DefaultColor && selectedSize == DefaultSize
    {
      this.codec := codec;
      selectedColor, selectedSize := DefaultColor, DefaultSize;
      drawing, currentStroke := false, None;
      history, redoStack := [], [];
      outbox := [];
    }

    /** sendNetwork: the frame goes to the transport. */
    method SendNetwork(frame: string)
      modifies this`outbox
      ensures outbox == old(outbox) + [frame]
    {
      outbox := outbox + [frame];
    }

    /** Pointer down: invalidates redo and opens a stroke holding the point
      under the pointer. */
    method StartDrawing(id: string, pos: Point)
      requires Valid()
      modifies this`drawing, this`redoStack, this`currentStroke
      ensures Valid() && drawing
      ensures currentStroke == Some(Stroke(id, selectedColor, selectedSize, [pos]))
      ensures redoStack == []
    {
      drawing := true;
      redoStack := [];
      currentStroke := Some(Stroke(id, selectedColor, selectedSize, []));
      MoveDrawing(pos);
      assert [] + [pos] == [pos];
    }

    /** Pointer move: extends the open stroke; ignored when not drawing. */
    method MoveDrawing(pos: Point)
      requires Valid()
      modifies this`currentStroke
      ensures Valid()
      ensures !drawing ==> currentStroke == old(currentStroke)
      ensures drawing ==>
                currentStroke == Some(old(currentStroke.value).(points := old(currentStroke.value.points) + [pos]))
    {
      if !drawing {
        return;
      }
      var s := currentStroke.value;
      currentStroke := Some(s.(points := s.points + [pos]));
    }

    /** Pointer up: a stroke with at least one point is committed to the
      history and sent; without a stroke in progress nothing happens. */
    method StopDrawing()
      requires Valid()
      modifies this`drawing, this`currentStroke, this`history, this`outbox
      ensures Valid() && !drawing
      ensures var s := old(currentStroke);
        if old(drawing) && s.Some? && |s.value.points| > 0 then
          && State() == Commit(old(State()), StrokeValue(s.value))
          && outbox == old(outbox) + [EditFrame(codec, StrokeOp(StrokeValue(s.value)))]
          && currentStroke == None
        else
          && State() == old(State())
          && outbox == old(outbox)
          && currentStroke == old(currentStroke)
    {
      if !drawing {
        return;
      }
      drawing := false;
      if currentStroke.Some? && |currentStroke.value.points| > 0 {
        var v := StrokeValue(currentStroke.value);
        history := history + [v];
        SendNetwork(EditFrame(codec, StrokeOp(v)));
        currentStroke := None;
      }
    }

    /** The undo button: no-op on an empty history, otherwise moves the last
      stroke to the redo stack and sends an undo frame. */
    method UndoClicked()
      modifies this`history, this`redoStack, this`outbox
      ensures State() == Undo(old(State()))
      ensures outbox == old(outbox) + (if old(history) == [] then [] else [EditFrame(codec, UndoOp)])
    {
      if |history| == 0 {
        return;
      }
      redoStack := redoStack + [history[|history| - 1]];
      history := history[..|history| - 1];
      SendNetwork(EditFrame(codec, UndoOp));
    }

    /** The redo button: no-op on an empty redo stack, otherwise moves its top
      back to the end of the history and sends a redo frame. */
    method RedoClicked()
      modifies this`history, this`redoStack, this`outbox
      ensures State() == Redo(old(State()))
      ensures outbox == old(outbox) + (if old(redoStack) == [] then [] else [EditFrame(codec, RedoOp)])
    {
      if |redoStack| == 0 {
        return;
      }
      history := history + [redoStack[|redoStack| - 1]];
      redoStack := redoStack[..|redoStack| - 1];
      SendNetwork(EditFrame(codec, RedoOp));
    }

    /** The clear button: empties both sequences and sends a clear frame. */
    method ClearClicked()
      modifies this`history, this`redoStack, this`outbox
      ensures State() == Empty
      ensures outbox == old(outbox) + [EditFrame(codec, ClearOp)]
    {
      history := [];
      redoStack := [];
      SendNetwork(EditFrame(codec, ClearOp));
    }

    /** updateUndoRedo: a button is disabled exactly when pressing it would
      change nothing. */
    method UndoRedoDisabled() returns (undoDisabled: bool, redoDisabled: bool)
      ensures undoDisabled <==> Undo(State()) == State()
      ensures redoDisabled <==> Redo(State()) == State()
    {
      undoDisabled := |history| == 0;
      redoDisabled := |redoStack| == 0;
    }

    /** handleIncomingNetwork: classifies the frame and applies it. Remote
      edits follow the local guards and moves but send nothing; the result
      tells the caller whether a chunk is to be played. */
    method HandleIncoming(obj: Inbound) returns (a: Action)
      modifies this`history, this`redoStack, this`outbox
      ensures a == Classify(codec, obj)
      ensures State() == Apply(old(State()), a)
      ensures outbox == old(outbox) + Replies(codec, old(State()), a)
    {
      a := Classify(codec, obj);
      match a
      case AddStroke(p) =>
        history := history + [p];
      case UndoLast =>
        if |history| > 0 {
          redoStack := redoStack + [history[|history| - 1]];
          history := history[..|history| - 1];
        }
      case RedoLast =>
        if |redoStack| > 0 {
          history := history + [redoStack[|redoStack| - 1]];
          redoStack := redoStack[..|redoStack| - 1];
        }
      case ClearAll =>
        history := [];
        redoStack := [];
      case SendHistory =>
        SendNetwork(SnapshotFrame(codec, history));
      case ReplaceHistory(items) =>
        history := items;
      case ReplyPong =>
        SendNetwork(Pong);
      case PlayAudio(_) =>
      case PeerAlive =>
      case Ignore =>
    }

    /** onInit: a session opened with more than one participant asks for the
      history, with the literal frame the page sends (see InitFrames for the
      request the handler answers). */
    method OnInit(participants: seq<string>)
      modifies this`outbox
      ensures outbox == old(outbox) + InitFramesAsWritten(participants)
    {
      if |participants| > 1 {
        SendNetwork(LiteralHistoryRequest);
      }
    }
  }
}
