/** The whiteboard replica's shared state, stroke history and redo stack, and
    its transitions as functions. Local handlers and remote application are
    both specified by these, so they share one set of guards and moves. The
    top of the redo stack is its last element (JavaScript push/pop). */
module Replica {
  import opened Json
  import opened Frames

  datatype Board = Board(history: seq<Value>, redoStack: seq<Value>)

  /** Every stroke the board holds, wherever it sits. */
  function Pool(b: Board): multiset<Value> {
    multiset(b.history) + multiset(b.redoStack)
  }

  const Empty := Board([], [])

  /** A committed stroke (local) or a remote `stroke` edit: appended to the
      history; the redo stack is left alone. */
  function Commit(b: Board, s: Value): (r: Board)
    ensures |r.history| == |b.history| + 1 && r.history[|b.history|] == s
    ensures r.history[..|b.history|] == b.history && r.redoStack == b.redoStack
  {
    Board(b.history + [s], b.redoStack)
  }

  /** Undo: on an empty history nothing happens; otherwise the last stroke of
      the history goes on top of the redo stack. */
  function Undo(b: Board): (r: Board)
    ensures b.history == [] ==> r == b
    ensures b.history != [] ==>
      && |r.history| == |b.history| - 1
      && |r.redoStack| == |b.redoStack| + 1
      && r.history + [r.redoStack[|b.redoStack|]] == b.history
      && r.redoStack[..|b.redoStack|] == b.redoStack
  {
    if b.history == [] then b
    else
      var n := |b.history| - 1;
      assert b.history == b.history[..n] + [b.history[n]];
      Board(b.history[..n], b.redoStack + [b.history[n]])
  }

  /** Redo: on an empty redo stack nothing happens; otherwise the top of the
      redo stack is appended to the history. */
  function Redo(b: Board): (r: Board)
    ensures b.redoStack == [] ==> r == b
    ensures b.redoStack != [] ==>
      && |r.redoStack| == |b.redoStack| - 1
      && |r.history| == |b.history| + 1
      && r.redoStack + [r.history[|b.history|]] == b.redoStack
      && r.history[..|b.history|] == b.history
  {
    if b.redoStack == [] then b
    else
      var n := |b.redoStack| - 1;
      assert b.redoStack == b.redoStack[..n] + [b.redoStack[n]];
      Board(b.history + [b.redoStack[n]], b.redoStack[..n])
  }

  /** An inbound frame's effect on the board. */
  function Apply(b: Board, a: Action): (r: Board)
    ensures !(a.AddStroke? || a.ReplaceHistory? || a in {UndoLast, RedoLast, ClearAll}) ==> r == b
    ensures a.AddStroke? || a.ReplaceHistory? ==> r.redoStack == b.redoStack
    ensures a.ReplaceHistory? ==> r.history == a.items
  {
    match a
    case AddStroke(s) => Commit(b, s)
    case UndoLast => Undo(b)
    case RedoLast => Redo(b)
    case ClearAll => Empty
    case ReplaceHistory(items) => Board(items, b.redoStack)
    case _ => b
  }

  /** The frames sent while handling an inbound frame. */
  function Replies(c: Codec, b: Board, a: Action): (r: seq<string>)
    ensures |r| <= 1
    ensures r != [] <==> a == SendHistory || a == ReplyPong
    ensures a == ReplyPong ==> r == [Pong]
    ensures a == SendHistory ==> HasPrefix(r[0], DrawTag) && r[0][|DrawTag|..] == HistoryTag + c.stringify(Arr(b.history))
  {
    match a
    case SendHistory => [SnapshotFrame(c, b.history)]
    case ReplyPong => [Pong]
    case _ => []
  }

  /** What the local handler of an edit does to the board. */
  function Local(b: Board, op: EditOp): Board {
    match op
    case StrokeOp(s) => Commit(b, s)
    case UndoOp => Undo(b)
    case RedoOp => Redo(b)
    case ClearOp => Empty
  }

  /** Undo only moves a stroke between the two sequences: together they hold
      the same strokes, as often, as before. */
  lemma UndoKeepsPool(b: Board)
    ensures Pool(Undo(b)) == Pool(b)
  {
    if b.history != [] {
      var n := |b.history| - 1;
      var h, x := b.history[..n], b.history[n];
      assert b.history == h + [x];
      assert multiset(b.history) == multiset(h) + multiset{x};
      assert multiset(b.redoStack + [x]) == multiset(b.redoStack) + multiset{x};
    }
  }

  /** Redo only moves a stroke between the two sequences. */
  lemma RedoKeepsPool(b: Board)
    ensures Pool(Redo(b)) == Pool(b)
  {
    if b.redoStack != [] {
      var n := |b.redoStack| - 1;
      var r, x := b.redoStack[..n], b.redoStack[n];
      assert b.redoStack == r + [x];
      assert multiset(b.redoStack) == multiset(r) + multiset{x};
      assert multiset(b.history + [x]) == multiset(b.history) + multiset{x};
    }
  }

  /** Undo followed by redo restores both sequences exactly. */
  lemma UndoThenRedo(b: Board)
    requires b.history != []
    ensures Redo(Undo(b)) == b
  {
    var u := Undo(b);
    assert u.redoStack[|u.redoStack| - 1] == b.history[|b.history| - 1];
    assert u.history + [b.history[|b.history| - 1]] == b.history;
  }

  /** Undo right after a commit takes the committed stroke back onto the
      redo stack and restores the history. */
  lemma UndoAfterCommit(b: Board, s: Value)
    ensures Undo(Commit(b, s)) == Board(b.history, b.redoStack + [s])
  {
    assert (b.history + [s])[..|b.history|] == b.history;
  }

  /** Redo followed by undo restores both sequences exactly. */
  lemma RedoThenUndo(b: Board)
    requires b.redoStack != []
    ensures Undo(Redo(b)) == b
  {
    var r := Redo(b);
    assert r.history[|r.history| - 1] == b.redoStack[|b.redoStack| - 1];
    assert r.redoStack + [b.redoStack[|b.redoStack| - 1]] == b.redoStack;
  }

  /** A frame a replica sends for one of its own edits does to the receiving
      board exactly what the edit did locally, for all four kinds. */
  lemma RemoteMatchesLocal(c: Codec, sender: string, b: Board, op: EditOp)
    requires RoundTrips(c, ActionValue(op))
    ensures Apply(b, Classify(c, Envelope(sender, Text(EditFrame(c, op))))) == Local(b, op)
    ensures Replies(c, b, Classify(c, Envelope(sender, Text(EditFrame(c, op))))) == []
  {
    EditFrameClassified(c, sender, op);
  }

  /** Remote edits are never echoed: a replica sends a frame while handling
      an inbound one only when that frame is exactly PING, or a DRAW frame
      whose body parses to an object of `type` `WHITEBOARD:GET_HISTORY`. */
  lemma NoEcho(c: Codec, b: Board, obj: Inbound)
    ensures Replies(c, b, Classify(c, obj)) != [] ==>
              || FrameText(obj) == Some(Ping)
              || (&& FrameText(obj).Some?
                  && HasPrefix(FrameText(obj).value, DrawTag)
                  && var body := FrameText(obj).value[|DrawTag|..];
                     c.parse(body).Some? && Member(c.parse(body).value, "type") == Found(Str(GetHistoryType)))
  {
    if Classify(c, obj) == SendHistory {
      var s := FrameText(obj).value;
      if !HasPrefix(s, DrawTag) {
        LacksDrawLacksDrawHistory(s);
      }
    }
  }

  /** A PING is answered with exactly one PONG and leaves the board alone. */
  lemma PingAnsweredWithPong(c: Codec, sender: string, b: Board)
    ensures Replies(c, b, Classify(c, Envelope(sender, Text(Ping)))) == [Pong]
    ensures Apply(b, Classify(c, Envelope(sender, Text(Ping)))) == b
  {
    PresenceFramesClassified(c, sender);
  }

  /** Frames that are not strings, audio and presence frames leave the board
      as it was. */
  lemma NonEditFramesKeepBoard(c: Codec, b: Board, obj: Inbound)
    requires FrameText(obj).None? || Classify(c, obj).PlayAudio?
             || Classify(c, obj) == ReplyPong || Classify(c, obj) == PeerAlive
    ensures Apply(b, Classify(c, obj)) == b
  {
  }

  /** Delivery is not deduplicated: the same stroke frame applied twice leaves
      two copies at the end of the history. */
  lemma StrokeTwice(c: Codec, sender: string, b: Board, s: Value)
    requires RoundTrips(c, ActionValue(StrokeOp(s)))
    ensures var f := Envelope(sender, Text(EditFrame(c, StrokeOp(s))));
            Apply(Apply(b, Classify(c, f)), Classify(c, f)) == Board(b.history + [s, s], b.redoStack)
  {
    EditFrameClassified(c, sender, StrokeOp(s));
    assert b.history + [s] + [s] == b.history + [s, s];
  }

  /** Late-joiner catch-up: whatever the joiner held, a snapshot of another
      replica's history becomes its history; its redo stack is kept. */
  lemma SnapshotOverwrites(c: Codec, sender: string, joiner: Board, history: seq<Value>)
    requires RejectsW(c) && RoundTrips(c, Arr(history))
    ensures Apply(joiner, Classify(c, Envelope(sender, Text(SnapshotFrame(c, history)))))
            == Board(history, joiner.redoStack)
  {
    SnapshotFrameClassified(c, sender, history);
  }

  /** Scenario: commit S1 on an empty board, undo, redo. */
  lemma CommitUndoRedoScenario(s1: Value)
    ensures Commit(Empty, s1) == Board([s1], [])
    ensures Undo(Commit(Empty, s1)) == Board([], [s1])
    ensures Redo(Undo(Commit(Empty, s1))) == Board([s1], [])
  {
  }

  /** Scenario: undoing twice reverses the order on the redo stack, and one
      redo brings back the most recently undone stroke. */
  lemma UndoTwiceScenario(s1: Value, s2: Value, s3: Value)
    ensures Commit(Board([s1, s2], []), s3) == Board([s1, s2, s3], [])
    ensures Undo(Undo(Board([s1, s2, s3], []))) == Board([s1], [s3, s2])
    ensures Redo(Board([s1], [s3, s2])) == Board([s1, s2], [s3])
  {
    assert Board([s1, s2, s3], []) == Commit(Board([s1, s2], []), s3);
    UndoAfterCommit(Board([s1, s2], []), s3);
    assert Board([s1, s2], [s3]) == Commit(Board([s1], [s3]), s2);
    UndoAfterCommit(Board([s1], [s3]), s2);
    UndoThenRedo(Commit(Board([s1], [s3]), s2));
  }
}
