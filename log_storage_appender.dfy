/** The log storage appender: it takes the next block of the write buffer
    and appends it to the distributed log, with the position of the block's
    last event as commit position.

    A block is a byte buffer of logged events laid end to end. How the header
    of the event at an offset is read is a parameter, `readEvent`; a
    fragment's length includes its header, so it is positive. */
module LogAppender {

  type Bytes = seq<bv8>

  /** The header fields of the logged event at an offset: its position and
      its fragment length. */
  datatype LoggedEvent = LoggedEvent(position: int, fragmentLength: nat)

  /** The offsets of the events visited from `offset` on, up to the end of
      the buffer. */
  function Walk(buffer: Bytes, readEvent: (Bytes, nat) -> LoggedEvent, offset: nat): seq<nat>
    requires forall o :: readEvent(buffer, o).fragmentLength > 0
    decreases |buffer| - offset
  {
    if offset >= |buffer| then []
    else [offset] + Walk(buffer, readEvent, offset + readEvent(buffer, offset).fragmentLength)
  }

  /** The position of the last event visited from `offset` on, or `last`
      when there is none. */
  function LastFrom(buffer: Bytes, readEvent: (Bytes, nat) -> LoggedEvent, offset: nat, last: int): int
    requires forall o :: readEvent(buffer, o).fragmentLength > 0
  {
    var w := Walk(buffer, readEvent, offset);
    if |w| == 0 then last else readEvent(buffer, w[|w| - 1]).position
  }

  /** The walk from an offset inside the buffer starts there, each further
      offset advances by the previous fragment's length, every offset lies
      inside the buffer, and the last fragment reaches the buffer's end. */
  lemma {:induction false} WalkShape(buffer: Bytes, readEvent: (Bytes, nat) -> LoggedEvent, offset: nat)
    requires forall o :: readEvent(buffer, o).fragmentLength > 0
    ensures var w := Walk(buffer, readEvent, offset);
      && (|w| == 0 <==> offset >= |buffer|)
      && (|w| > 0 ==> w[0] == offset && w[|w| - 1] + readEvent(buffer, w[|w| - 1]).fragmentLength >= |buffer|)
      && (forall i :: 0 <= i < |w| ==> offset <= w[i] < |buffer|)
      && (forall i :: 0 <= i < |w| - 1 ==> w[i + 1] == w[i] + readEvent(buffer, w[i]).fragmentLength)
    decreases |buffer| - offset
  {
    if offset < |buffer| {
      var next := offset + readEvent(buffer, offset).fragmentLength;
      WalkShape(buffer, readEvent, next);
      var w := Walk(buffer, readEvent, offset);
      var rest := Walk(buffer, readEvent, next);
      assert w == [offset] + rest;
      assert forall i :: 1 <= i < |w| ==> w[i] == rest[i - 1];
    }
  }

  /** getLastEventPosition: walks the events fragment by fragment; -1 for an
      empty buffer, else the position of the last event. */
  method GetLastEventPosition(buffer: Bytes, readEvent: (Bytes, nat) -> LoggedEvent) returns (lastEventPosition: int)
    requires forall o :: readEvent(buffer, o).fragmentLength > 0
    ensures lastEventPosition == LastFrom(buffer, readEvent, 0, -1)
  {
    var bufferOffset: nat := 0;
    lastEventPosition := -1;
    var remaining := |buffer| - bufferOffset;
    while remaining > 0
      invariant remaining == |buffer| - bufferOffset
      invariant LastFrom(buffer, readEvent, 0, -1) == LastFrom(buffer, readEvent, bufferOffset, lastEventPosition)
      decreases remaining
    {
      var nextEvent := readEvent(buffer, bufferOffset);
      var next := bufferOffset + nextEvent.fragmentLength;
      assert Walk(buffer, readEvent, bufferOffset) == [bufferOffset] + Walk(buffer, readEvent, next);
      bufferOffset := next;
      lastEventPosition := nextEvent.position;
      remaining := |buffer| - bufferOffset;
    }
  }

  /** An empty block has no last event; a non-empty one has the position of
      the event whose fragment reaches the end of the block. */
  lemma LastEventPositionMeaning(buffer: Bytes, readEvent: (Bytes, nat) -> LoggedEvent)
    requires forall o :: readEvent(buffer, o).fragmentLength > 0
    ensures |buffer| == 0 ==> LastFrom(buffer, readEvent, 0, -1) == -1
    ensures |buffer| > 0 ==>
      exists o :: 0 <= o < |buffer| && o + readEvent(buffer, o).fragmentLength >= |buffer|
        && LastFrom(buffer, readEvent, 0, -1) == readEvent(buffer, o).position
  {
    WalkShape(buffer, readEvent, 0);
    if |buffer| > 0 {
      var w := Walk(buffer, readEvent, 0);
      var o := w[|w| - 1];
      assert 0 <= o < |buffer|;
    }
  }

  /** A block of one event: its position. */
  lemma SingleEventBlock(buffer: Bytes, readEvent: (Bytes, nat) -> LoggedEvent)
    requires forall o :: readEvent(buffer, o).fragmentLength > 0
    requires |buffer| > 0 && readEvent(buffer, 0).fragmentLength >= |buffer|
    ensures LastFrom(buffer, readEvent, 0, -1) == readEvent(buffer, 0).position
  {
    assert Walk(buffer, readEvent, 0) == [0] + Walk(buffer, readEvent, readEvent(buffer, 0).fragmentLength);
  }

  /** The appender's state: the block being appended with its commit
      position, the appends requested from the distributed log, and the
      number of blocks marked completed in the write buffer. */
  class LogStorageAppender {
    var bytesToAppend: Bytes
    var commitPosition: int
    var appended: seq<(Bytes, int)>
    var completedBlocks: nat

    constructor()
      ensures bytesToAppend == [] && appended == [] && completedBlocks == 0
    {
      bytesToAppend := [];
      commitPosition := 0;
      appended := [];
      completedBlocks := 0;
    }

    /** peekBlock: a non-empty peek is appended; otherwise the actor yields and
        nothing changes. */
    method PeekBlock(peeked: Bytes, readEvent: (Bytes, nat) -> LoggedEvent)
      requires forall o :: readEvent(peeked, o).fragmentLength > 0
      modifies this
      ensures |peeked| > 0 ==>
        && bytesToAppend == peeked
        && commitPosition == LastFrom(peeked, readEvent, 0, -1)
        && appended == old(appended) + [(peeked, commitPosition)]
        && completedBlocks == old(completedBlocks) + 1
      ensures |peeked| == 0 ==>
        bytesToAppend == old(bytesToAppend) && commitPosition == old(commitPosition)
        && appended == old(appended) && completedBlocks == old(completedBlocks)
    {
      if |peeked| > 0 {
        AppendBlock(peeked, readEvent);
      }
    }

    /** appendBlock then tryWrite: the block is appended with the position
        of its last event as commit position, and marked completed. */
    method AppendBlock(block: Bytes, readEvent: (Bytes, nat) -> LoggedEvent)
      requires forall o :: readEvent(block, o).fragmentLength > 0
      modifies this
      ensures bytesToAppend == block
      ensures commitPosition == LastFrom(block, readEvent, 0, -1)
      ensures appended == old(appended) + [(block, commitPosition)]
      ensures completedBlocks == old(completedBlocks) + 1
    {
      bytesToAppend := block;
      commitPosition := GetLastEventPosition(bytesToAppend, readEvent);
      appended := appended + [(bytesToAppend, commitPosition)];
      completedBlocks := completedBlocks + 1;
    }
  }
}
