/** The two row-flip loops between the simulator, whose images start at the bottom row, and ROS,
    whose images start at the top: `imageTransportPublish` and `ros_imtr_callback`. */
module ImageFlip {
  import opened Wrappers

  type Byte = i: nat | i < 256

  /** A ROS image message. */
  datatype Message = Message(width: nat, height: nat, step: nat, bigEndian: bool, data: seq<Byte>)

  /** What the simulator's script is given. */
  datatype Frame = Frame(width: nat, height: nat, data: seq<Byte>)

  // ---------- rows ----------

  /** Where row `i` starts; the source multiplies, and `OffsetIsProduct` says that it is the same. */
  ghost function Offset(step: nat, i: nat): nat {
    if i == 0 then 0 else Offset(step, i - 1) + step
  }

  lemma {:induction false} OffsetIsProduct(step: nat, i: nat)
    ensures Offset(step, i) == i * step
  {
    if i > 0 {
      OffsetIsProduct(step, i - 1);
      assert i * step == (i - 1) * step + step;
    }
  }

  lemma {:induction false} OffsetOrdered(step: nat, i: nat, n: nat)
    requires i <= n
    ensures Offset(step, i) <= Offset(step, n)
  {
    if i < n {
      OffsetOrdered(step, i, n - 1);
    }
  }

  /** Row `i` of an image with rows of `step` bytes. */
  ghost function Row(data: seq<Byte>, step: nat, i: nat): (row: seq<Byte>)
    requires Offset(step, i + 1) <= |data|
    ensures |row| == step
  {
    data[Offset(step, i)..Offset(step, i) + step]
  }

  /** The same for an image of `height` rows. */
  ghost function RowAt(data: seq<Byte>, height: nat, step: nat, i: nat): (row: seq<Byte>)
    requires |data| == Offset(step, height) && i < height
    ensures |row| == step
  {
    OffsetOrdered(step, i + 1, height);
    Row(data, step, i)
  }

  /** The same rows in the opposite order. */
  ghost predicate Flipped(a: seq<Byte>, b: seq<Byte>, height: nat, step: nat) {
    && |a| == Offset(step, height) && |b| == Offset(step, height)
    && forall i | 0 <= i < height :: RowAt(b, height, step, i) == RowAt(a, height, step, height - 1 - i)
  }

  /** Bytes are equal if all rows are. */
  lemma {:induction false} SameRows(a: seq<Byte>, b: seq<Byte>, height: nat, step: nat)
    requires |a| == Offset(step, height) && |b| == Offset(step, height)
    requires forall i | 0 <= i < height :: RowAt(a, height, step, i) == RowAt(b, height, step, i)
    ensures a == b
    decreases height
  {
    if height > 0 {
      var h := height - 1;
      var n := Offset(step, h);
      forall i | 0 <= i < h ensures RowAt(a[..n], h, step, i) == RowAt(b[..n], h, step, i) {
        RowOfPrefix(a, height, step, i);
        RowOfPrefix(b, height, step, i);
      }
      SameRows(a[..n], b[..n], h, step);
      assert RowAt(a, height, step, h) == RowAt(b, height, step, h);
      assert a == a[..n] + RowAt(a, height, step, h) && b == b[..n] + RowAt(b, height, step, h);
    }
  }

  lemma RowOfPrefix(a: seq<Byte>, height: nat, step: nat, i: nat)
    requires |a| == Offset(step, height) && i < height - 1
    ensures Offset(step, height - 1) <= |a|
    ensures RowAt(a[..Offset(step, height - 1)], height - 1, step, i) == RowAt(a, height, step, i)
  {
    OffsetOrdered(step, i + 1, height - 1);
  }

  /** Flipping twice gives back the image. */
  lemma FlippedTwice(a: seq<Byte>, b: seq<Byte>, c: seq<Byte>, height: nat, step: nat)
    requires Flipped(a, b, height, step) && Flipped(b, c, height, step)
    ensures c == a
  {
    forall i | 0 <= i < height ensures RowAt(c, height, step, i) == RowAt(a, height, step, i) {
      assert RowAt(c, height, step, i) == RowAt(b, height, step, height - 1 - i);
    }
    SameRows(c, a, height, step);
  }

  // ---------- the flipped image ----------

  /** The first `n` rows, last one first. */
  ghost function FlipRows(data: seq<Byte>, step: nat, n: nat): (f: seq<Byte>)
    requires Offset(step, n) <= |data|
    ensures |f| == Offset(step, n)
  {
    if n == 0 then [] else Row(data, step, n - 1) + FlipRows(data, step, n - 1)
  }

  lemma RowFirst(first: seq<Byte>, rest: seq<Byte>, step: nat)
    requires |first| == step
    ensures Offset(step, 1) == step && Row(first + rest, step, 0) == first
  {}

  lemma RowShifted(first: seq<Byte>, rest: seq<Byte>, step: nat, i: nat)
    requires |first| == step && i > 0 && Offset(step, i) <= |rest|
    ensures Offset(step, i + 1) <= |first + rest|
    ensures Row(first + rest, step, i) == Row(rest, step, i - 1)
  {}

  lemma {:induction false} FlipRowsRow(data: seq<Byte>, step: nat, n: nat, i: nat)
    requires i < n && Offset(step, n) <= |data|
    ensures Offset(step, i + 1) <= Offset(step, n) && Offset(step, n - i) <= |data|
    ensures Row(FlipRows(data, step, n), step, i) == Row(data, step, n - 1 - i)
  {
    OffsetOrdered(step, i + 1, n);
    OffsetOrdered(step, n - i, n);
    var first, rest := Row(data, step, n - 1), FlipRows(data, step, n - 1);
    assert FlipRows(data, step, n) == first + rest;
    if i == 0 {
      RowFirst(first, rest, step);
    } else {
      FlipRowsRow(data, step, n - 1, i - 1);
      RowShifted(first, rest, step, i);
    }
  }

  lemma FlipRowsFlips(data: seq<Byte>, step: nat, height: nat)
    requires |data| == Offset(step, height)
    ensures Flipped(data, FlipRows(data, step, height), height, step)
  {
    var flipped := FlipRows(data, step, height);
    forall i | 0 <= i < height ensures RowAt(flipped, height, step, i) == RowAt(data, height, step, height - 1 - i) {
      FlipRowsRow(data, step, height, i);
    }
  }

  lemma FlipTwice(data: seq<Byte>, step: nat, height: nat)
    requires |data| == Offset(step, height)
    ensures FlipRows(FlipRows(data, step, height), step, height) == data
  {
    var once := FlipRows(data, step, height);
    FlipRowsFlips(data, step, height);
    FlipRowsFlips(once, step, height);
    FlippedTwice(data, once, FlipRows(once, step, height), height, step);
  }

  /** The last `i` rows, last one first, built from the front. */
  ghost function LastRows(data: seq<Byte>, step: nat, height: nat, i: nat): (f: seq<Byte>)
    requires i <= height && Offset(step, height) <= |data|
    ensures |f| == Offset(step, i)
  {
    if i == 0 then [] else
    OffsetOrdered(step, height - i + 1, height);
    LastRows(data, step, height, i - 1) + Row(data, step, height - i)
  }

  lemma Associative(a: seq<Byte>, b: seq<Byte>, c: seq<Byte>)
    ensures (a + b) + c == a + (b + c)
  {}

  lemma {:induction false} LastRowsFlip(data: seq<Byte>, step: nat, height: nat, i: nat)
    requires i <= height && Offset(step, height) <= |data|
    ensures Offset(step, height - i) <= |data|
    ensures LastRows(data, step, height, i) + FlipRows(data, step, height - i) == FlipRows(data, step, height)
  {
    OffsetOrdered(step, height - i, height);
    if i == 0 {
      assert [] + FlipRows(data, step, height) == FlipRows(data, step, height);
    } else {
      LastRowsFlip(data, step, height, i - 1);
      Associative(LastRows(data, step, height, i - 1), Row(data, step, height - i), FlipRows(data, step, height - i));
    }
  }

  lemma AllLastRows(data: seq<Byte>, step: nat, height: nat)
    requires Offset(step, height) <= |data|
    ensures LastRows(data, step, height, height) == FlipRows(data, step, height)
  {
    LastRowsFlip(data, step, height, height);
    assert LastRows(data, step, height, height) + [] == LastRows(data, step, height, height);
  }

  // ---------- the two loop nests ----------

  /** The inner loop: one row, byte by byte. */
  method CopyRow(source: seq<Byte>, from: nat, destination: array<Byte>, to: nat, step: nat)
    requires from + step <= |source| && to + step <= destination.Length
    modifies destination
    ensures destination[..] == old(destination[..to]) + source[from..from + step] + old(destination[to + step..])
  {
    for j := 0 to step
      invariant destination[..to] == old(destination[..to])
      invariant destination[to..to + j] == source[from..from + j]
      invariant destination[to + step..] == old(destination[to + step..])
    {
      destination[to + j] := source[from + j];
    }
  }

  method FlipFrameRow(data: seq<Byte>, buffer: array<Byte>, step: nat, i: nat, from: nat, to: nat)
    requires from == Offset(step, i) && Offset(step, i + 1) <= |data| && to + step <= buffer.Length
    requires buffer[to + step..] == FlipRows(data, step, i)
    modifies buffer
    ensures buffer[to..] == FlipRows(data, step, i + 1)
  {
    CopyRow(data, from, buffer, to, step);
    assert buffer[to..] == data[from..from + step] + FlipRows(data, step, i);
  }

  /** The products that the loops compute. */
  lemma Indices(height: nat, step: nat, i: nat)
    requires i < height
    ensures i * step == Offset(step, i) && (height - i - 1) * step == Offset(step, height - i - 1)
    ensures Offset(step, i + 1) <= Offset(step, height) && Offset(step, height - i) <= Offset(step, height)
  {
    OffsetIsProduct(step, i);
    OffsetIsProduct(step, height - i - 1);
    OffsetOrdered(step, i + 1, height);
    OffsetOrdered(step, height - i, height);
  }

  /** The loops of `imageTransportPublish`. */
  method FlipFrame(data: seq<Byte>, height: nat, step: nat) returns (buffer: array<Byte>)
    requires Offset(step, height) <= |data|
    ensures fresh(buffer) && buffer[..] == FlipRows(data, step, height)
  {
    OffsetIsProduct(step, height);
    buffer := new Byte[height * step](_ => 0);
    for i := 0 to height
      invariant buffer.Length == Offset(step, height) && Offset(step, height - i) <= buffer.Length
      invariant Offset(step, i) <= |data| && buffer[Offset(step, height - i)..] == FlipRows(data, step, i)
    {
      Indices(height, step, i);
      var messageIndex, bufferIndex := (height - i - 1) * step, i * step;
      FlipFrameRow(data, buffer, step, i, bufferIndex, messageIndex);
    }
    assert buffer[0..] == buffer[..];
  }

  /** `imageTransportPublish`, up to handing the message to ROS. */
  method Publish(width: nat, height: nat, data: seq<Byte>) returns (message: Message)
    requires Offset(width * 3, height) <= |data|
    ensures message == Message(width, height, width * 3, false, FlipRows(data, width * 3, height))
  {
    var step := width * 3;
    var buffer := FlipFrame(data, height, step);
    message := Message(width, height, step, false, buffer[..]);
  }

  method FlipMessageRow(data: seq<Byte>, buffer: array<Byte>, height: nat, step: nat, i: nat, from: nat, to: nat)
    requires i < height && Offset(step, height) <= |data|
    requires from == Offset(step, height - i - 1) && Offset(step, height - i) <= |data|
    requires to == Offset(step, i) && Offset(step, i + 1) <= buffer.Length
    requires buffer[..to] == LastRows(data, step, height, i)
    modifies buffer
    ensures buffer[..Offset(step, i + 1)] == LastRows(data, step, height, i + 1)
  {
    CopyRow(data, from, buffer, to, step);
    assert buffer[..to + step] == LastRows(data, step, height, i) + data[from..from + step];
  }

  /** The loops of `ros_imtr_callback`. */
  method FlipMessage(data: seq<Byte>, height: nat, step: nat) returns (buffer: array<Byte>)
    requires Offset(step, height) <= |data|
    ensures fresh(buffer) && buffer[..] == FlipRows(data, step, height)
  {
    OffsetIsProduct(step, height);
    buffer := new Byte[height * step](_ => 0);
    for i := 0 to height
      invariant buffer.Length == Offset(step, height) && Offset(step, i) <= buffer.Length
      invariant buffer[..Offset(step, i)] == LastRows(data, step, height, i)
    {
      Indices(height, step, i);
      var messageIndex, bufferIndex := (height - i - 1) * step, i * step;
      FlipMessageRow(data, buffer, height, step, i, messageIndex, bufferIndex);
    }
    AllLastRows(data, step, height);
    assert buffer[..buffer.Length] == buffer[..];
  }

  /** `ros_imtr_callback`: big-endian messages are refused, others are passed on. */
  method Callback(message: Message) returns (frame: Option<Frame>)
    requires Offset(message.step, message.height) <= |message.data|
    ensures frame == if message.bigEndian then None else
                       Some(Frame(message.width, message.height, FlipRows(message.data, message.step, message.height)))
  {
    if message.bigEndian {
      return None;
    }
    var buffer := FlipMessage(message.data, message.height, message.step);
    return Some(Frame(message.width, message.height, buffer[..]));
  }

  /** Publishing an image and receiving it gives back the image, for every width and height. */
  method PublishThenCallback(width: nat, height: nat, data: seq<Byte>) returns (frame: Option<Frame>)
    requires |data| == height * (width * 3)
    ensures frame == Some(Frame(width, height, data))
  {
    OffsetIsProduct(width * 3, height);
    var message := Publish(width, height, data);
    frame := Callback(message);
    FlipTwice(data, width * 3, height);
  }
}
