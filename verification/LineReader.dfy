/**
 The cancel-safe line reader: `read_line_capped`, the reader task that feeds whole
 lines into a bounded channel, and `LineBufferedRead::poll_read` that serves them.
 The methods are the code; the state machine below interleaves reader task and
 consumer in any order, over any chunking of the source and any read-buffer size.
 */
module LineReader {
  import opened Common

  const NEWLINE: Byte := 10
  const MAX_LINE_SIZE: nat := 64 * 1024 * 1024
  /** The channel's buffer of 64 and the slot guaranteed to its one sender. */
  const CHANNEL_CAPACITY: nat := 65

  // ----------------------------------------------------------------------- lines

  /** Length of the first line, its newline included. */
  function LineLength(s: seq<Byte>): (n: nat)
    ensures n <= |s| && (s != [] ==> n > 0)
    ensures forall k :: 0 <= k < n - 1 ==> s[k] != NEWLINE
    ensures 0 < n < |s| ==> s[n - 1] == NEWLINE
  {
    if s == [] then 0 else if s[0] == NEWLINE then 1 else 1 + LineLength(s[1..])
  }

  function FirstLine(s: seq<Byte>): seq<Byte> { s[..LineLength(s)] }

  /** The source split after each newline. */
  function Lines(s: seq<Byte>): seq<seq<Byte>>
    decreases |s|
  {
    if s == [] then [] else [FirstLine(s)] + Lines(s[LineLength(s)..])
  }

  function Flatten(ls: seq<seq<Byte>>): seq<Byte> {
    if ls == [] then [] else ls[0] + Flatten(ls[1..])
  }

  predicate Unfinished(line: seq<Byte>) {
    forall k :: 0 <= k < |line| ==> line[k] != NEWLINE
  }

  predicate Finished(line: seq<Byte>) {
    line != [] && line[|line| - 1] == NEWLINE
  }

  /** What one filled buffer adds to a line: everything up to its first newline. */
  lemma {:induction false} FirstLineGrows(line: seq<Byte>, rest: seq<Byte>, k: nat)
    requires Unfinished(line) && 0 < k <= |rest|
    ensures var taken := FirstLine(rest[..k]);
            && 0 < |taken| <= k && taken <= rest
            && (Finished(taken) ==> FirstLine(line + rest) == line + taken)
            && (!Finished(taken) ==> taken == rest[..k] && Unfinished(line + taken))
            && line + taken <= FirstLine(line + rest)
  {
    hide LineLength;
    var available, tail := rest[..k], rest[k..];
    var taken := FirstLine(available);
    assert available + tail == rest;
    FirstLineAfter(line, rest);
    assert taken <= rest;
    if Finished(taken) {
      FirstLineIs(rest, |taken|);
    } else {
      assert taken == available;
      FirstLineAfter(available, tail);
    }
  }

  lemma {:induction false} FirstLineAfter(line: seq<Byte>, rest: seq<Byte>)
    requires Unfinished(line)
    ensures FirstLine(line + rest) == line + FirstLine(rest)
    ensures LineLength(line + rest) == |line| + LineLength(rest)
  {
    if line == [] {
      assert line + rest == rest;
    } else {
      assert (line + rest)[1..] == line[1..] + rest;
      FirstLineAfter(line[1..], rest);
    }
  }

  lemma {:induction false} FirstLineIs(s: seq<Byte>, n: nat)
    requires 0 < n <= |s| && s[n - 1] == NEWLINE
    requires forall k :: 0 <= k < n - 1 ==> s[k] != NEWLINE
    ensures LineLength(s) == n
  {
    if n > 1 {
      FirstLineIs(s[1..], n - 1);
    }
  }

  // -------------------------------------------------------------- reading a line

  /** A buffered reader: each fill exposes some prefix of what the source still holds. */
  class ChunkedReader {
    var unread: seq<Byte>
    var buffered: nat
    /** Whether the last fill failed; only a faulty source ever does. */
    var failed: bool
    const chunk: nat
    const faulty: bool

    ghost predicate Valid()
      reads this
    {
      buffered <= |unread| && buffered <= chunk && chunk > 0 && (failed ==> faulty)
    }

    constructor (source: seq<Byte>, chunk: nat, faulty: bool)
      requires chunk > 0
      ensures Valid() && unread == source && this.chunk == chunk && this.faulty == faulty
    {
      unread, buffered, failed, this.chunk, this.faulty := source, 0, false, chunk, faulty;
    }

    /** None is an I/O error; an empty buffer is the end of the source. */
    method FillBuf() returns (available: Option<seq<Byte>>)
      requires Valid()
      modifies this`buffered, this`failed
      ensures Valid() && (available.None? <==> failed)
      ensures available.Some? ==> available.value == unread[..buffered] && (buffered == 0 <==> unread == [])
    {
      failed := false;
      if buffered == 0 {
        failed := Fails(faulty);
        if failed {
          return None;
        }
        if unread != [] {
          var most := if chunk < |unread| then chunk else |unread|;
          var k: nat :| 0 < k <= most;
          buffered := k;
        }
      }
      available := Some(unread[..buffered]);
    }

    method Consume(n: nat)
      requires Valid() && n <= buffered
      modifies this`unread, this`buffered
      ensures Valid() && unread == old(unread)[n..] && buffered == old(buffered) - n
    {
      unread, buffered := unread[n..], buffered - n;
    }
  }

  datatype ReadResult = ReadOk(n: nat) | TooLong | IoFailure

  /**
   One line, capped. Whatever the chunking, and unless a fill failed, the source's next
   line is returned exactly when it is within the cap, and the cap error is raised exactly
   when it is longer; the buffer never grows past the cap by more than one chunk.
   */
  method ReadLineCapped(reader: ChunkedReader) returns (result: ReadResult, buf: seq<Byte>)
    requires reader.Valid()
    modifies reader
    ensures reader.Valid()
    ensures buf + reader.unread == old(reader.unread)
    ensures |buf| <= MAX_LINE_SIZE + reader.chunk
    ensures result.ReadOk? ==> buf == FirstLine(old(reader.unread)) && result.n == |buf| <= MAX_LINE_SIZE
    ensures result.TooLong? ==> |FirstLine(old(reader.unread))| > MAX_LINE_SIZE
    ensures (result.IoFailure? <==> reader.failed) && (reader.failed ==> reader.faulty)
    ensures !reader.failed ==> (result.TooLong? <==> |FirstLine(old(reader.unread))| > MAX_LINE_SIZE)
    ensures !reader.failed ==> (result.ReadOk? <==> |FirstLine(old(reader.unread))| <= MAX_LINE_SIZE)
  {
    hide FirstLine;
    buf := [];
    ghost var start := reader.unread;
    while true
      invariant reader.Valid() && buf + reader.unread == start
      invariant Unfinished(buf) && |buf| <= MAX_LINE_SIZE
      decreases |reader.unread|
    {
      var available := reader.FillBuf();
      if available.None? {
        return IoFailure, buf;
      }
      if available.value == [] {
        assert buf + [] == buf;
        FirstLineAfter(buf, []);
        FirstLineOfNothing();
        assert FirstLine(start) == buf;
        return ReadOk(|buf|), buf;
      }
      var taken := FirstLine(available.value);
      FirstLineGrows(buf, reader.unread, |available.value|);
      buf := buf + taken;
      reader.Consume(|taken|);
      if |buf| > MAX_LINE_SIZE {
        return TooLong, buf;
      }
      if Finished(taken) {
        return ReadOk(|buf|), buf;
      }
    }
  }

  // ------------------------------------------------------------- the reader task

  datatype Message = Line(bytes: seq<Byte>) | Failure

  /** What the reader task sends over a whole source: its lines, or a failure at the first one over the cap. */
  function Messages(source: seq<Byte>): seq<Message>
    decreases |source|
  {
    if source == [] then []
    else if |FirstLine(source)| > MAX_LINE_SIZE then [Failure]
    else [Line(FirstLine(source))] + Messages(source[LineLength(source)..])
  }

  /** All that is sent for a source: its messages, or some of them and then the failure of the source. */
  predicate SentFor(source: seq<Byte>, sent: seq<Message>, failed: bool) {
    if failed then sent != [] && sent[|sent| - 1].Failure? && sent[..|sent| - 1] <= Messages(source)
    else sent == Messages(source)
  }

  /**
   The reader task's loop, all it sends in order. Without an I/O error that depends on the
   source alone, not on how it is chunked; an I/O error cuts it short with a failure.
   */
  method SendLines(reader: ChunkedReader) returns (sent: seq<Message>, ioFailed: bool)
    requires reader.Valid()
    modifies reader
    ensures reader.Valid() && (ioFailed <==> reader.failed)
    ensures !reader.faulty ==> !ioFailed
    ensures SentFor(old(reader.unread), sent, ioFailed)
  {
    hide FirstLine, Messages;
    sent := [];
    while true
      invariant reader.Valid() && sent + Messages(reader.unread) == Messages(old(reader.unread))
      decreases |reader.unread|
    {
      ghost var rest := reader.unread;
      var result, line := ReadLineCapped(reader);
      NextMessage(rest);
      if result == ReadOk(0) {
        return sent, false;
      }
      if result.ReadOk? {
        assert rest[|line|..] == reader.unread;
        sent := sent + [Line(line)];
      } else {
        return sent + [Failure], result.IoFailure?;
      }
    }
  }

  lemma {:induction false} NextMessage(source: seq<Byte>)
    ensures |FirstLine(source)| == LineLength(source)
    ensures source == [] <==> FirstLine(source) == []
    ensures |FirstLine(source)| > MAX_LINE_SIZE ==> Messages(source) == [Failure]
    ensures 0 < |FirstLine(source)| <= MAX_LINE_SIZE ==>
              Messages(source) == [Line(FirstLine(source))] + Messages(source[|FirstLine(source)|..])
    ensures source == [] ==> Messages(source) == []
  {}

  /** The lines are the source cut after each newline: nothing is lost, and only the last may lack its newline. */
  lemma {:induction false} LinesAreTheSource(source: seq<Byte>, k: nat)
    requires k < |Lines(source)|
    ensures Flatten(Lines(source)) == source
    ensures var line := Lines(source)[k];
            && line != [] && Unfinished(line[..|line| - 1])
            && (k < |Lines(source)| - 1 ==> Finished(line))
    decreases |source|
  {
    hide Lines, Flatten, Unfinished, Finished, LineLength;
    var line, rest := FirstLine(source), source[LineLength(source)..];
    FirstThenRest(source);
    assert source == line + rest;
    FirstLineShape(source);
    if rest == [] {
      NoLines();
      assert source == line + [];
    } else {
      FirstThenRest(rest);
      LinesAreTheSource(rest, if k > 0 then k - 1 else 0);
    }
  }

  lemma {:induction false} NoLines()
    ensures Lines([]) == [] && Flatten([]) == []
  {}

  lemma {:induction false} FirstThenRest(source: seq<Byte>)
    ensures source == [] <==> Lines(source) == []
    ensures source != [] ==> var rest := Lines(source[LineLength(source)..]);
            Lines(source) == [FirstLine(source)] + rest && Flatten(Lines(source)) == FirstLine(source) + Flatten(rest)
  {}

  lemma {:induction false} FirstLineShape(source: seq<Byte>)
    requires source != []
    ensures var line := FirstLine(source);
            line != [] && Unfinished(line[..|line| - 1]) && (|line| < |source| ==> Finished(line))
  {}

  /** With no line over the cap, exactly the lines are sent. */
  lemma {:induction false} MessagesAreLines(source: seq<Byte>)
    requires forall k :: 0 <= k < |Lines(source)| ==> |Lines(source)[k]| <= MAX_LINE_SIZE
    ensures |Messages(source)| == |Lines(source)|
    ensures forall k :: 0 <= k < |Lines(source)| ==> Messages(source)[k] == Line(Lines(source)[k])
    decreases |source|
  {
    if source != [] {
      var rest := source[LineLength(source)..];
      assert Lines(source)[0] == FirstLine(source);
      assert forall k :: 0 <= k < |Lines(rest)| ==> Lines(rest)[k] == Lines(source)[k + 1];
      MessagesAreLines(rest);
    }
  }

  // ---------------------------------------------------------------- serving lines

  datatype PollResult = Served(bytes: seq<Byte>) | Failed | Pending

  datatype Consumer = Consumer(buf: seq<Byte>, pos: nat, channel: seq<Message>)

  predicate ConsumerOk(c: Consumer) {
    c.pos <= |c.buf| && (c.pos == |c.buf| ==> c.buf == [])
  }

  /** What a poll with a read buffer of `n` bytes returns, and the reader it leaves. */
  function Polled(c: Consumer, closed: bool, n: nat): (PollResult, Consumer)
    requires ConsumerOk(c)
  {
    if c.pos < |c.buf| then
      var m := if |c.buf| - c.pos < n then |c.buf| - c.pos else n;
      (Served(c.buf[c.pos..c.pos + m]),
       if c.pos + m >= |c.buf| then Consumer([], 0, c.channel) else Consumer(c.buf, c.pos + m, c.channel))
    else if c.channel == [] then
      (if closed then Served([]) else Pending, c)
    else match c.channel[0]
      case Failure => (Failed, c.(channel := c.channel[1..]))
      case Line(line) =>
        var m := if |line| < n then |line| else n;
        (Served(line[..m]),
         if m < |line| then Consumer(line, m, c.channel[1..]) else c.(channel := c.channel[1..]))
  }

  /**
   What a poll promises, said of the bytes it hands over and leaves: it serves from what is
   stashed, or else from the first line queued, as many bytes as the read buffer holds or as
   there are, and stashes the others; it fails, or answers Pending, only when nothing is stashed.
   */
  ghost predicate PollAnswers(c: Consumer, closed: bool, n: nat, result: PollResult, c': Consumer)
    requires ConsumerOk(c) && ConsumerOk(c')
  {
    var stash, left := c.buf[c.pos..], c'.buf[c'.pos..];
    match result
    case Served(bytes) =>
      var line := if stash != [] then stash else if c.channel != [] then Bytes(c.channel[0]) else [];
      && (stash == [] ==> if c.channel == [] then closed else c.channel[0].Line?)
      && bytes + left == line && |bytes| <= n && (|bytes| < n ==> left == [])
      && c'.channel == if stash == [] && c.channel != [] then c.channel[1..] else c.channel
    case Failed => stash == [] && c.channel != [] && c.channel[0].Failure? && left == [] && c'.channel == c.channel[1..]
    case Pending => stash == [] && c.channel == [] && !closed && c' == c
  }

  lemma {:induction false} PollAnswersIt(c: Consumer, closed: bool, n: nat)
    requires ConsumerOk(c)
    ensures var (result, c') := Polled(c, closed, n); ConsumerOk(c') && PollAnswers(c, closed, n, result, c')
  {
    if c.pos < |c.buf| {
      var m := if |c.buf| - c.pos < n then |c.buf| - c.pos else n;
      assert c.buf[c.pos..] == c.buf[c.pos..c.pos + m] + c.buf[c.pos + m..];
    } else if c.channel != [] && c.channel[0].Line? {
      var line := c.channel[0].bytes;
      var m := if |line| < n then |line| else n;
      assert line == line[..m] + line[m..];
    }
  }

  class Channel {
    var queue: seq<Message>
    var closed: bool

    constructor ()
      ensures queue == [] && !closed
    {
      queue, closed := [], false;
    }
  }

  class LineBufferedRead {
    var buf: seq<Byte>
    var pos: nat
    const rx: Channel

    constructor (rx: Channel)
      ensures this.rx == rx && buf == [] && pos == 0
    {
      buf, pos, this.rx := [], 0, rx;
    }

    ghost function View(): Consumer
      reads this, rx
    {
      Consumer(buf, pos, rx.queue)
    }

    method PollRead(n: nat) returns (result: PollResult)
      requires ConsumerOk(View())
      modifies this, rx`queue
      ensures (result, View()) == Polled(old(View()), rx.closed, n)
      ensures ConsumerOk(View()) && PollAnswers(old(View()), rx.closed, n, result, View())
    {
      PollAnswersIt(View(), rx.closed, n);
      hide PollAnswers;
      if pos < |buf| {
        var available := |buf| - pos;
        var m := if available < n then available else n;
        result := Served(buf[pos..pos + m]);
        pos := pos + m;
        if pos >= |buf| {
          buf, pos := [], 0;
        }
        return;
      }
      if rx.queue == [] {
        return if rx.closed then Served([]) else Pending;
      }
      var message := rx.queue[0];
      rx.queue := rx.queue[1..];
      match message {
        case Failure => result := Failed;
        case Line(line) =>
          var m := if |line| < n then |line| else n;
          result := Served(line[..m]);
          if m < |line| {
            buf, pos := line, m;
          }
      }
    }
  }

  // -------------------------------------------------- reader task and consumer

  /** Where the reader task is: in a line, waiting for room in the channel, or gone. */
  datatype Task = Reading(line: seq<Byte>) | Sending(message: Message, held: seq<Byte>) | Stopped(left: seq<Byte>)

  /** What ended the reader task early, if anything. */
  datatype Cause = NoError | Oversize | SourceError

  datatype State = State(unread: seq<Byte>, task: Task, consumer: Consumer, served: seq<Byte>, cause: Cause)

  /** One step of either party. `k` and `n` are the chunk and the read buffer of the moment. */
  datatype Event = Fill(k: nat) | EndOfSource | IoError | Push | Poll(n: nat)

  function Initial(source: seq<Byte>): State {
    State(source, Reading([]), Consumer([], 0, []), [], NoError)
  }

  predicate Enabled(s: State, e: Event) {
    match e
    case Fill(k) => s.task.Reading? && 0 < k <= |s.unread|
    case EndOfSource => s.task.Reading? && s.unread == []
    case IoError => s.task.Reading?
    case Push => s.task.Sending? && |s.consumer.channel| < CHANNEL_CAPACITY
    case Poll(_) => ConsumerOk(s.consumer)
  }

  function Closed(s: State): bool { s.task.Stopped? }

  function Next(s: State, e: Event): State
    requires Enabled(s, e)
  {
    match e
    case Fill(k) =>
      var taken := FirstLine(s.unread[..k]);
      var line := s.task.line + taken;
      var s' := s.(unread := s.unread[|taken|..]);
      if |line| > MAX_LINE_SIZE then s'.(task := Sending(Failure, line), cause := Oversize)
      else if Finished(taken) then s'.(task := Sending(Line(line), []))
      else s'.(task := Reading(line))
    case EndOfSource =>
      if s.task.line == [] then s.(task := Stopped([])) else s.(task := Sending(Line(s.task.line), []))
    case IoError => s.(task := Sending(Failure, s.task.line), cause := SourceError)
    case Push =>
      var c := s.consumer.(channel := s.consumer.channel + [s.task.message]);
      s.(consumer := c, task := if s.task.message.Line? then Reading([]) else Stopped(s.task.held))
    case Poll(n) =>
      var (result, c) := Polled(s.consumer, Closed(s), n);
      s.(consumer := c, served := s.served + ServedBytes(result))
  }

  // ------------------------------------------------------------------- invariant

  function Bytes(m: Message): seq<Byte> {
    if m.Line? then m.bytes else []
  }

  function Flat(channel: seq<Message>): seq<Byte> {
    if channel == [] then [] else Bytes(channel[0]) + Flat(channel[1..])
  }

  /** Bytes taken from the source that the reader task has not put into the channel. */
  function InTask(t: Task): seq<Byte> {
    match t
    case Reading(line) => line
    case Sending(message, held) => Bytes(message) + held
    case Stopped(left) => left
  }

  function Received(c: Consumer): seq<Byte>
    requires ConsumerOk(c)
  {
    c.buf[c.pos..] + Flat(c.channel)
  }

  /** Nothing is lost, doubled or reordered. */
  ghost predicate Conserved(s: State, source: seq<Byte>) {
    ConsumerOk(s.consumer) && s.served + Received(s.consumer) + InTask(s.task) + s.unread == source
  }

  /** No line ends inside what is left of the line being served. */
  predicate StashOk(c: Consumer) {
    c.buf != [] ==> Unfinished(c.buf[..|c.buf| - 1])
  }

  /** Position `i` of the source is the start of a line, or its end. */
  ghost predicate AtLineStart(source: seq<Byte>, i: int) {
    0 <= i <= |source| && (i == 0 || i == |source| || source[i - 1] == NEWLINE)
  }

  /** How far the source has been served once the current line is drained. */
  function Drained(s: State): nat
    requires ConsumerOk(s.consumer)
  {
    |s.served| + |s.consumer.buf| - s.consumer.pos
  }

  /** Message `m` is a whole line of the source, beginning at `i`. */
  ghost predicate IsLineAt(source: seq<Byte>, i: nat, m: seq<Byte>) {
    i <= |source| && m != [] && m == FirstLine(source[i..]) && |m| <= MAX_LINE_SIZE
  }

  /** The channel holds consecutive source lines from `i` on, and a failure only last. */
  ghost predicate ChannelOk(channel: seq<Message>, source: seq<Byte>, i: nat) {
    channel == [] || (if channel[0].Failure? then channel == [Failure]
                      else && IsLineAt(source, i, channel[0].bytes)
                           && ChannelOk(channel[1..], source, i + |channel[0].bytes|))
  }

  predicate HasFailure(channel: seq<Message>) {
    channel != [] && (channel[0].Failure? || HasFailure(channel[1..]))
  }

  function TaskStart(s: State): nat
    requires ConsumerOk(s.consumer)
  {
    Drained(s) + |Flat(s.consumer.channel)|
  }

  ghost predicate TaskOk(s: State, source: seq<Byte>)
    requires ConsumerOk(s.consumer)
  {
    match s.task
    case Reading(line) => s.cause.NoError? && Unfinished(line) && |line| <= MAX_LINE_SIZE
    case Sending(Line(bytes), held) => s.cause.NoError? && held == [] && IsLineAt(source, TaskStart(s), bytes)
    case Sending(Failure, _) => !s.cause.NoError?
    case Stopped(left) => s.cause.NoError? ==> left == [] && s.unread == []
  }

  ghost predicate LongLineAt(source: seq<Byte>, i: nat) {
    i < |source| && AtLineStart(source, i) && |FirstLine(source[i..])| > MAX_LINE_SIZE
  }

  /** No line beginning before `t` is over the cap. */
  ghost predicate ShortBefore(source: seq<Byte>, t: nat) {
    forall i: nat :: i < t ==> !LongLineAt(source, i)
  }

  ghost predicate Inv(s: State, source: seq<Byte>) {
    && Conserved(s, source) && StashOk(s.consumer)
    && AtLineStart(source, Drained(s)) && AtLineStart(source, TaskStart(s))
    && ChannelOk(s.consumer.channel, source, Drained(s))
    && (HasFailure(s.consumer.channel) ==> !s.cause.NoError? && s.task.Stopped?)
    && TaskOk(s, source)
    && |s.consumer.channel| <= CHANNEL_CAPACITY
    && ShortBefore(source, TaskStart(s))
    && (s.cause.Oversize? ==> exists i :: LongLineAt(source, i))
  }

  // ------------------------------------------------------- every step keeps it

  lemma {:induction false} FlatAppend(channel: seq<Message>, m: Message)
    ensures Flat(channel + [m]) == Flat(channel) + Bytes(m)
  {
    if channel == [] {
      assert channel + [m] == [m] && [m][1..] == [];
    } else {
      var longer, rest := channel + [m], channel[1..];
      assert longer[0] == channel[0] && longer[1..] == rest + [m];
      FlatAppend(rest, m);
    }
  }

  lemma {:induction false} ChannelAppend(channel: seq<Message>, source: seq<Byte>, i: nat, m: Message)
    requires ChannelOk(channel, source, i) && !HasFailure(channel)
    requires m.Line? ==> IsLineAt(source, i + |Flat(channel)|, m.bytes)
    ensures ChannelOk(channel + [m], source, i)
    ensures HasFailure(channel + [m]) <==> m.Failure?
  {
    hide IsLineAt;
    var longer := channel + [m];
    if channel == [] {
      assert longer == [m] && longer[1..] == [];
    } else {
      var rest := channel[1..];
      assert longer[1..] == rest + [m];
      ChannelAppend(rest, source, i + |channel[0].bytes|, m);
    }
  }

  lemma {:induction false} NextLineStart(source: seq<Byte>, i: nat, m: seq<Byte>)
    requires AtLineStart(source, i) && IsLineAt(source, i, m)
    ensures AtLineStart(source, i + |m|)
    ensures ShortBefore(source, i) ==> ShortBefore(source, i + |m|)
  {
    var rest := source[i..];
    assert m[|m| - 1] == source[i + |m| - 1];
    forall j: nat | i < j < i + |m| ensures !AtLineStart(source, j) {
      assert source[j - 1] == rest[j - 1 - i];
    }
  }

  /** What the reader task holds, and what is still unread, is the source from the line in its hands on. */
  lemma {:induction false} FromTaskStart(s: State, source: seq<Byte>)
    requires Conserved(s, source)
    ensures TaskStart(s) <= |source| && source[TaskStart(s)..] == InTask(s.task) + s.unread
    ensures TaskStart(s) == |s.served| + |Received(s.consumer)|
  {
    var done := s.served + Received(s.consumer);
    assert source == done + (InTask(s.task) + s.unread);
  }

  /** Bytes moved on within served, received, held and unread stay the source's bytes. */
  lemma {:induction false} StillConserved(s: State, s': State, source: seq<Byte>)
    requires Conserved(s, source) && ConsumerOk(s'.consumer)
    requires s.served + Received(s.consumer) == s'.served + Received(s'.consumer)
    requires InTask(s.task) + s.unread == InTask(s'.task) + s'.unread
    ensures Conserved(s', source)
  {
    hide Received, InTask;
    var a, b := s.served + Received(s.consumer), s'.served + Received(s'.consumer);
    assert a + InTask(s.task) + s.unread == a + (InTask(s.task) + s.unread);
    assert b + InTask(s'.task) + s'.unread == b + (InTask(s'.task) + s'.unread);
  }

  lemma {:induction false} FillKeeps(s: State, source: seq<Byte>, k: nat)
    requires Inv(s, source) && Enabled(s, Fill(k))
    ensures Inv(Next(s, Fill(k)), source)
  {
    hide FirstLine, ChannelOk, Flat, HasFailure, Conserved, ShortBefore, Received, AtLineStart, IsLineAt, LongLineAt,
         Finished, Unfinished;
    InvConsumer(s, source);
    var s' := Next(s, Fill(k));
    var line, taken := s.task.line, FirstLine(s.unread[..k]);
    var longer := line + taken;
    FromTaskStart(s, source);
    FillReads(source, TaskStart(s), line, s.unread, k);
    assert [] + longer == longer && longer + [] == longer;
    assert InTask(s'.task) == longer;
    StillConserved(s, s', source);
    assert TaskStart(s) == TaskStart(s');
  }

  /** What a filled buffer makes of the line that starts at `t`. */
  lemma {:induction false} FillReads(source: seq<Byte>, t: nat, line: seq<Byte>, unread: seq<Byte>, k: nat)
    requires t <= |source| && AtLineStart(source, t) && source[t..] == line + unread
    requires Unfinished(line) && 0 < k <= |unread|
    ensures var taken := FirstLine(unread[..k]);
            var longer := line + taken;
            && |taken| <= |unread| && longer + unread[|taken|..] == line + unread
            && (|longer| > MAX_LINE_SIZE ==> LongLineAt(source, t))
            && (|longer| <= MAX_LINE_SIZE && Finished(taken) ==> IsLineAt(source, t, longer))
            && (!Finished(taken) ==> Unfinished(longer))
  {
    hide FirstLine;
    FirstLineGrows(line, unread, k);
  }

  lemma {:induction false} EndOfSourceKeeps(s: State, source: seq<Byte>)
    requires Inv(s, source) && Enabled(s, EndOfSource)
    ensures Inv(Next(s, EndOfSource), source)
  {
    hide FirstLine, ChannelOk, Flat, HasFailure, Conserved, ShortBefore, Received, AtLineStart, LongLineAt;
    InvConsumer(s, source);
    var s' := Next(s, EndOfSource);
    var line := s.task.line;
    FromTaskStart(s, source);
    FirstLineAfter(line, []);
    FirstLineOfNothing();
    assert line + [] == line;
    assert InTask(s'.task) == line;
    StillConserved(s, s', source);
  }

  lemma {:induction false} IoErrorKeeps(s: State, source: seq<Byte>)
    requires Inv(s, source) && Enabled(s, IoError)
    ensures Inv(Next(s, IoError), source)
  {
    hide FirstLine, ChannelOk, Flat, HasFailure, Conserved, ShortBefore, Received, AtLineStart, LongLineAt, IsLineAt;
    InvConsumer(s, source);
    var s' := Next(s, IoError);
    assert [] + s.task.line == s.task.line;
    StillConserved(s, s', source);
  }

  lemma {:induction false} FirstLineOfNothing()
    ensures FirstLine([]) == []
  {}

  lemma {:induction false} PushKeeps(s: State, source: seq<Byte>)
    requires Inv(s, source) && Enabled(s, Push)
    ensures Inv(Next(s, Push), source)
  {
    hide FirstLine, ChannelOk, Flat, HasFailure, Conserved, ShortBefore, AtLineStart, LongLineAt, IsLineAt;
    InvConsumer(s, source);
    var s' := Next(s, Push);
    var channel, m := s.consumer.channel, s.task.message;
    FlatAppend(channel, m);
    ChannelAppend(channel, source, Drained(s), m);
    if m.Line? {
      NextLineStart(source, TaskStart(s), m.bytes);
    }
    MovedIntoChannel(s, s', source);
  }

  lemma {:induction false} MovedIntoChannel(s: State, s': State, source: seq<Byte>)
    requires Conserved(s, source) && s.task.Sending? && (s.task.message.Line? ==> s.task.held == [])
    requires s'.served == s.served && s'.unread == s.unread && ConsumerOk(s'.consumer)
    requires s'.consumer.buf == s.consumer.buf && s'.consumer.pos == s.consumer.pos
    requires Flat(s'.consumer.channel) == Flat(s.consumer.channel) + Bytes(s.task.message)
    requires s'.task == if s.task.message.Line? then Reading([]) else Stopped(s.task.held)
    ensures Conserved(s', source)
  {
    hide Flat;
    var a, f := s.served + s.consumer.buf[s.consumer.pos..], Flat(s.consumer.channel);
    var b, h := Bytes(s.task.message), s.task.held;
    assert InTask(s'.task) == h;
    assert s.served + Received(s.consumer) == a + f;
    assert s'.served + Received(s'.consumer) == a + (f + b);
    assert a + f + (b + h) + s.unread == a + (f + b) + h + s.unread;
  }

  /** A poll moves bytes from what was received to what is served, and drains lines in order. */
  ghost predicate Moves(c: Consumer, c': Consumer, bytes: seq<Byte>, source: seq<Byte>, at: nat) {
    && ConsumerOk(c) && ConsumerOk(c') && Received(c) == bytes + Received(c')
    && (var at' := at + |bytes| + (|c'.buf| - c'.pos) - (|c.buf| - c.pos);
        && at' >= 0 && AtLineStart(source, at') && ChannelOk(c'.channel, source, at')
        && at' + |Flat(c'.channel)| == at + |Flat(c.channel)|)
    && |c'.channel| <= |c.channel|
    && (HasFailure(c'.channel) ==> HasFailure(c.channel))
    && (StashOk(c) ==> StashOk(c'))
  }

  function ServedBytes(r: PollResult): seq<Byte> {
    if r.Served? then r.bytes else []
  }

  lemma {:induction false} PolledMoves(c: Consumer, closed: bool, n: nat, source: seq<Byte>, at: nat)
    requires ConsumerOk(c) && ChannelOk(c.channel, source, at) && AtLineStart(source, at)
    ensures var (result, c') := Polled(c, closed, n); Moves(c, c', ServedBytes(result), source, at)
  {
    if c.pos < |c.buf| {
      ServeFromBuffer(c, closed, n, source, at);
    } else if c.channel != [] && c.channel[0].Line? {
      ReceiveLine(c, closed, n, source, at);
    } else {
      ReceiveNoLine(c, closed, n, source, at);
    }
  }

  lemma {:induction false} ServeFromBuffer(c: Consumer, closed: bool, n: nat, source: seq<Byte>, at: nat)
    requires ConsumerOk(c) && ChannelOk(c.channel, source, at) && AtLineStart(source, at) && c.pos < |c.buf|
    ensures var (result, c') := Polled(c, closed, n); Moves(c, c', ServedBytes(result), source, at)
  {
    hide AtLineStart, Flat, ChannelOk, HasFailure;
    var m := if |c.buf| - c.pos < n then |c.buf| - c.pos else n;
    ServeSplit(c.buf, c.pos, c.pos + m, Flat(c.channel));
    var nothing: seq<Byte> := [];
    assert nothing[0..] == [];
  }

  lemma {:induction false} ReceiveLine(c: Consumer, closed: bool, n: nat, source: seq<Byte>, at: nat)
    requires ConsumerOk(c) && ChannelOk(c.channel, source, at) && AtLineStart(source, at)
    requires c.pos >= |c.buf| && c.channel != [] && c.channel[0].Line?
    ensures var (result, c') := Polled(c, closed, n); Moves(c, c', ServedBytes(result), source, at)
  {
    hide AtLineStart, FirstLine, IsLineAt, ShortBefore;
    var line, rest := c.channel[0].bytes, c.channel[1..];
    NextLineStart(source, at, line);
    LineIsALine(source, at, line);
    assert Flat(c.channel) == line + Flat(rest);
    assert HasFailure(rest) ==> HasFailure(c.channel);
    hide Flat, ChannelOk, HasFailure;
    var m := if |line| < n then |line| else n;
    ServeSplit(line, 0, m, Flat(rest));
    assert line[0..] == line && c.buf[c.pos..] == [];
    assert [] + Flat(c.channel) == Flat(c.channel);
  }

  lemma {:induction false} ReceiveNoLine(c: Consumer, closed: bool, n: nat, source: seq<Byte>, at: nat)
    requires ConsumerOk(c) && ChannelOk(c.channel, source, at) && AtLineStart(source, at)
    requires c.pos >= |c.buf| && (c.channel == [] || c.channel[0].Failure?)
    ensures var (result, c') := Polled(c, closed, n); Moves(c, c', ServedBytes(result), source, at)
  {
    hide AtLineStart;
    var c' := Polled(c, closed, n).1;
    assert c.channel != [] ==> c.channel == [Failure] && c'.channel == [];
    assert c.buf == [] && c'.buf == [] && Flat(c.channel) == [] && Flat(c'.channel) == [];
  }

  lemma {:induction false} LineIsALine(source: seq<Byte>, i: nat, m: seq<Byte>)
    requires IsLineAt(source, i, m)
    ensures m != [] && Unfinished(m[..|m| - 1])
  {}

  lemma {:induction false} ServeSplit(buf: seq<Byte>, i: nat, j: nat, rest: seq<Byte>)
    requires i <= j <= |buf|
    ensures buf[i..] + rest == buf[i..j] + (buf[j..] + rest)
    ensures j == |buf| ==> buf[i..] + rest == buf[i..j] + ([] + rest)
    ensures i == 0 ==> buf[..j] == buf[i..j]
  {}

  lemma {:induction false} PollKeeps(s: State, source: seq<Byte>, n: nat)
    requires Inv(s, source)
    ensures Inv(Next(s, Poll(n)), source)
  {
    hide FirstLine, ChannelOk, Flat, HasFailure, Polled, ShortBefore, Conserved, AtLineStart, LongLineAt, Received,
         IsLineAt;
    InvConsumer(s, source);
    var s' := Next(s, Poll(n));
    PolledMoves(s.consumer, Closed(s), n, source, Drained(s));
    var bytes := ServedBytes(Polled(s.consumer, Closed(s), n).0);
    assert s.served + (bytes + Received(s'.consumer)) == s'.served + Received(s'.consumer);
    StillConserved(s, s', source);
    assert TaskStart(s') == TaskStart(s);
  }

  lemma {:induction false} InvConsumer(s: State, source: seq<Byte>)
    requires Conserved(s, source)
    ensures ConsumerOk(s.consumer)
  {}

  lemma {:induction false} StepKeepsInv(s: State, source: seq<Byte>, e: Event)
    requires Inv(s, source) && Enabled(s, e)
    ensures Inv(Next(s, e), source)
  {
    match e
    case Fill(k) => FillKeeps(s, source, k);
    case EndOfSource => EndOfSourceKeeps(s, source);
    case IoError => IoErrorKeeps(s, source);
    case Push => PushKeeps(s, source);
    case Poll(n) => PollKeeps(s, source, n);
  }

  /** `trace` is a run over `source` under the interleaving `events`. */
  ghost predicate IsRun(source: seq<Byte>, trace: seq<State>, events: seq<Event>) {
    && |trace| == |events| + 1 && trace[0] == Initial(source)
    && forall k :: 0 <= k < |events| ==> Enabled(trace[k], events[k]) && trace[k + 1] == Next(trace[k], events[k])
  }

  /** Every state of every run keeps the invariant; in particular no byte is lost or reordered. */
  lemma {:induction false} RunKeepsInv(source: seq<Byte>, trace: seq<State>, events: seq<Event>, k: nat)
    requires IsRun(source, trace, events) && k < |trace|
    ensures Inv(trace[k], source)
  {
    if k == 0 {
      assert [] + source == source;
    } else {
      RunKeepsInv(source, trace, events, k - 1);
      StepKeepsInv(trace[k - 1], source, events[k - 1]);
    }
  }

  // ---------------------------------------------------------------- guarantees

  /** `served` is a whole number of source lines. */
  ghost predicate WholeLines(source: seq<Byte>, served: seq<Byte>) {
    exists m :: 0 <= m <= |Lines(source)| && served == Flatten(Lines(source)[..m])
  }

  lemma {:induction false} LineStartIsWhole(source: seq<Byte>, i: nat)
    requires AtLineStart(source, i)
    ensures WholeLines(source, source[..i])
    decreases |source|
  {
    hide WholeLines, Lines;
    if i == 0 {
      NoLinesAreWhole(source);
      assert source[..0] == [];
    } else {
      var n := LineLength(source);
      var rest := source[n..];
      assert i > n ==> source[i - 1] == rest[i - n - 1];
      LineStartIsWhole(rest, i - n);
      OneMoreWholeLine(source, rest[..i - n]);
      assert source[..i] == source[..n] + rest[..i - n];
    }
  }

  lemma {:induction false} NoLinesAreWhole(source: seq<Byte>)
    ensures WholeLines(source, [])
  {
    assert Flatten(Lines(source)[..0]) == [];
  }

  lemma {:induction false} OneMoreWholeLine(source: seq<Byte>, served: seq<Byte>)
    requires source != [] && WholeLines(source[LineLength(source)..], served)
    ensures WholeLines(source, source[..LineLength(source)] + served)
  {
    var line, rest := FirstLine(source), Lines(source[LineLength(source)..]);
    var m :| 0 <= m <= |rest| && served == Flatten(rest[..m]);
    PrependLine(line, rest, m);
    assert Lines(source) == [line] + rest;
    assert m + 1 <= |Lines(source)|;
  }

  lemma {:induction false} PrependLine(line: seq<Byte>, lines: seq<seq<Byte>>, m: nat)
    requires m <= |lines|
    ensures Flatten(([line] + lines)[..m + 1]) == line + Flatten(lines[..m])
  {
    assert ([line] + lines)[..m + 1] == [line] + lines[..m];
  }

  /**
   In any run a poll answers Pending only between lines: what has been served is then
   a whole number of source lines, so no reader of lines is suspended inside one.
   */
  lemma {:induction false} PendingOnlyBetweenLines(source: seq<Byte>, trace: seq<State>, events: seq<Event>, k: nat,
                                                   n: nat)
    requires IsRun(source, trace, events) && k < |trace|
    ensures Inv(trace[k], source)
    ensures Polled(trace[k].consumer, Closed(trace[k]), n).0 == Pending ==> WholeLines(source, trace[k].served)
  {
    RunKeepsInv(source, trace, events, k);
    PendingIsBetweenLines(trace[k], source, n);
  }

  lemma {:induction false} PendingIsBetweenLines(s: State, source: seq<Byte>, n: nat)
    requires Inv(s, source)
    ensures Polled(s.consumer, Closed(s), n).0 == Pending ==> WholeLines(source, s.served)
  {
    hide Received, Flat, InTask, TaskOk, ChannelOk, HasFailure, TaskStart, ShortBefore, LongLineAt, AtLineStart,
         WholeLines;
    ServedIsPrefix(s, source);
    assert s.served == source[..|s.served|];
    if Polled(s.consumer, Closed(s), n).0 == Pending {
      LineStartIsWhole(source, |s.served|);
    }
  }

  lemma {:induction false} ServedIsPrefix(s: State, source: seq<Byte>)
    requires Conserved(s, source)
    ensures s.served <= source
  {
    hide Received, InTask;
  }

  /**
   In any run a poll never hands over more than the read buffer holds, nor anything past
   the end of the line it is in: it serves the rest of that line, cut to the read buffer.
   It fails exactly when nothing is stashed and a failure is first in the channel.
   */
  lemma {:induction false} ServesWithinTheLine(source: seq<Byte>, trace: seq<State>, events: seq<Event>, k: nat, n: nat)
    requires IsRun(source, trace, events) && k < |trace|
    ensures var s := trace[k];
            && Inv(s, source) && |s.served| <= |source|
            && PollStaysInLine(s, FirstLine(source[|s.served|..]), n, Polled(s.consumer, Closed(s), n).0)
  {
    RunKeepsInv(source, trace, events, k);
    PollIsInLine(trace[k], source, n);
  }

  /** `result` is right for a poll in `s` when `line` is what the source has from here to the end of the line. */
  ghost predicate PollStaysInLine(s: State, line: seq<Byte>, n: nat, result: PollResult) {
    var c := s.consumer;
    && (result == Failed <==> c.buf == [] && c.channel != [] && c.channel[0].Failure?)
    && (result == Pending <==> c.buf == [] && c.channel == [] && !s.task.Stopped?)
    && (result.Served? ==> |result.bytes| <= n && result.bytes <= line)
    && (result.Served? && (c.buf != [] || c.channel != []) ==> |result.bytes| == if |line| < n then |line| else n)
  }

  lemma {:induction false} PollIsInLine(s: State, source: seq<Byte>, n: nat)
    requires Inv(s, source)
    ensures |s.served| <= |source|
    ensures PollStaysInLine(s, FirstLine(source[|s.served|..]), n, Polled(s.consumer, Closed(s), n).0)
  {
    hide LineLength, HasFailure, Flat, AtLineStart, ShortBefore, LongLineAt;
    ServedIsPrefix(s, source);
    var c, rest := s.consumer, source[|s.served|..];
    if c.pos < |c.buf| {
      StashIsTheLine(s, source);
      var m := if |c.buf| - c.pos < n then |c.buf| - c.pos else n;
      assert c.buf[c.pos..c.pos + m] == c.buf[c.pos..][..m];
    } else if c.channel != [] && c.channel[0].Line? {
      assert Drained(s) == |s.served| && c.channel[0].bytes == FirstLine(rest);
    }
  }

  /** While something is stashed, it is what the source has from what was served to the end of the line. */
  lemma {:induction false} StashIsTheLine(s: State, source: seq<Byte>)
    requires Inv(s, source) && s.consumer.pos < |s.consumer.buf|
    ensures |s.served| <= |source| && FirstLine(source[|s.served|..]) == s.consumer.buf[s.consumer.pos..]
  {
    hide LineLength, Flat, HasFailure, ShortBefore, LongLineAt, InTask, ChannelOk, TaskOk;
    var c := s.consumer;
    var stash, rest := c.buf[c.pos..], source[|s.served|..];
    var after := Flat(c.channel) + (InTask(s.task) + s.unread);
    assert source == s.served + (stash + after);
    assert rest == stash + after;
    forall i | 0 <= i < |stash| - 1 ensures rest[i] != NEWLINE {
      assert rest[i] == c.buf[..|c.buf| - 1][c.pos + i];
    }
    assert rest[|stash| - 1] == source[Drained(s) - 1];
    if |stash| == |rest| && rest[|stash| - 1] != NEWLINE {
      assert Unfinished(rest);
      UnfinishedIsOneLine(rest);
    } else {
      FirstLineIs(rest, |stash|);
    }
    assert rest[..|stash|] == stash;
  }

  lemma {:induction false} UnfinishedIsOneLine(s: seq<Byte>)
    requires Unfinished(s)
    ensures LineLength(s) == |s|
  {
    if s != [] {
      UnfinishedIsOneLine(s[1..]);
    }
  }

  /**
   Without an error, an empty answer to a non-empty read means the end: everything
   has been served. It is given exactly when the reader task is gone and nothing is queued.
   */
  lemma {:induction false} EmptyReadMeansEverythingServed(source: seq<Byte>, trace: seq<State>, events: seq<Event>,
                                                          k: nat, n: nat)
    requires IsRun(source, trace, events) && k < |trace| && n > 0
    ensures var s := trace[k];
            && Inv(s, source)
            && (Polled(s.consumer, Closed(s), n).0 == Served([]) <==>
                s.task.Stopped? && s.consumer.channel == [] && s.consumer.buf == [])
            && (s.cause.NoError? && Polled(s.consumer, Closed(s), n).0 == Served([]) ==> s.served == source)
  {
    RunKeepsInv(source, trace, events, k);
    EmptyReadIsTheEnd(trace[k], source, n);
  }

  lemma {:induction false} EmptyReadIsTheEnd(s: State, source: seq<Byte>, n: nat)
    requires Inv(s, source) && n > 0
    ensures Polled(s.consumer, Closed(s), n).0 == Served([]) <==>
            s.task.Stopped? && s.consumer.channel == [] && s.consumer.buf == []
    ensures s.cause.NoError? && Polled(s.consumer, Closed(s), n).0 == Served([]) ==> s.served == source
  {
    hide FirstLine, HasFailure, AtLineStart, ShortBefore, LongLineAt;
    var c := s.consumer;
    if c.pos < |c.buf| {
      var m := if |c.buf| - c.pos < n then |c.buf| - c.pos else n;
      assert |c.buf[c.pos..c.pos + m]| > 0;
    } else if c.channel != [] && c.channel[0].Line? {
      var line := c.channel[0].bytes;
      assert |line[..if |line| < n then |line| else n]| > 0;
    } else if c.channel == [] {
      assert s.served + [] == s.served;
    }
  }

  /** A finished run without source error raised the cap error exactly when some line is over the cap. */
  lemma {:induction false} CapErrorIsExact(source: seq<Byte>, trace: seq<State>, events: seq<Event>, k: nat)
    requires IsRun(source, trace, events) && k < |trace|
    requires trace[k].task.Stopped? && !trace[k].cause.SourceError?
    ensures Inv(trace[k], source)
    ensures trace[k].cause.Oversize? <==> exists i :: LongLineAt(source, i)
  {
    var s := trace[k];
    RunKeepsInv(source, trace, events, k);
    if s.cause.NoError? {
      FromTaskStart(s, source);
      assert TaskStart(s) == |source|;
    }
  }

  // ------------------------------------------------- the interleaved task sends the same

  /** The messages put into the channel in the first `k` steps, in order. */
  function Pushed(trace: seq<State>, events: seq<Event>, k: nat): seq<Message>
    requires k <= |events| && k < |trace|
  {
    if k == 0 then []
    else Pushed(trace, events, k - 1)
         + if events[k - 1].Push? && trace[k - 1].task.Sending? then [trace[k - 1].task.message] else []
  }

  /** What is still to come, as long as the source does not fail. */
  function StillToSend(s: State): seq<Message> {
    match s.task
    case Reading(line) => Messages(line + s.unread)
    case Sending(message, _) => if message.Line? then [message] + Messages(s.unread) else [message]
    case Stopped(_) => []
  }

  /**
   What was sent and what is to come are the source's messages; after a source error, what was sent is
   a part of them.
   */
  ghost predicate OnTrack(source: seq<Byte>, s: State, sent: seq<Message>) {
    if !s.cause.SourceError? then sent + StillToSend(s) == Messages(source)
    else if s.task.Stopped? then SentFor(source, sent, true)
    else s.task.Sending? && s.task.message.Failure? && sent <= Messages(source)
  }

  lemma {:induction false} StepStaysOnTrack(s: State, source: seq<Byte>, e: Event, sent: seq<Message>)
    requires Inv(s, source) && Enabled(s, e) && OnTrack(source, s, sent)
    ensures OnTrack(source, Next(s, e), if e.Push? then sent + [s.task.message] else sent)
  {
    hide Messages, FirstLine, Polled, Conserved, ChannelOk, AtLineStart, ShortBefore, LongLineAt, HasFailure,
         IsLineAt, Received, StashOk;
    match e
    case Fill(k) =>
      FillSends(s.task.line, s.unread, k);
    case EndOfSource =>
      EndSends(s.task.line);
      assert s.task.line + [] == s.task.line;
    case IoError =>
    case Push =>
      PushSends(s, source, sent);
    case Poll(n) =>
  }

  lemma {:induction false} PushSends(s: State, source: seq<Byte>, sent: seq<Message>)
    requires Inv(s, source) && Enabled(s, Push) && OnTrack(source, s, sent)
    ensures OnTrack(source, Next(s, Push), sent + [s.task.message])
  {
    hide Messages, Conserved, ChannelOk, AtLineStart, ShortBefore, LongLineAt, HasFailure, IsLineAt, StashOk;
    assert [] + s.unread == s.unread;
    assert s.task.message.Line? ==> [s.task.message] + Messages(s.unread) == StillToSend(s);
    assert sent + [s.task.message] + Messages(s.unread) == sent + ([s.task.message] + Messages(s.unread));
    assert (sent + [s.task.message])[..|sent|] == sent;
  }

  lemma {:induction false} FillSends(line: seq<Byte>, unread: seq<Byte>, k: nat)
    requires Unfinished(line) && |line| <= MAX_LINE_SIZE && 0 < k <= |unread|
    ensures var taken := FirstLine(unread[..k]);
            var longer, rest := line + taken, unread[|taken|..];
            && (|longer| > MAX_LINE_SIZE ==> Messages(line + unread) == [Failure])
            && (|longer| <= MAX_LINE_SIZE && Finished(taken) ==>
                Messages(line + unread) == [Line(longer)] + Messages(rest))
            && (!Finished(taken) ==> longer + rest == line + unread)
  {
    hide FirstLine, Messages;
    var taken := FirstLine(unread[..k]);
    FirstLineGrows(line, unread, k);
    NextMessage(line + unread);
    assert (line + unread)[|line + taken|..] == unread[|taken|..];
  }

  lemma {:induction false} EndSends(line: seq<Byte>)
    requires Unfinished(line) && |line| <= MAX_LINE_SIZE
    ensures Messages(line) == if line == [] then [] else [Line(line)]
    ensures Messages([]) == []
  {
    hide FirstLine, Messages;
    FirstLineAfter(line, []);
    FirstLineOfNothing();
    NextMessage(line);
    NextMessage([]);
    assert line + [] == line && line[|line|..] == [];
  }

  lemma {:induction false} RunStaysOnTrack(source: seq<Byte>, trace: seq<State>, events: seq<Event>, k: nat)
    requires IsRun(source, trace, events) && k < |trace|
    ensures OnTrack(source, trace[k], Pushed(trace, events, k))
  {
    hide Messages, Next, Enabled, Inv, OnTrack;
    if k == 0 {
      StartsOnTrack(source);
    } else {
      RunKeepsInv(source, trace, events, k - 1);
      RunStaysOnTrack(source, trace, events, k - 1);
      StepStaysOnTrack(trace[k - 1], source, events[k - 1], Pushed(trace, events, k - 1));
      PushedOneMore(source, trace, events, k);
    }
  }

  lemma {:induction false} StartsOnTrack(source: seq<Byte>)
    ensures OnTrack(source, Initial(source), [])
  {
    assert [] + source == source;
  }

  lemma {:induction false} PushedOneMore(source: seq<Byte>, trace: seq<State>, events: seq<Event>, k: nat)
    requires IsRun(source, trace, events) && 0 < k < |trace|
    ensures Pushed(trace, events, k)
         == if events[k - 1].Push? then Pushed(trace, events, k - 1) + [trace[k - 1].task.message]
            else Pushed(trace, events, k - 1)
  {
    hide Next, Messages;
  }

  /**
   Under every interleaving, a task that has stopped has sent what the loop alone sends:
   the source's messages, or, after a source error, some of them and a failure.
   */
  lemma {:induction false} InterleavingSendsTheSame(source: seq<Byte>, trace: seq<State>, events: seq<Event>, k: nat)
    requires IsRun(source, trace, events) && k < |trace| && trace[k].task.Stopped?
    ensures SentFor(source, Pushed(trace, events, k), trace[k].cause.SourceError?)
  {
    hide Messages, Next, Enabled, Pushed;
    RunStaysOnTrack(source, trace, events, k);
  }

  // ------------------------------------------------------------------- progress

  predicate Over(s: State) {
    s.task.Stopped? && s.consumer.channel == [] && s.consumer.buf == []
  }

  function TaskWork(t: Task): nat {
    match t
    case Reading(line) => if line == [] then 1 else 4
    case Sending(_, _) => 3
    case Stopped(_) => 0
  }

  /** Work left: strictly less after every step that does something. */
  function Work(s: State): nat
    requires ConsumerOk(s.consumer)
  {
    5 * |s.unread| + |Received(s.consumer)| + |InTask(s.task)| + TaskWork(s.task) + |s.consumer.channel|
    + (if s.cause.NoError? then 3 else 0)
  }

  /** A step other than a poll that finds nothing to hand over. */
  predicate Productive(s: State, e: Event) {
    Enabled(s, e) && (e.Poll? ==> e.n > 0 && !(s.consumer.buf == [] && s.consumer.channel == []))
  }

  /**
   No reachable state is stuck before the end, and every productive step uses up work:
   under any scheduling that keeps taking productive steps, the run reaches the end.
   */
  lemma {:induction false} ProgressUntilOver(s: State, source: seq<Byte>)
    requires Inv(s, source)
    ensures !Over(s) ==> exists e :: Productive(s, e)
    ensures forall e :: Productive(s, e) ==> Inv(Next(s, e), source) && Work(Next(s, e)) < Work(s)
  {
    forall e | Productive(s, e) ensures Inv(Next(s, e), source) && Work(Next(s, e)) < Work(s) {
      StepKeepsInv(s, source, e);
      StepUsesWork(s, source, e);
    }
    if !Over(s) {
      if s.consumer.buf != [] || s.consumer.channel != [] {
        assert Productive(s, Poll(1));
      } else if s.task.Sending? {
        assert Productive(s, Push);
      } else if s.unread == [] {
        assert Productive(s, EndOfSource);
      } else {
        assert Productive(s, Fill(1));
      }
    }
  }

  lemma {:induction false} StepUsesWork(s: State, source: seq<Byte>, e: Event)
    requires Inv(s, source) && Productive(s, e)
    ensures ConsumerOk(Next(s, e).consumer) && Work(Next(s, e)) < Work(s)
  {
    hide FirstLine, ChannelOk, Flat, HasFailure, Polled, ShortBefore, AtLineStart, LongLineAt, IsLineAt;
    match e
    case Fill(k) =>
      FirstLineGrows(s.task.line, s.unread, k);
    case EndOfSource =>
    case IoError =>
    case Push =>
      FlatAppend(s.consumer.channel, s.task.message);
    case Poll(n) =>
      PollUsesWork(s.consumer, Closed(s), n, source, Drained(s));
  }

  /** A poll that finds anything hands over bytes or takes a message. */
  lemma {:induction false} PollUsesWork(c: Consumer, closed: bool, n: nat, source: seq<Byte>, at: nat)
    requires ConsumerOk(c) && ChannelOk(c.channel, source, at) && AtLineStart(source, at)
    requires n > 0 && !(c.buf == [] && c.channel == [])
    ensures var c' := Polled(c, closed, n).1;
            ConsumerOk(c') && |Received(c')| + |c'.channel| < |Received(c)| + |c.channel|
  {
    hide FirstLine, ChannelOk, HasFailure, ShortBefore, AtLineStart, LongLineAt, IsLineAt;
    PolledMoves(c, closed, n, source, at);
  }
}
