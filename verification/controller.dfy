/** The engine-side command bridge of the agent controller: classification of
    one request read from a connection, the per-frame tick that drains the
    command queue and the position-request queue, command dispatch, the
    collision flags and the comma-separated snapshot line.

    Threads and sockets are the environment: the two concurrent queues are
    sequences (head = oldest), a connection is an opaque `Client`, and what a
    read or a write on it did is an input. Positions are integer triples; the
    frame-dependent `speed * Time.deltaTime` displacement is a `Motion` input,
    and the value `Random.Range(-13, 13)` draws is an input `rx`. */
module Controller {
  import opened Maybe
  import opened Text

  /** Size of the one read buffer a handler fills. */
  const BufferSize: nat := 1024

  /** The reserved payload that asks for a state snapshot. */
  const QueryToken: string := "get_positions"

  /** Unity's integer `Random.Range(min, max)` draws from [min, max). */
  const TargetLow: int := -13
  const TargetHigh: int := 13

  predicate InTargetRange(x: int) {
    TargetLow <= x < TargetHigh
  }

  /** C# prints a float coordinate with up to seven significant digits: an
      integral value below ten million in magnitude comes out as plain
      decimal digits, a larger one in exponent form (`1E+07`). */
  const PlainLimit: int := 10_000_000

  predicate PlainCoordinate(n: int) {
    -PlainLimit < n < PlainLimit
  }

  datatype Vec3 = Vec3(x: int, y: int, z: int) {
    function Plus(d: Vec3): Vec3 {
      Vec3(x + d.x, y + d.y, z + d.z)
    }

    function Negate(): Vec3 {
      Vec3(-x, -y, -z)
    }
  }

  const Origin: Vec3 := Vec3(0, 0, 0)

  /** An accepted connection, identified abstractly. */
  datatype Client = Client(id: nat)

  /** The simulation state the tick and the collision callbacks share. */
  datatype Sim = Sim(agent: Vec3, target: Vec3, hitWall: bool, hitTarget: bool)

  /** The simulation state together with the two pending queues. */
  datatype Bridge = Bridge(sim: Sim, commands: seq<string>, queries: seq<Client>)

  /** This frame's displacement for `Vector3.forward` and `Vector3.right`
      scaled by speed and frame time; `back` and `left` are their opposites. */
  datatype Motion = Motion(forward: Vec3, right: Vec3)

  // ---------------------------------------------------------------------
  // Connection handler

  /** What the handler's single read did: either the bytes that had arrived
      when it ran (possibly none, when the peer closed), or an exception. */
  datatype ReadResult = Received(arrived: seq<byte>) | ReadFailed

  /** What became of the connection after the handler returned. */
  datatype Fate =
    | AwaitingReply          // queued for a snapshot; the tick closes it
    | ClosedOnError          // the read threw; the handler closed it
    | Enqueued(command: string)  // text queued as a command; left open

  datatype Handled = Handled(next: Bridge, fate: Fate)

  /** `Encoding.ASCII.GetString`: bytes above 127 decode to '?'. */
  function AsciiChar(b: byte): char {
    if b < 128 then (b as int) as char else '?'
  }

  function DecodeAscii(bytes: seq<byte>): (s: string)
    ensures |s| == |bytes|
    ensures IsAscii(s)
    ensures forall i :: 0 <= i < |bytes| ==> s[i] == AsciiChar(bytes[i])
  {
    seq(|bytes|, i requires 0 <= i < |bytes| => AsciiChar(bytes[i]))
  }

  /** The bytes one `Read` into the buffer copies out of what had arrived. */
  function ReadChunk(arrived: seq<byte>): (chunk: seq<byte>)
    ensures |chunk| <= BufferSize
    ensures chunk <= arrived
    ensures |arrived| <= BufferSize ==> chunk == arrived
  {
    if |arrived| <= BufferSize then arrived else arrived[..BufferSize]
  }

  /** The text the handler decodes from a successful read. */
  function Payload(arrived: seq<byte>): (text: string)
    ensures |text| <= BufferSize && IsAscii(text)
    ensures |arrived| <= BufferSize ==> |text| == |arrived|
  {
    DecodeAscii(ReadChunk(arrived))
  }

  /** Reads one request and either queues the connection for a snapshot
      (exactly the reserved text) or queues the text as a command. Only a
      failed read closes the connection here. */
  function HandleClient(b: Bridge, c: Client, read: ReadResult): (h: Handled)
    ensures h.next.sim == b.sim
    ensures read.ReadFailed? ==> h.next == b && h.fate == ClosedOnError
    ensures read.Received? && Payload(read.arrived) == QueryToken ==>
              && h.fate == AwaitingReply
              && h.next.queries == b.queries + [c]
              && h.next.commands == b.commands
    ensures read.Received? && Payload(read.arrived) != QueryToken ==>
              && h.fate == Enqueued(Payload(read.arrived))
              && h.next.commands == b.commands + [Payload(read.arrived)]
              && h.next.queries == b.queries
  {
    match read
    case ReadFailed => Handled(b, ClosedOnError)
    case Received(arrived) =>
      var command := Payload(arrived);
      if command == QueryToken then
        Handled(b.(queries := b.queries + [c]), AwaitingReply)
      else
        Handled(b.(commands := b.commands + [command]), Enqueued(command))
  }

  // ---------------------------------------------------------------------
  // Command dispatch

  predicate IsMove(command: string) {
    command == "forward" || command == "left" || command == "right" || command == "back"
  }

  /** The agent displacement a movement command makes in this frame. */
  function Displacement(command: string, mv: Motion): Vec3
    requires IsMove(command)
  {
    if command == "forward" then mv.forward
    else if command == "left" then mv.right.Negate()
    else if command == "right" then mv.right
    else mv.forward.Negate()
  }

  /** The target after a re-draw: the drawn x, on the x axis. */
  function PlacedTarget(rx: int): Vec3 {
    Vec3(rx, 0, 0)
  }

  /** Applies one command. Moves shift only the agent; `reset` puts the agent
      at the origin, re-draws the target and clears both flags; every other
      text leaves the state as it was. */
  function ProcessCommand(s: Sim, command: string, mv: Motion, rx: int): (r: Sim)
    requires InTargetRange(rx)
    ensures IsMove(command) ==>
              && r.agent == s.agent.Plus(Displacement(command, mv))
              && r.target == s.target
              && r.hitWall == s.hitWall && r.hitTarget == s.hitTarget
    ensures command == "reset" ==>
              && r.agent == Origin
              && r.target.x == rx && InTargetRange(r.target.x)
              && r.target.y == 0 && r.target.z == 0
              && !r.hitWall && !r.hitTarget
    ensures !IsMove(command) && command != "reset" ==> r == s
  {
    if command == "forward" then s.(agent := s.agent.Plus(mv.forward))
    else if command == "left" then s.(agent := s.agent.Plus(mv.right.Negate()))
    else if command == "right" then s.(agent := s.agent.Plus(mv.right))
    else if command == "back" then s.(agent := s.agent.Plus(mv.forward.Negate()))
    else if command == "reset" then Sim(Origin, PlacedTarget(rx), false, false)
    else s
  }

  // ---------------------------------------------------------------------
  // Snapshot

  /** C#'s `bool.ToString()`. */
  function BoolText(b: bool): (t: string)
    ensures t == "True" <==> b
    ensures t == "False" <==> !b
    ensures IsAscii(t) && ',' !in t
  {
    if b then "True" else "False"
  }

  /** The eight fields of a snapshot: agent x, y, z, target x, y, z, and the
      wall and target flags. */
  function SnapshotFields(s: Sim): (fields: seq<string>)
    ensures |fields| == 8
    ensures FreeOf(fields, ',')
  {
    [ NumText(s.agent.x), NumText(s.agent.y), NumText(s.agent.z),
      NumText(s.target.x), NumText(s.target.y), NumText(s.target.z),
      BoolText(s.hitWall), BoolText(s.hitTarget) ]
  }

  /** The reply line for a position request. */
  function Snapshot(s: Sim): (line: string)
    ensures IsAscii(line)
    ensures multiset(line)[','] == 7
  {
    var fields := SnapshotFields(s);
    JoinAscii(fields, ',');
    JoinSeparatorCount(fields, ',');
    Join(fields, ',')
  }

  /** The snapshot line splits on ',' into exactly its eight fields, the last
      two being the flags as `True`/`False`. */
  lemma SnapshotSplits(s: Sim)
    ensures Split(Snapshot(s), ',') == SnapshotFields(s)
    ensures |Split(Snapshot(s), ',')| == 8
    ensures Split(Snapshot(s), ',')[6] == BoolText(s.hitWall)
    ensures Split(Snapshot(s), ',')[7] == BoolText(s.hitTarget)
  {
    SplitJoin(SnapshotFields(s), ',');
  }

  /** What serving one position request did: the line written, if the write
      went through, and the connections closed. */
  datatype Sent = Sent(written: Option<string>, closed: seq<Client>)

  /** Writes the snapshot to the client and closes it, whether or not the
      write succeeded. */
  function SendPositions(s: Sim, c: Client, writeOk: bool): (o: Sent)
    ensures o.closed == [c]
    ensures writeOk ==> o.written == Some(Snapshot(s))
    ensures !writeOk ==> o.written == None
  {
    Sent(if writeOk then Some(Snapshot(s)) else None, [c])
  }

  // ---------------------------------------------------------------------
  // Per-frame tick

  /** The outcome of one `Update`: the new bridge, the command applied, the
      client served, the line written to it and the connections closed. */
  datatype Tick = Tick(next: Bridge, applied: Option<string>, served: Option<Client>,
                       written: Option<string>, closed: seq<Client>)

  /** One frame: take the oldest command, if any, and apply it; then take the
      oldest position request, if any, and answer it from the state the
      command left. */
  function Update(b: Bridge, mv: Motion, rx: int, writeOk: bool): (t: Tick)
    requires InTargetRange(rx)
    ensures b.commands == ToSeq(t.applied) + t.next.commands
    ensures b.queries == ToSeq(t.served) + t.next.queries
    ensures t.applied.Some? <==> |b.commands| > 0
    ensures t.served.Some? <==> |b.queries| > 0
    ensures t.applied.Some? ==> t.next.sim == ProcessCommand(b.sim, t.applied.value, mv, rx)
    ensures t.applied.None? ==> t.next.sim == b.sim
    ensures t.closed == ToSeq(t.served)
    ensures t.written.Some? <==> t.served.Some? && writeOk
    ensures t.written.Some? ==> t.written.value == Snapshot(t.next.sim)
  {
    var (sim, commands, applied) :=
      if |b.commands| > 0 then
        (ProcessCommand(b.sim, b.commands[0], mv, rx), b.commands[1..], Some(b.commands[0]))
      else (b.sim, b.commands, None);
    if |b.queries| > 0 then
      var client := b.queries[0];
      var sent := SendPositions(sim, client, writeOk);
      assert b.queries == [client] + b.queries[1..];
      Tick(Bridge(sim, commands, b.queries[1..]), applied, Some(client), sent.written, sent.closed)
    else
      Tick(Bridge(sim, commands, b.queries), applied, None, None, [])
  }

  // ---------------------------------------------------------------------
  // Collision callbacks

  /** Contact with a wall sends the agent home and raises `hitWall`; contact
      with the target sends the agent home, re-draws the target and raises
      `hitTarget`; any other tag changes nothing. */
  function OnCollisionEnter(s: Sim, tag: string, rx: int): (r: Sim)
    requires InTargetRange(rx)
    ensures tag == "Wall" ==>
              && r.agent == Origin && r.hitWall
              && r.target == s.target && r.hitTarget == s.hitTarget
    ensures tag == "Target" ==>
              && r.agent == Origin && r.hitTarget
              && r.target == PlacedTarget(rx)
              && r.hitWall == s.hitWall
    ensures tag != "Wall" && tag != "Target" ==> r == s
  {
    if tag == "Wall" then s.(agent := Origin, hitWall := true)
    else if tag == "Target" then s.(agent := Origin, target := PlacedTarget(rx), hitTarget := true)
    else s
  }

  /** Separation clears the flag that matches the tag and nothing else. */
  function OnCollisionExit(s: Sim, tag: string): (r: Sim)
    ensures r.agent == s.agent && r.target == s.target
    ensures tag == "Wall" ==> !r.hitWall && r.hitTarget == s.hitTarget
    ensures tag == "Target" ==> !r.hitTarget && r.hitWall == s.hitWall
    ensures tag != "Wall" && tag != "Target" ==> r == s
  {
    if tag == "Wall" then s.(hitWall := false)
    else if tag == "Target" then s.(hitTarget := false)
    else s
  }

  // ---------------------------------------------------------------------
  // Properties of the state machine

  /** Opposite moves made with the same frame displacement cancel. */
  lemma OppositeMovesCancel(s: Sim, mv: Motion, rx: int)
    requires InTargetRange(rx)
    ensures ProcessCommand(ProcessCommand(s, "left", mv, rx), "right", mv, rx) == s
    ensures ProcessCommand(ProcessCommand(s, "right", mv, rx), "left", mv, rx) == s
    ensures ProcessCommand(ProcessCommand(s, "forward", mv, rx), "back", mv, rx) == s
    ensures ProcessCommand(ProcessCommand(s, "back", mv, rx), "forward", mv, rx) == s
  {
  }

  /** `reset` is idempotent up to the new draw: a second reset with the same
      draw gives the same state. */
  lemma ResetIdempotent(s: Sim, mv: Motion, rx: int)
    requires InTargetRange(rx)
    ensures ProcessCommand(ProcessCommand(s, "reset", mv, rx), "reset", mv, rx)
              == ProcessCommand(s, "reset", mv, rx)
  {
  }

  /** Every coordinate of the state prints as plain decimal digits. */
  predicate PrintsPlainly(s: Sim) {
    && PlainCoordinate(s.agent.x) && PlainCoordinate(s.agent.y) && PlainCoordinate(s.agent.z)
    && PlainCoordinate(s.target.x) && PlainCoordinate(s.target.y) && PlainCoordinate(s.target.z)
  }

  /** The target sits on the x axis at a drawn position. */
  predicate TargetPlaced(s: Sim) {
    s.target.y == 0 && s.target.z == 0 && InTargetRange(s.target.x)
  }

  /** Every command and collision callback keeps the target placed. */
  lemma TargetStaysPlaced(s: Sim, command: string, tag: string, mv: Motion, rx: int)
    requires TargetPlaced(s) && InTargetRange(rx)
    ensures TargetPlaced(ProcessCommand(s, command, mv, rx))
    ensures TargetPlaced(OnCollisionEnter(s, tag, rx))
    ensures TargetPlaced(OnCollisionExit(s, tag))
  {
  }

  /** Touching a wall and then leaving it: the snapshot taken in between
      reports the wall, the one after does not, and the target flag is never
      touched. */
  lemma WallContactThenSeparation(s: Sim, rx: int)
    requires InTargetRange(rx)
    ensures SnapshotFields(OnCollisionEnter(s, "Wall", rx))[6] == "True"
    ensures SnapshotFields(OnCollisionExit(OnCollisionEnter(s, "Wall", rx), "Wall"))[6] == "False"
    ensures OnCollisionExit(OnCollisionEnter(s, "Wall", rx), "Wall")
              == s.(agent := Origin, hitWall := false)
  {
  }
}
