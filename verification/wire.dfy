/** How the two programs fit together: the client's payloads reach the
    engine's handler unchanged and are classified as intended, and the
    engine's snapshot line is read back by the client as the state it
    describes. Python's `float()` enters only through the hypothesis that it
    reads the engine's number text back as the same value. */
module Wire {
  import opened Maybe
  import opened Text
  import Controller
  import ControllerTrace
  import UnityEnv

  /** The engine decodes what the client encoded, for ASCII payloads that fit
      the read buffer. */
  lemma PayloadRoundTrip(s: string)
    requires IsAscii(s) && |s| <= Controller.BufferSize
    ensures Controller.Payload(UnityEnv.Encode(s)) == s
  {
    var bytes := UnityEnv.Encode(s);
    assert Controller.ReadChunk(bytes) == bytes;
    assert forall i :: 0 <= i < |s| ==> Controller.AsciiChar(bytes[i]) == s[i];
  }

  /** A payload sent by the client becomes a position request exactly when it
      is the reserved text, and a command carrying the same text otherwise. */
  lemma PayloadClassified(b: Controller.Bridge, c: Controller.Client, s: string)
    requires IsAscii(s) && |s| <= Controller.BufferSize
    ensures Controller.HandleClient(b, c, Controller.Received(UnityEnv.Encode(s))).fate
              == if s == Controller.QueryToken then Controller.AwaitingReply
                 else Controller.Enqueued(s)
  {
    PayloadRoundTrip(s);
  }

  /** Both programs use the same reserved query text. */
  lemma SameQueryToken()
    ensures UnityEnv.PositionsRequest == Controller.QueryToken
  {
  }

  /** The payloads the client ever sends. */
  predicate ClientVocabulary(s: string) {
    s == "left" || s == "right" || s == "reset" || s == UnityEnv.PositionsRequest
  }

  /** A step sends only payloads from the client's vocabulary. */
  lemma StepSendsVocabulary(env: UnityEnv.Env, action: int, reply: Option<string>,
                            parseNum: string -> Option<real>, norm: UnityEnv.Point -> real)
    requires UnityEnv.ActionCommand(action).Some?
    ensures var out := UnityEnv.Step(env, action, reply, parseNum, norm).value;
      forall i :: 0 <= i < |out.sent| ==> ClientVocabulary(out.sent[i])
  {
    var o := UnityEnv.GetPositions(reply, parseNum);
    var out := UnityEnv.Step(env, action, reply, parseNum, norm).value;
    forall i | 0 <= i < |out.sent| ensures ClientVocabulary(out.sent[i]) {
      if i < 2 {
        assert out.sent[i] == out.sent[..2][i];
      } else {
        assert UnityEnv.Collided(o);
        assert out.sent[i] == out.sent[2..][i - 2];
      }
    }
  }

  /** The engine understands each client payload as intended: the query as a
      position request, the others as movement or reset commands. */
  lemma VocabularyUnderstood(b: Controller.Bridge, c: Controller.Client, s: string)
    requires ClientVocabulary(s)
    ensures IsAscii(s) && |s| <= Controller.BufferSize
    ensures s == Controller.QueryToken || Controller.IsMove(s) || s == "reset"
    ensures Controller.HandleClient(b, c, Controller.Received(UnityEnv.Encode(s))).fate
              == if s == Controller.QueryToken then Controller.AwaitingReply
                 else Controller.Enqueued(s)
  {
    PayloadClassified(b, c, s);
  }

  // ---------------------------------------------------------------------
  // Snapshot line to observation

  /** The hypothesis on Python's `float()`: it reads the engine's text of
      every integer that prints plainly back as that integer. Such integers
      are below ten million in magnitude, where a double is exact. */
  ghost predicate ReadsNumbers(parseNum: string -> Option<real>) {
    forall n: int :: Controller.PlainCoordinate(n) ==> parseNum(NumText(n)) == Some(n as real)
  }

  function ToPoint(v: Controller.Vec3): UnityEnv.Point {
    UnityEnv.Point(v.x as real, v.y as real, v.z as real)
  }

  /** What the client should see for an engine state. */
  function Observe(s: Controller.Sim): UnityEnv.Obs {
    UnityEnv.Obs(ToPoint(s.agent), ToPoint(s.target), s.hitWall, s.hitTarget)
  }

  /** The engine's `True`/`False` read back as the same boolean. */
  lemma FlagRoundTrip(b: bool)
    ensures UnityEnv.ParseFlag(Controller.BoolText(b)) == b
  {
    var t := Controller.BoolText(b);
    StripTrimmed(t);
    if b {
      assert Lower(t) == "true";
    } else {
      assert Lower(t) != "true" by { assert Lower(t)[0] == 'f'; }
    }
  }

  /** Whitespace around a flag does not change how it is read. */
  lemma PaddedFlagRoundTrip(w1: string, b: bool, w2: string)
    requires AllSpace(w1) && AllSpace(w2)
    ensures UnityEnv.ParseFlag(w1 + Controller.BoolText(b) + w2) == b
  {
    StripPadded(w1, Controller.BoolText(b), w2);
  }

  /** The client's field parser reads the engine's eight fields back as the
      state they describe. */
  lemma FieldsObserved(s: Controller.Sim, parseNum: string -> Option<real>)
    requires ReadsNumbers(parseNum) && Controller.PrintsPlainly(s)
    ensures UnityEnv.ParseFields(Controller.SnapshotFields(s), parseNum) == Some(Observe(s))
  {
    var v := Controller.SnapshotFields(s);
    assert parseNum(v[0]) == Some(s.agent.x as real);
    assert parseNum(v[1]) == Some(s.agent.y as real);
    assert parseNum(v[2]) == Some(s.agent.z as real);
    assert parseNum(v[3]) == Some(s.target.x as real);
    assert parseNum(v[4]) == Some(s.target.y as real);
    assert parseNum(v[5]) == Some(s.target.z as real);
    FlagRoundTrip(s.hitWall);
    FlagRoundTrip(s.hitTarget);
  }

  /** The client reads an engine snapshot back as exactly the state it was
      taken from. */
  lemma SnapshotObserved(s: Controller.Sim, parseNum: string -> Option<real>)
    requires ReadsNumbers(parseNum) && Controller.PrintsPlainly(s)
    ensures UnityEnv.GetPositions(Some(Controller.Snapshot(s)), parseNum) == Observe(s)
  {
    Controller.SnapshotSplits(s);
    FieldsObserved(s, parseNum);
    assert UnityEnv.ParseReply(Controller.Snapshot(s), parseNum) == Some(Observe(s));
  }

  /** A reader of optionally signed decimal integers, standing for what
      `float()` does on such text. */
  function DecimalAsReal(s: string): Option<real> {
    match ParseDecimal(s)
    case Some(n) => Some(n as real)
    case None => None
  }

  /** The hypothesis on `float()` is met by a plain decimal reader. */
  lemma DecimalReadsNumbers()
    ensures ReadsNumbers(DecimalAsReal)
  {
    forall n: int | Controller.PlainCoordinate(n)
      ensures DecimalAsReal(NumText(n)) == Some(n as real)
    {
      NumTextRoundTrip(n);
    }
  }

  /** An engine state with the wall flag set costs the step -5 and asks for a
      reset, whatever the target flag says; the engine's reset then clears both
      flags. */
  lemma WallSnapshotPenalised(env: UnityEnv.Env, action: int, s: Controller.Sim,
                              parseNum: string -> Option<real>, norm: UnityEnv.Point -> real,
                              mv: Controller.Motion, rx: int)
    requires ReadsNumbers(parseNum) && Controller.PrintsPlainly(s) && s.hitWall
    requires UnityEnv.ActionCommand(action).Some? && Controller.InTargetRange(rx)
    ensures var out := UnityEnv.Step(env, action, Some(Controller.Snapshot(s)), parseNum, norm).value;
      && out.reward == UnityEnv.WallPenalty && out.done
      && out.sent[|out.sent| - 1] == UnityEnv.ResetCommand
      && var s' := Controller.ProcessCommand(s, out.sent[|out.sent| - 1], mv, rx);
         !s'.hitWall && !s'.hitTarget
  {
    SnapshotObserved(s, parseNum);
  }

  // ---------------------------------------------------------------------
  // End-to-end scenario

  /** A `reset` connection followed by a frame, from idle queues: the bridge
      is reset and idle again, and nothing is answered or closed. */
  lemma ResetFrame(w0: ControllerTrace.World, c1: Controller.Client,
                   mv1: Controller.Motion, rx1: int)
    requires Controller.InTargetRange(rx1)
    requires w0.bridge.commands == [] && w0.bridge.queries == []
    ensures var w1 := ControllerTrace.Apply(w0,
              ControllerTrace.Connect(c1, Controller.Received(UnityEnv.Encode("reset"))));
      var w2 := ControllerTrace.Apply(w1, ControllerTrace.Frame(mv1, rx1, true));
      && w2.bridge.sim == Controller.Sim(Controller.Origin, Controller.Vec3(rx1, 0, 0), false, false)
      && w2.bridge.commands == [] && w2.bridge.queries == []
      && w2.log.served == w0.log.served && w2.log.closed == w0.log.closed
      && w2.log.replies == w0.log.replies
  {
    PayloadRoundTrip("reset");
    var w1 := ControllerTrace.Apply(w0,
      ControllerTrace.Connect(c1, Controller.Received(UnityEnv.Encode("reset"))));
    assert w1.bridge.commands == ["reset"] && w1.bridge.queries == [];
    assert w1.log.closed == w0.log.closed;
  }

  /** A `get_positions` connection followed by a frame, from idle queues: that
      client alone is answered with the current state and closed, and the
      state is unchanged. */
  lemma QueryFrame(w2: ControllerTrace.World, c2: Controller.Client,
                   mv2: Controller.Motion, rx2: int)
    requires Controller.InTargetRange(rx2)
    requires w2.bridge.commands == [] && w2.bridge.queries == []
    ensures var w3 := ControllerTrace.Apply(w2,
              ControllerTrace.Connect(c2, Controller.Received(UnityEnv.Encode("get_positions"))));
      var w4 := ControllerTrace.Apply(w3, ControllerTrace.Frame(mv2, rx2, true));
      && w4.bridge.sim == w2.bridge.sim
      && w4.log.served == w2.log.served + [c2]
      && w4.log.closed == w2.log.closed + [c2]
      && w4.log.replies == w2.log.replies + [Controller.Snapshot(w2.bridge.sim)]
  {
    PayloadRoundTrip("get_positions");
    var w3 := ControllerTrace.Apply(w2,
      ControllerTrace.Connect(c2, Controller.Received(UnityEnv.Encode("get_positions"))));
    assert w3.bridge.queries == [c2] && w3.bridge.commands == [];
    assert w3.log.closed == w2.log.closed && w3.bridge.sim == w2.bridge.sim;
  }

  /** The snapshot fields of a freshly reset state. */
  lemma ResetSnapshotFields(rx: int)
    ensures Controller.SnapshotFields(
              Controller.Sim(Controller.Origin, Controller.Vec3(rx, 0, 0), false, false))
            == ["0", "0", "0", NumText(rx), "0", "0", "False", "False"]
  {
    assert NumText(0) == "0";
  }

  /** Running four events is applying them one after another. */
  lemma RunFour(w: ControllerTrace.World, events: seq<ControllerTrace.Event>)
    requires |events| == 4 && ControllerTrace.AllValid(events)
    ensures ControllerTrace.Run(w, events)
            == ControllerTrace.Apply(ControllerTrace.Apply(ControllerTrace.Apply(
                 ControllerTrace.Apply(w, events[0]), events[1]), events[2]), events[3])
  {
    var w1 := ControllerTrace.Apply(w, events[0]);
    var w2 := ControllerTrace.Apply(w1, events[1]);
    var w3 := ControllerTrace.Apply(w2, events[2]);
    var w4 := ControllerTrace.Apply(w3, events[3]);
    assert ControllerTrace.Run(w4, events[4..]) == w4;
    assert ControllerTrace.Run(w3, events[3..]) == w4;
    assert ControllerTrace.Run(w2, events[2..]) == w4;
    assert ControllerTrace.Run(w1, events[1..]) == w4;
  }

  /** The client's `reset`, a frame, the client's `get_positions`, a frame. */
  function ResetThenQueryEvents(c1: Controller.Client, c2: Controller.Client,
                                mv1: Controller.Motion, mv2: Controller.Motion,
                                rx1: int, rx2: int): seq<ControllerTrace.Event>
  {
    [ControllerTrace.Connect(c1, Controller.Received(UnityEnv.Encode("reset"))),
     ControllerTrace.Frame(mv1, rx1, true),
     ControllerTrace.Connect(c2, Controller.Received(UnityEnv.Encode("get_positions"))),
     ControllerTrace.Frame(mv2, rx2, true)]
  }

  /** Connect and send `reset`, let a frame run, connect and ask for the
      positions, let another frame run: the position request is answered and
      closed, and the reply is the line `0,0,0,<x>,0,0,False,False` for the
      drawn target x, whatever the state was before. */
  lemma ResetThenQuery(s: Controller.Sim, c1: Controller.Client, c2: Controller.Client,
                       mv1: Controller.Motion, mv2: Controller.Motion, rx1: int, rx2: int)
    requires Controller.InTargetRange(rx1) && Controller.InTargetRange(rx2)
    ensures var w := ControllerTrace.Run(ControllerTrace.Start(s),
                                         ResetThenQueryEvents(c1, c2, mv1, mv2, rx1, rx2));
      && w.log.served == [c2]
      && w.log.closed == [c2]
      && w.log.replies == [Controller.Snapshot(w.bridge.sim)]
      && w.bridge.sim == Controller.Sim(Controller.Origin, Controller.Vec3(rx1, 0, 0), false, false)
      && Controller.SnapshotFields(w.bridge.sim)
           == ["0", "0", "0", NumText(rx1), "0", "0", "False", "False"]
  {
    var events := ResetThenQueryEvents(c1, c2, mv1, mv2, rx1, rx2);
    var w0 := ControllerTrace.Start(s);
    var w2 := ControllerTrace.Apply(ControllerTrace.Apply(w0, events[0]), events[1]);
    RunFour(w0, events);
    ResetFrame(w0, c1, mv1, rx1);
    QueryFrame(w2, c2, mv2, rx2);
    ResetSnapshotFields(rx1);
  }
}
