/** The training client's environment wrapper: the action-to-command table,
    the parser for the engine's snapshot reply with its all-or-nothing
    fallback, the reward and `done` branching of a step, and reset.

    Sockets and sleeps are the environment: the payloads the client tries to
    send are returned in order (a failed send is not visible), and what `get_positions` received is an input
    (`None` when connecting, sending, receiving or decoding raised). Python's
    `float()` is the parameter `parseNum` (`None` where it raises) and the
    Euclidean norm of the agent-to-target difference is the parameter `norm`. */
module UnityEnv {
  import opened Maybe
  import opened Text

  /** The payload that asks the engine for a snapshot. */
  const PositionsRequest: string := "get_positions"

  /** The payload that asks the engine to start a new episode. */
  const ResetCommand: string := "reset"

  /** The number of comma-separated fields a valid reply has. */
  const FieldCount: nat := 8

  const WallPenalty: real := -5.0
  const TargetReward: real := 50.0
  const ProgressWeight: real := 0.5

  datatype Point = Point(x: real, y: real, z: real) {
    function Minus(o: Point): Point {
      Point(x - o.x, y - o.y, z - o.z)
    }
  }

  const Zero: Point := Point(0.0, 0.0, 0.0)

  /** What one `get_positions` call returns. */
  datatype Obs = Obs(agent: Point, target: Point, hitWall: bool, hitTarget: bool)

  /** The value returned when anything in `get_positions` fails. */
  const Fallback: Obs := Obs(Zero, Zero, false, false)

  /** The environment object's own state. */
  datatype Env = Env(state: seq<real>, done: bool, prevDistance: real)

  function Zeros(n: nat): (z: seq<real>)
    ensures |z| == n
    ensures forall i :: 0 <= i < n ==> z[i] == 0.0
  {
    seq(n, i => 0.0)
  }

  /** The constructor: a seven-zero placeholder state, not done, no previous
      distance. */
  function Initial(): (env: Env)
    ensures |env.state| == 7 && forall i :: 0 <= i < 7 ==> env.state[i] == 0.0
    ensures !env.done && env.prevDistance == 0.0
  {
    Env(Zeros(7), false, 0.0)
  }

  /** `str.encode()` of the payloads the client sends; all of them are ASCII,
      where UTF-8 is one byte per character. */
  function Encode(s: string): (bytes: seq<byte>)
    requires IsAscii(s)
    ensures |bytes| == |s|
    ensures forall i :: 0 <= i < |s| ==> bytes[i] as int == s[i] as int
  {
    seq(|s|, i requires 0 <= i < |s| => (s[i] as int) as byte)
  }

  // ---------------------------------------------------------------------
  // Actions

  const Actions: seq<string> := ["left", "right"]

  /** `actions[action]` under Python list indexing: negative indexes count
      from the end, and anything outside [-2, 2) raises `IndexError`. */
  function ActionCommand(action: int): (r: Option<string>)
    ensures r.Some? <==> -|Actions| <= action < |Actions|
    ensures action == 0 ==> r == Some("left")
    ensures action == 1 ==> r == Some("right")
    ensures action == -1 ==> r == Some("right")
    ensures action == -2 ==> r == Some("left")
  {
    if 0 <= action < |Actions| then Some(Actions[action])
    else if -|Actions| <= action < 0 then Some(Actions[action + |Actions|])
    else None
  }

  // ---------------------------------------------------------------------
  // Parsing the reply

  /** A flag field is true exactly when, stripped and lower-cased, it reads
      "true" (so `True`, `TRUE` and ` true ` all count); it never fails. */
  function ParseFlag(field: string): (r: bool)
    ensures r <==> |Strip(field)| == 4
                   && forall i :: 0 <= i < 4 ==> LowerChar(Strip(field)[i]) == "true"[i]
  {
    Lower(Strip(field)) == "true"
  }

  /** Reads split fields: there must be exactly eight, and the first six must
      each be numbers; the last two are flags. */
  function ParseFields(v: seq<string>, parseNum: string -> Option<real>): (r: Option<Obs>)
    ensures r.Some? <==>
              |v| == FieldCount && forall i :: 0 <= i < 6 ==> parseNum(v[i]).Some?
    ensures r.Some? ==>
              && r.value.agent == Point(parseNum(v[0]).value, parseNum(v[1]).value, parseNum(v[2]).value)
              && r.value.target == Point(parseNum(v[3]).value, parseNum(v[4]).value, parseNum(v[5]).value)
              && r.value.hitWall == ParseFlag(v[6])
              && r.value.hitTarget == ParseFlag(v[7])
  {
    if |v| != FieldCount then None
    else
      var n0, n1, n2 := parseNum(v[0]), parseNum(v[1]), parseNum(v[2]);
      var n3, n4, n5 := parseNum(v[3]), parseNum(v[4]), parseNum(v[5]);
      if n0.None? || n1.None? || n2.None? || n3.None? || n4.None? || n5.None? then None
      else
        Some(Obs(Point(n0.value, n1.value, n2.value), Point(n3.value, n4.value, n5.value),
                 ParseFlag(v[6]), ParseFlag(v[7])))
  }

  /** Parses a reply by splitting it on ','. */
  function ParseReply(data: string, parseNum: string -> Option<real>): (r: Option<Obs>)
    ensures r.Some? ==> multiset(data)[','] == FieldCount - 1
  {
    SplitSeparatorCount(data, ',');
    ParseFields(Split(data, ','), parseNum)
  }

  /** `get_positions`: the parsed reply, or zeros and two false flags when the
      exchange failed or the reply did not parse. */
  function GetPositions(reply: Option<string>, parseNum: string -> Option<real>): (o: Obs)
    ensures reply.None? ==> o == Fallback
    ensures reply.Some? && |Split(reply.value, ',')| != FieldCount ==> o == Fallback
    ensures reply.Some? && ParseReply(reply.value, parseNum).Some? ==>
              o == ParseReply(reply.value, parseNum).value
    ensures reply.Some? && ParseReply(reply.value, parseNum).None? ==> o == Fallback
  {
    match reply
    case None => Fallback
    case Some(data) => ParseReply(data, parseNum).GetOr(Fallback)
  }

  function BoolValue(b: bool): real {
    if b then 1.0 else 0.0
  }

  /** The state vector: agent position, target position, then the two flags
      as 0/1. */
  function StateVector(o: Obs): (v: seq<real>)
    ensures |v| == FieldCount
    ensures v[..3] == [o.agent.x, o.agent.y, o.agent.z]
    ensures v[3..6] == [o.target.x, o.target.y, o.target.z]
    ensures v[6] == (if o.hitWall then 1.0 else 0.0)
    ensures v[7] == (if o.hitTarget then 1.0 else 0.0)
  {
    [o.agent.x, o.agent.y, o.agent.z, o.target.x, o.target.y, o.target.z,
     BoolValue(o.hitWall), BoolValue(o.hitTarget)]
  }

  // ---------------------------------------------------------------------
  // Step and reset

  /** What `step` returns, with the payloads it tries to send, in order. */
  datatype StepOut = StepOut(env: Env, observation: seq<real>, reward: real, done: bool,
                             sent: seq<string>)

  predicate Collided(o: Obs) {
    o.hitWall || o.hitTarget
  }

  /** One step: send the action, read the positions, and reward a wall hit
      with -5, a target hit with +50 (both ending the episode and asking for a
      reset), and otherwise half the reduction in distance. `None` is the
      `IndexError` an action outside the table raises before anything is
      sent. */
  function Step(env: Env, action: int, reply: Option<string>,
                parseNum: string -> Option<real>, norm: Point -> real): (r: Option<StepOut>)
    ensures r.None? <==> ActionCommand(action).None?
    ensures r.Some? ==>
              var o := GetPositions(reply, parseNum);
              var out := r.value;
              && out.observation == StateVector(o)
              && out.env.state == out.observation
              && out.done == out.env.done
              && |out.sent| >= 2
              && out.sent[..2] == [ActionCommand(action).value, PositionsRequest]
              && (env.done ==> out.done)
              && (o.hitWall ==>
                    && out.reward == WallPenalty && out.done
                    && out.sent[2..] == [ResetCommand]
                    && out.env.prevDistance == env.prevDistance)
              && (!o.hitWall && o.hitTarget ==>
                    && out.reward == TargetReward && out.done
                    && out.sent[2..] == [ResetCommand]
                    && out.env.prevDistance == env.prevDistance)
              && (!Collided(o) ==>
                    var distance := norm(o.agent.Minus(o.target));
                    && out.reward == ProgressWeight * (env.prevDistance - distance)
                    && out.env.prevDistance == distance
                    && out.done == env.done
                    && |out.sent| == 2)
  {
    match ActionCommand(action)
    case None => None
    case Some(command) =>
      var o := GetPositions(reply, parseNum);
      var distance := norm(o.agent.Minus(o.target));
      var sent := [command, PositionsRequest];
      var (reward, done, prev, sent) :=
        if o.hitWall then (0.0 - 5.0, true, env.prevDistance, sent + [ResetCommand])
        else if o.hitTarget then (0.0 + 50.0, true, env.prevDistance, sent + [ResetCommand])
        else (0.0 + 0.5 * (env.prevDistance - distance), env.done, distance, sent);
      var state := StateVector(o);
      Some(StepOut(Env(state, done, prev), state, reward, done, sent))
  }

  datatype ResetOut = ResetOut(env: Env, observation: seq<real>, sent: seq<string>)

  /** Reset: ask the engine to reset, read the positions, and start a new
      episode. The previous distance is kept. */
  function Reset(env: Env, reply: Option<string>, parseNum: string -> Option<real>): (r: ResetOut)
    ensures !r.env.done
    ensures r.sent == [ResetCommand, PositionsRequest]
    ensures r.observation == StateVector(GetPositions(reply, parseNum))
    ensures r.env.state == r.observation
    ensures r.env.prevDistance == env.prevDistance
  {
    var state := StateVector(GetPositions(reply, parseNum));
    ResetOut(Env(state, false, env.prevDistance), state, [ResetCommand, PositionsRequest])
  }

  // ---------------------------------------------------------------------
  // Episodes

  /** The inputs of one step: the action chosen and what the positions
      request received. */
  datatype StepInput = StepInput(action: int, reply: Option<string>)

  predicate ValidActions(inputs: seq<StepInput>) {
    forall i :: 0 <= i < |inputs| ==> ActionCommand(inputs[i].action).Some?
  }

  /** The environment after a sequence of steps with valid actions. */
  function Steps(env: Env, inputs: seq<StepInput>, parseNum: string -> Option<real>,
                 norm: Point -> real): Env
    requires ValidActions(inputs)
    decreases |inputs|
  {
    if |inputs| == 0 then env
    else
      var out := Step(env, inputs[0].action, inputs[0].reply, parseNum, norm);
      Steps(out.value.env, inputs[1..], parseNum, norm)
  }

  /** True when the `i`-th step of the inputs observed a collision. */
  predicate SawCollision(inputs: seq<StepInput>, i: int, parseNum: string -> Option<real>)
    requires 0 <= i < |inputs|
  {
    Collided(GetPositions(inputs[i].reply, parseNum))
  }

  /** `done` is a latch: after any sequence of steps it is set exactly when it
      was set before or some step observed a collision. */
  lemma {:induction false} DoneLatches(env: Env, inputs: seq<StepInput>,
                                       parseNum: string -> Option<real>, norm: Point -> real)
    requires ValidActions(inputs)
    ensures (Steps(env, inputs, parseNum, norm).done
             <==> (env.done || exists i :: 0 <= i < |inputs| && SawCollision(inputs, i, parseNum)))
    decreases |inputs|
  {
    if |inputs| > 0 {
      var out := Step(env, inputs[0].action, inputs[0].reply, parseNum, norm).value;
      var rest := inputs[1..];
      assert ValidActions(rest);
      DoneLatches(out.env, rest, parseNum, norm);
      assert out.env.done == (env.done || SawCollision(inputs, 0, parseNum));
      assert forall i :: 0 <= i < |rest| ==>
               (SawCollision(rest, i, parseNum) <==> SawCollision(inputs, i + 1, parseNum));
      if exists i :: 0 <= i < |inputs| && SawCollision(inputs, i, parseNum) {
        var i :| 0 <= i < |inputs| && SawCollision(inputs, i, parseNum);
        if i > 0 {
          assert SawCollision(rest, i - 1, parseNum);
        }
      }
    }
  }

  /** After a reset, an episode whose steps see no collision is not done. */
  lemma ResetStartsEpisode(env: Env, reply: Option<string>, inputs: seq<StepInput>,
                           parseNum: string -> Option<real>, norm: Point -> real)
    requires ValidActions(inputs)
    requires forall i :: 0 <= i < |inputs| ==> !SawCollision(inputs, i, parseNum)
    ensures !Steps(Reset(env, reply, parseNum).env, inputs, parseNum, norm).done
  {
    DoneLatches(Reset(env, reply, parseNum).env, inputs, parseNum, norm);
  }
}
