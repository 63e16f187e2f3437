# Agent socket bridge and training-client environment, modelled in Dafny

The repository trains a reinforcement-learning agent that moves inside a Unity
scene. Two small sequential pieces sit under its threads, sockets, game engine
and ML library, and this project models both:

- **The engine-side command bridge** (`AgentSocketController`). A handler
  thread reads one request per TCP connection. The exact text
  `get_positions` puts the connection on a position-request queue. Any other
  text goes on a command queue. Once per frame, `Update` takes the oldest
  command, if there is one, and applies it (`forward`, `left`, `right`,
  `back`, `reset`; other text does nothing). It then takes the oldest position
  request, if there is one, writes the snapshot line
  `ax,ay,az,tx,ty,tz,hitWall,hitTarget` and closes that connection.
  Collision callbacks send the agent back to the origin and raise or clear the
  `hitWall`/`hitTarget` flags.
- **The training client's environment** (`UnityEnv` in `train_agent.py`).
  A step sends `left` or `right` and asks for the positions. It parses the
  eight-field reply, falling back to zeros and `False` flags on any failure.
  The reward is −5 for a wall, +50 for the target, and otherwise half the
  drop in distance. `done` latches until `reset`.

The modules:

| file | module | models |
|---|---|---|
| `maybe.dfy` | `Maybe` | optional values |
| `text.dfy` | `Text` | bytes; Python whitespace, `strip`, `lower`, `split`; decimal text of integers |
| `controller.dfy` | `Controller` | the handler, dispatch, collisions, snapshot and frame tick |
| `controller_trace.dfy` | `ControllerTrace` | runs over any interleaving of connections, frames and collisions |
| `unity_env.dfy` | `UnityEnv` | action table, reply parser, step, reset, episodes |
| `wire.dfy` | `Wire` | how the two programs fit together |

Both concurrent queues are sequences whose head is the oldest entry. A
connection is an opaque `Client`. Each handler thread's read-and-enqueue is
one `Connect` event, and events may come in any order. Positions on the engine
side are integer triples. The frame's `speed * Time.deltaTime` movement is a
`Motion` input: this frame's change in `localPosition` for a move. The value `Random.Range(-13, 13)` draws is an input `rx`,
required to lie in [-13, 12]: Unity's integer overload excludes the upper
bound. On the client side, Python's `float()` is a parameter `parseNum`, and
the distance norm is a parameter `norm`. A step and a reset return the
payloads the client tries to send, in order.

## Model

| member | source | states |
|---|---|---|
| `Controller.DecodeAscii` | Assets/Scripts/AgentSocketController.cs:72 | ASCII decoding keeps the length, yields only ASCII, and maps every byte above 127 to '?' |
| `Controller.ReadChunk` | Assets/Scripts/AgentSocketController.cs:70-71 | one read copies at most 1024 bytes, a prefix of what arrived, and all of it when it fits |
| `Controller.Payload` | Assets/Scripts/AgentSocketController.cs:69-72 | the decoded request is ASCII text of at most 1024 characters, one per byte received when the request fits the buffer |
| `Controller.HandleClient` | Assets/Scripts/AgentSocketController.cs:65-91 | exactly `get_positions` appends the client to the query queue; any other decoded text, the empty one included, is appended unchanged to the command queue with the connection left open; a failed read closes the connection and changes no queue; the simulation state is never touched |
| `Controller.ProcessCommand` | Assets/Scripts/AgentSocketController.cs:108-135 | the four moves shift only the agent, by the frame's displacement; `reset` puts the agent at the origin and the target at (rx, 0, 0) with rx in [-13, 12], and clears both flags; any other text leaves the state unchanged |
| `Controller.BoolText` | Assets/Scripts/AgentSocketController.cs:144 | C#'s `bool.ToString()` spells true as `True` and false as `False`, both comma-free ASCII |
| `Controller.SnapshotFields` | Assets/Scripts/AgentSocketController.cs:142-144 | a snapshot has eight fields and none of them contains a comma |
| `Controller.Snapshot` | Assets/Scripts/AgentSocketController.cs:142-146 | the reply line is ASCII, so `Encoding.ASCII.GetBytes` sends it unchanged, and it holds exactly seven commas |
| `Controller.SnapshotSplits` | Assets/Scripts/AgentSocketController.cs:142-144 | the snapshot line splits on ',' back into exactly its eight fields, with the wall and target flags as `True`/`False` in fields 7 and 8 |
| `Controller.SendPositions` | Assets/Scripts/AgentSocketController.cs:137-158 | serving a request closes exactly that client, and only that one, whether or not the write succeeds; the snapshot is delivered only when the write succeeds |
| `Controller.Update` | Assets/Scripts/AgentSocketController.cs:93-105 | a frame removes at most one command and at most one query, always the head of each queue, leaving the rest in order; the command is applied before the query is answered, so the reply shows the state after that command; the served client is the one closed |
| `Controller.OnCollisionEnter` | Assets/Scripts/AgentSocketController.cs:161-178 | `Wall` sends the agent to the origin and raises `hitWall`, leaving the target and `hitTarget` alone; `Target` sends the agent to the origin, re-draws the target and raises `hitTarget`, leaving `hitWall` alone; other tags change nothing |
| `Controller.OnCollisionExit` | Assets/Scripts/AgentSocketController.cs:181-191 | separation clears only the flag named by the tag and moves nothing |
| `Controller.OppositeMovesCancel` | Assets/Scripts/AgentSocketController.cs:112-126 | in the integer model, left then right, or forward then back, with the same displacement restores the state, in either order (the engine applies one command per frame and sums floats, so there the two frames' movements need not cancel exactly) |
| `Controller.ResetIdempotent` | Assets/Scripts/AgentSocketController.cs:127-132 | a second reset with the same draw changes nothing further |
| `Controller.TargetStaysPlaced` | Assets/Scripts/AgentSocketController.cs:127-191 | once the target is on the x axis at a drawn position, every command and collision callback keeps it there |
| `Controller.WallContactThenSeparation` | Assets/Scripts/AgentSocketController.cs:161-191 | a snapshot between touching and leaving a wall reports `True` for the wall; one after reports `False`; the agent is at the origin and the rest is unchanged |
| `ControllerTrace.RunKeepsAccounts` | Assets/Scripts/AgentSocketController.cs:65-158 | over any run, every received connection is in exactly one place: closed, still queued for a reply, or left open after a command; applied commands followed by queued commands are exactly the enqueued commands, and likewise for queries; every served client was closed |
| `ControllerTrace.RunExtendsLog` | Assets/Scripts/AgentSocketController.cs:75-82 | over any run, the log's received clients, enqueued commands and queued queries grow by what the events submit, in event order, and its frame count by the frames run |
| `ControllerTrace.CommandsAppliedInOrder` | Assets/Scripts/AgentSocketController.cs:93-98 | after any run from empty queues, the applied commands are a prefix of the submitted commands, in submission order, the rest are still queued, and no more were applied than frames ran |
| `ControllerTrace.QueriesServedInOrder` | Assets/Scripts/AgentSocketController.cs:100-104 | after any run from empty queues, position requests are answered in the order they were queued, at most one per frame |
| `ControllerTrace.ClosedAtMostOnce` | Assets/Scripts/AgentSocketController.cs:153-156 | if every connection is a distinct client, no connection is closed twice, and every served client is closed exactly once |
| `ControllerTrace.PendingQueriesAnswered` | Assets/Scripts/AgentSocketController.cs:100-104 | with at least as many frames as queued requests, frames alone empty the request queue, serving and closing every queued client in queue order; at most one reply is written per client, and exactly one when every write succeeds |
| `ControllerTrace.AllQueriesAnswered` | Assets/Scripts/AgentSocketController.cs:100-156 | after any run, as many further frames as there were requests answer all of them, in the order they were asked; when connections are distinct clients, every client that asked is closed exactly once |
| `ControllerTrace.ServedSeesCommandOfSameFrame` | Assets/Scripts/AgentSocketController.cs:95-104 | when both queues are non-empty, the reply written in that frame is the snapshot of the state after that frame's command |
| `ControllerTrace.QueryWithoutCommandsSeesCurrentState` | Assets/Scripts/AgentSocketController.cs:101-104 | with no command pending, a query is answered with the current state, and the state does not change |
| `Text.Split` | train_agent.py:80 | `str.split(',')` always yields at least one field, no field contains the separator, and joining the fields with the separator gives back the input |
| `Text.SplitJoin` | train_agent.py:80 | splitting text joined from comma-free fields gives back exactly those fields |
| `Text.SplitSeparatorCount` | train_agent.py:80 | `split(',')` gives one field more than the text has commas |
| `Text.Strip` | train_agent.py:86-87 | `str.strip()` gives a text with no whitespace at either end, never longer than the input |
| `Text.StripIsPaddedSlice` | train_agent.py:86-87 | what strip keeps is a contiguous slice of the input, with only whitespace before and after it |
| `Text.StripPadded` | train_agent.py:86-87 | strip removes exactly the whitespace padding around a text that has none at its ends |
| `Text.Lower` | train_agent.py:86-87 | lower-casing keeps the length and lower-cases each ASCII capital in place |
| `Text.NumText` | Assets/Scripts/AgentSocketController.cs:142-143 | the text of a coordinate is non-empty, ASCII and comma-free |
| `Text.NumTextRoundTrip` | Assets/Scripts/AgentSocketController.cs:142-143 | reading back the decimal text of any integer gives that integer |
| `UnityEnv.Encode` | train_agent.py:13 | encoding an ASCII payload gives one byte per character, with the same code |
| `UnityEnv.Initial` | train_agent.py:29-32 | the constructor sets a placeholder state of seven 0.0 entries, `done` false, and previous distance 0 |
| `UnityEnv.ActionCommand` | train_agent.py:35-36 | action 0 is `left` and 1 is `right`; Python's negative indexes -1 and -2 give `right` and `left`; any other index fails |
| `UnityEnv.ParseFlag` | train_agent.py:86-87 | a flag field reads true exactly when, stripped of Python whitespace, it is the four letters of `true` in any mix of case |
| `UnityEnv.ParseReply` | train_agent.py:80-87 | a reply parses only when it holds exactly seven commas |
| `UnityEnv.ParseFields` | train_agent.py:80-87 | a parse succeeds exactly when there are 8 fields and the first six are numbers; it then yields those numbers and the two flags |
| `UnityEnv.GetPositions` | train_agent.py:66-92 | a failed exchange, a field count other than 8, or any failed number gives zero vectors and two false flags; otherwise the parsed observation |
| `UnityEnv.StateVector` | train_agent.py:62 | the state vector has 8 entries: agent position, target position, then the wall and target flags as 1.0/0.0 |
| `UnityEnv.Step` | train_agent.py:34-63 | an invalid action fails before anything is sent; otherwise the step tries to send the action, then `get_positions`. A wall hit gives -5, sends `reset` and sets `done`, even when the target flag is also set. A target hit alone gives +50, sends `reset` and sets `done`. Both collision cases keep the previous distance. With no collision the reward is 0.5·(previous − current distance), the current distance is remembered, and `done` is unchanged. `done` is never cleared |
| `UnityEnv.Reset` | train_agent.py:95-101 | reset tries to send `reset` then `get_positions`, stores the parsed state, clears `done`, and keeps the previous distance |
| `UnityEnv.DoneLatches` | train_agent.py:46-59 | after any sequence of steps, `done` is set exactly when it was set before or some step saw a collision |
| `UnityEnv.ResetStartsEpisode` | train_agent.py:95-101 | after a reset, an episode whose steps see no collision is never done |
| `Wire.PayloadRoundTrip` | Assets/Scripts/AgentSocketController.cs:69-72 | the engine decodes exactly the text the client encoded, for ASCII payloads of at most 1024 bytes |
| `Wire.PayloadClassified` | Assets/Scripts/AgentSocketController.cs:75-82 | a client payload becomes a position request exactly when it is `get_positions`, and otherwise a command with the same text |
| `Wire.SameQueryToken` | train_agent.py:70 | the client's request text is the engine's reserved query text |
| `Wire.StepSendsVocabulary` | train_agent.py:35-55 | every payload a step tries to send is `left`, `right`, `reset` or `get_positions` |
| `Wire.VocabularyUnderstood` | Assets/Scripts/AgentSocketController.cs:75-134 | each client payload fits the read buffer; the engine takes `get_positions` as a position request and the others as a move or `reset` command with the same text |
| `Wire.FlagRoundTrip` | train_agent.py:86-87 | the engine's `True`/`False` is read back as the same boolean |
| `Wire.PaddedFlagRoundTrip` | train_agent.py:86-87 | whitespace around a flag field does not change how it is read |
| `Wire.FieldsObserved` | train_agent.py:84-87 | for coordinates that print plainly, the client's field parser reads the engine's eight snapshot fields back as the state they describe |
| `Wire.SnapshotObserved` | train_agent.py:80-89 | if `float()` reads integer text below ten million in magnitude back as the same value, the client reads back the snapshot of any state whose coordinates are in that range as exactly that state |
| `Wire.DecimalReadsNumbers` | train_agent.py:84-85 | a plain decimal reader meets that assumption about `float()`, so the assumption can hold; Python's `float()` also meets it, since every integer below ten million is exact in a double |
| `Wire.WallSnapshotPenalised` | train_agent.py:46-50 | for coordinates that print plainly, a snapshot with the wall flag set costs the step -5, ends the episode and sends `reset`, whatever the target flag says; the engine's reset then clears both flags |
| `Wire.ResetFrame` | Assets/Scripts/AgentSocketController.cs:93-133 | with both queues empty, a `reset` connection and one frame reset the state and empty the queues again, and answer and close nothing |
| `Wire.QueryFrame` | Assets/Scripts/AgentSocketController.cs:93-158 | with both queues empty, a `get_positions` connection and one frame answer and close only that client, with the current state, which stays unchanged |
| `Wire.ResetThenQuery` | Assets/Scripts/AgentSocketController.cs:93-133 | sending `reset`, one frame, `get_positions` and another frame, from any state, gives one reply, to the querying client, and closes that client; the reply is the snapshot with fields `0,0,0,<x>,0,0,False,False` for the drawn x |

## Left out

- The TCP listener, accept loop and thread per connection (`StartServer`) are not modelled. `OnApplicationQuit` shutdown and `Start` are also out. These are concurrency and I/O. A handler's read-and-enqueue is one atomic `Connect` event, and events may be interleaved in any order.
- `ConcurrentQueue` internals are out. The queues are sequences with the head as the oldest entry.
- `transform.Translate` is not modelled: float arithmetic, `speed`, `Time.deltaTime` and the local-space rotation. `Motion` gives this frame's change in `localPosition` for `Vector3.forward` and `Vector3.right`, and `back`/`left` are their opposites.
- Unity's `Random.Range` is not modelled. The drawn integer is a parameter, required to lie in [-13, 12].
- C# float-to-string formatting and locale are out. Coordinates are integers. Their text is plain decimal, which is what the engine prints, in the invariant culture, for integral values below ten million in magnitude (`Controller.PlainCoordinate`). From ten million up, C#'s seven-significant-digit format prints exponent form (`1E+07`), which is not modelled. A locale with a decimal comma would break the eight-field split, and that is not modelled either.
- Text.NumText: gives the engine's text only for integral coordinates whose magnitude is below ten million. It renders neither fractional values nor the exponent form of larger ones as the engine would. The round-trip lemmas in `Wire` therefore require `Controller.PrintsPlainly`.
- Python's `float()` and `np.linalg.norm` are parameters (`parseNum`, `norm`) and are not modelled. `Wire.SnapshotObserved` assumes that `float()` reads back, as the same value, the text of integers below ten million in magnitude. A double holds these exactly.
- `recv(1024)` truncation and UTF-8 decode errors on the client are out. What `get_positions` received is an input, and `None` stands for any exception in the exchange.
- UnityEnv.Encode: covers only ASCII payloads, where UTF-8 is one byte per character. Every payload the client sends is an ASCII literal.
- Text.Lower: lower-cases ASCII letters only. This gives the same answer for the comparison with `"true"`, because no non-ASCII character lower-cases to one of its letters.
- `send_command` catches every connect and send failure and prints it (train_agent.py:10-16), and `get_positions` can fail before its own send (train_agent.py:68-70). These lost sends are not modelled. The `sent` lists of `UnityEnv.Step` and `UnityEnv.Reset` give the payloads the client tries to send, and a payload that never arrives reaches the engine only as an absent `Connect` event.
- Motion that the physics engine gives the agent is not modelled: gravity, and contact resolution that pushes the agent back out of a wall it was translated into. The agent's dynamic Rigidbody is what lets Unity deliver the collision callbacks, but the model moves the agent only through commands and collision callbacks, and there is no event for physics motion. The unchanged-state claims of `ControllerTrace.QueryWithoutCommandsSeesCurrentState`, `Wire.QueryFrame` and `Wire.ResetThenQuery` hold only under that assumption.
- Client-side numbers are exact reals, not doubles: positions, the difference passed to `norm`, and the reward arithmetic. The rounding of the progress reward `0.5 * (prev_distance - distance)` (train_agent.py:58) is not modelled. The wall and target rewards -5.0 and 50.0 are exact in a double.
- `time.sleep`, gym spaces, `seed`, and PPO load/learn/save are out: library wrappers and timing. So are `print`, `Debug.Log`, materials, the renderer and the unused `rb` field (AgentSocketController.cs:31).
- Observed behaviour, kept as written: the handler never closes a connection that carried a command (Assets/Scripts/AgentSocketController.cs:77-82). `HandleClient` reports these as `Enqueued` and the trace log lists them as left open.
- Observed behaviour, kept as written: the target range is [-13, 12], because Unity's integer `Random.Range` excludes its upper bound.
- Observed behaviour, kept as written: `reset` does not reset the previous distance, so the first step after a reset measures progress from the last distance of the previous episode.
- Observed behaviour, kept as written: the constructor's placeholder state has 7 entries, while every state that `step` and `reset` produce has 8.
- Observed behaviour, kept as written: a position request that reaches the handler split across TCP segments (e.g. `get_` alone) is queued as a command. Its connection is then never answered or closed. The model shows this because a read returns only the bytes that had arrived.
