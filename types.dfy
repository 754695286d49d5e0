/** Values shared by every component of the wink-code command centre: the
    per-frame observations, the configuration record and the result states. */
module Types {

  datatype Option<+T> = None | Some(value: T)

  /** Vertical image coordinates (y grows downwards) of the six hand landmarks
      the activation test looks at: thumb joint (3) and tip (4), index finger
      middle joint (6) and tip (8), middle finger middle joint (10) and tip (12). */
  datatype HandPose = HandPose(
    thumbIp: real, thumbTip: real,
    indexPip: real, indexTip: real,
    middlePip: real, middleTip: real)

  /** Eye closure as the face-mesh classifier reports it for one frame. */
  datatype EyeState = EyeState(leftClosed: bool, rightClosed: bool)

  /** One camera frame after landmark detection: each detector may find nothing. */
  datatype Frame = Frame(hand: Option<HandPose>, face: Option<EyeState>)

  /** One row of the command table. `code` is compared with the entered
      sequence by plain list equality, so a code of the wrong length (or holding
      values other than 0 and 1) simply never matches. */
  datatype Command = Command(name: string, code: seq<int>, actionId: string)

  /** The configuration record; delays are in milliseconds. */
  datatype Config = Config(
    maxDigit: nat,
    inputDelay: int,
    resetDelay: int,
    commands: seq<Command>)

  /** The four states of the session. */
  datatype Phase = Standby | Input | Success | Fail

  /** The built-in configuration used when no configuration file can be read:
      six digits, one second between symbols, three seconds on the result
      screen, and the single command DEFAULT LOGIN = 010101. */
  const DefaultConfig: Config :=
    Config(6, 1000, 3000, [Command("DEFAULT LOGIN", [0, 1, 0, 1, 0, 1], "login")])

  /** The action identifier that stops the frame loop. */
  const TerminateAction: string := "terminate_app"

  /** The action identifier that opens a video in the browser. */
  const PlayAction: string := "play_youtube"
}
