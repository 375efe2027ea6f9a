/** Types shared by the transcription view model and the realtime client. */
module Common {

  /** A C# reference that may be `null`: `None` stands for `null`. */
  datatype Option<+T> = None | Some(value: T)

  /** C#'s `int`: a signed 32-bit integer. */
  type Int32 = x: int | -0x8000_0000 <= x < 0x8000_0000
}
