/** Values that several parts of the coordinator share. */
module Domain {

  datatype Option<+T> = None | Some(value: T)

  type byte = x: int | 0 <= x < 256

  /** Token counts of one response (storage.TokenUsage). */
  datatype TokenUsage = TokenUsage(
    input: int,
    cachedInput: int,
    cacheWriteInput: int,
    output: int,
    reasoningOutput: int,
    total: int)

  const NO_TOKENS := TokenUsage(0, 0, 0, 0, 0, 0)

  /** The status column of a request row; `Unknown` is any text outside the vocabulary. */
  datatype RequestStatus =
    | InProgress
    | Completed
    | UpstreamError
    | Disconnected
    | Unknown(text: string)
}
