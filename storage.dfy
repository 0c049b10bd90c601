/**
 * Writing a whole file with `open(path, 'wb')` followed by `write(data)`:
 * opening truncates, so a write that fails part-way leaves only a prefix of
 * the new contents, and there is no temporary file to fall back on.
 */
module Storage {
  import opened Wrappers
  import opened PasswordUtils

  /** How a write went: completely, not at all (open failed), or cut off after `kept` bytes. */
  datatype WriteOutcome = Written | OpenFailed | WriteFailed(kept: nat)

  /** The file (None: absent) after writing `data` with the given outcome. */
  function AfterWrite(file: Option<Bytes>, data: Bytes, outcome: WriteOutcome): (r: Option<Bytes>)
    ensures outcome.Written? ==> r == Some(data)
    ensures outcome.OpenFailed? ==> r == file
    ensures outcome.WriteFailed? ==> r.Some? && |r.value| <= |data| && r.value == data[..|r.value|]
  {
    match outcome
    case Written => Some(data)
    case OpenFailed => file
    case WriteFailed(kept) => Some(data[..if kept < |data| then kept else |data|])
  }
}
