/** The durable high-water mark (pilotfish/agent/epoch.py). */
module Epoch {
  import opened Prelude

  /** The content of the mark file. */
  datatype Mark = Absent | Recorded(sequence: int) | Garbled

  datatype EpochError = EpochUnreadable | WriteFailed

  const NO_EPOCH := -1

  function ReadMark(mark: Mark): Result<int, EpochError> {
    match mark
    case Absent => Ok(NO_EPOCH)
    case Recorded(n) => Ok(n)
    case Garbled => Err(EpochUnreadable)
  }

  /** The mark after a commit whose writes succeed. */
  function Committed(mark: Mark, sequence: int): Mark {
    if ReadMark(mark).Ok? && sequence > ReadMark(mark).value then Recorded(sequence) else mark
  }

  /** The mark has not gone down: an unreadable one stays unreadable. */
  predicate MarkAtMost(a: Mark, b: Mark) {
    if ReadMark(a).Err? then b == a else ReadMark(b).Ok? && ReadMark(a).value <= ReadMark(b).value
  }

  class FileEpochStore {
    var mark: Mark

    constructor (mark: Mark)
      ensures this.mark == mark
    {
      this.mark := mark;
    }

    /** Replaces the mark by a higher one, or leaves it as it was; `writes` says whether the
        temporary file and its replacement of the mark succeed. */
    method Commit(sequence: int, writes: bool) returns (r: Result<(), EpochError>)
      modifies this
      ensures r == if ReadMark(old(mark)).Err? then Err(EpochUnreadable)
                   else if sequence > ReadMark(old(mark)).value && !writes then Err(WriteFailed)
                   else Ok(())
      ensures mark == if r.Ok? then Committed(old(mark), sequence) else old(mark)
    {
      var current := ReadMark(mark);
      if current.Err? {
        return Err(EpochUnreadable);
      }
      if sequence <= current.value {
        return Ok(());
      }
      if !writes {
        return Err(WriteFailed);
      }
      mark := Recorded(sequence);
      return Ok(());
    }
  }

  class MemoryEpochStore {
    var sequence: int

    constructor (sequence: int := NO_EPOCH)
      ensures this.sequence == sequence
    {
      this.sequence := sequence;
    }

    /** Keeps what the file store would keep without faults. */
    method Commit(sequence: int)
      modifies this
      ensures Recorded(this.sequence) == Committed(Recorded(old(this.sequence)), sequence)
    {
      this.sequence := if sequence > this.sequence then sequence else this.sequence;
    }
  }
}
