/**
 * acquireClaim on a lock file, one file operation at a time: exclusive create, a look at the age of a
 * lock that is there, and the taking of a stale one, which is renamed away, looked at again, and put
 * back if it is not stale after all.
 */
module ClaimFile {
  import opened Wrappers

  /** Each acquisition writes a token of its own. */
  datatype File = File(token: nat, mtime: int)

  datatype Lock = Lock(file: Option<File>, next: nat)

  /** The operation to come. */
  datatype Taking =
    | Creating
    | ReadingAge
    /** The lock was gone when its age was read. */
    | CreatingAgain
    | Parking
    | ReadingParkedAge(file: File)
    | CreatingAfterPark
    | PuttingBack(file: File)

  datatype Taken = Next(op: Taking) | Got(token: nat) | Refused

  predicate HasToken(l: Lock, token: nat) {
    l.file.Some? && l.file.value.token == token
  }

  /** The file whose age the operation reads. */
  function AgeOf(l: Lock, op: Taking): Option<File> {
    match op
    case ReadingAge => l.file
    case ReadingParkedAge(file) => Some(file)
    case _ => None
  }

  predicate Creates(op: Taking) {
    op.Creating? || op.CreatingAgain? || op.CreatingAfterPark?
  }

  function LockAfterTaking(l: Lock, op: Taking, now: int): Lock {
    if Creates(op) then (if l.file.Some? then l else Lock(Some(File(l.next, now)), l.next + 1))
    else if op.Parking? then l.(file := None)
    // rename would replace a lock created since; link does not
    else if op.PuttingBack? && l.file.None? then l.(file := Some(op.file))
    else l
  }

  /** What an operation that works leads to; `stale` is the verdict on the age it reads. */
  function Take(l: Lock, op: Taking, stale: bool): Taken {
    match op
    case Creating => if l.file.Some? then Next(ReadingAge) else Got(l.next)
    case ReadingAge => if l.file.None? then Next(CreatingAgain) else if stale then Next(Parking) else Refused
    case CreatingAgain => if l.file.Some? then Refused else Got(l.next)
    case Parking => if l.file.None? then Refused else Next(ReadingParkedAge(l.file.value))
    case ReadingParkedAge(file) => Next(if stale then CreatingAfterPark else PuttingBack(file))
    case CreatingAfterPark => if l.file.Some? then Refused else Got(l.next)
    case PuttingBack(_) => Refused
  }

  /** The file an acquisition has renamed away and may put back. */
  function Aside(op: Taking): Option<File> {
    match op
    case ReadingParkedAge(file) => Some(file)
    case PuttingBack(file) => Some(file)
    case _ => None
  }

  /** How far the acquisition still has to go. */
  function Rank(op: Taking): nat {
    match op
    case Creating => 5
    case ReadingAge => 4
    case CreatingAgain => 0
    case Parking => 3
    case ReadingParkedAge(_) => 2
    case CreatingAfterPark => 0
    case PuttingBack(_) => 0
  }

  /** The rest of an acquisition that no other process disturbs, its ages judged alike: the lock and what it got. */
  function Finished(l: Lock, op: Taking, stale: bool, now: int): (Lock, Taken)
    decreases Rank(op)
  {
    var taken := Take(l, op, stale && AgeOf(l, op).Some?);
    if taken.Next? then Finished(LockAfterTaking(l, op, now), taken.op, stale, now)
    else (LockAfterTaking(l, op, now), taken)
  }

  /**
   * Undisturbed, an acquisition takes a free lock or a stale one with a token of its own, and leaves a
   * fresh one with its holder: at the first look, or, once renamed away, by putting that file back.
   */
  lemma FinishedMeans(l: Lock, op: Taking, stale: bool, now: int)
    ensures var (l', taken) := Finished(l, op, stale, now);
            var mine := Lock(Some(File(l.next, now)), l.next + 1);
            match op
            case Creating =>
              if l.file.None? || stale then taken == Got(l.next) && l' == mine else taken.Refused? && l' == l
            case ReadingAge =>
              if l.file.None? || stale then taken == Got(l.next) && l' == mine else taken.Refused? && l' == l
            case Parking =>
              if l.file.Some? && stale then taken == Got(l.next) && l' == mine else taken.Refused? && l' == l
            case ReadingParkedAge(file) =>
              if l.file.None? && stale then taken == Got(l.next) && l' == mine
              else taken.Refused? && l' == if l.file.None? then l.(file := Some(file)) else l
            case PuttingBack(file) => taken.Refused? && l' == if l.file.None? then l.(file := Some(file)) else l
            case _ => if l.file.None? then taken == Got(l.next) && l' == mine else taken.Refused? && l' == l
  {
  }
}
