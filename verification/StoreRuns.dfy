/**
 The bulletin file over whole runs: client writes and replaces, the requests of any number of peer sessions and
 housekeeping, each atomic, in any order.
 */
module StoreRuns {
  import opened Common
  import opened LineCodec
  import opened Numbers
  import opened BulletinLines
  import opened NumberGenerator
  import opened PeerProtocol
  import opened PeerSession

  datatype Store = Store(lines: seq<string>, sessions: seq<Session>)

  datatype Op =
    | WriteNew(reserved: seq<int>, user: string, message: string) // WRITE with a generated number
    | ReplaceFound(id: string, user: string, message: string)     // REPLACE
    | Connect                                                     // a new peer session
    | Request(k: nat, m: Msg)                                     // a request in a session
    | Clean                                                       // housekeeping

  function NewId(ls: seq<string>, reserved: seq<int>): string {
    Print(IssuedFor(FileMax(ls), reserved))
  }

  function Replaced(ls: seq<string>, id: string, user: string, message: string): seq<string>
    requires Find(ls, id) < |ls|
  {
    Written(Deleted(ls, id), id, user, message)
  }

  /** What a request does to the lines of the file. */
  function RequestLines(ls: seq<string>, s: Session, m: Msg): seq<string> {
    match m
    case CommitWrite(id, message) => if Find(ls, id) < |ls| then ls else Written(ls, id, s.user, message)
    case CommitReplace(id, message) => if Find(ls, id) < |ls| then Replaced(ls, id, s.user, message) else ls
    case Abort => (
      match s.undo
      case NoUndo => ls
      case UndoWrite(id) => if Find(ls, id) < |ls| then Deleted(ls, id) else ls
      case UndoReplace(id, e) => if Find(ls, id) < |ls| then Replaced(ls, id, e.user, e.message) else ls)
    case _ => ls
  }

  predicate Allowed(st: Store, op: Op)
    requires GoodLines(st.lines)
  {
    match op
    case WriteNew(reserved, user, message) => GoodWrite(NewId(st.lines, reserved), user, message)
    case ReplaceFound(id, user, message) => GoodWrite(id, user, message)
    case Connect => true
    case Request(k, m) => k < |st.sessions| && st.sessions[k].open
                          && Acceptable(st.sessions[k], BoardOf(st.lines), true, m)
    case Clean => true
  }

  function Apply(st: Store, op: Op): Store
    requires GoodLines(st.lines) && Allowed(st, op)
  {
    match op
    case WriteNew(reserved, user, message) =>
      st.(lines := Written(st.lines, NewId(st.lines, reserved), user, message))
    case ReplaceFound(id, user, message) =>
      if Find(st.lines, id) < |st.lines| then st.(lines := Replaced(st.lines, id, user, message)) else st
    case Connect => st.(sessions := st.sessions + [FRESH])
    case Request(k, m) =>
      Store(RequestLines(st.lines, st.sessions[k], m),
            st.sessions[k := Step(st.sessions[k], BoardOf(st.lines), m, NoFault).session])
    case Clean => st.(lines := Housekept(st.lines))
  }

  /** A request does to the board what the protocol says, and the file stays sound. */
  lemma RequestBoard(ls: seq<string>, s: Session, m: Msg)
    requires Sound(ls) && s.open && Acceptable(s, BoardOf(ls), true, m)
    ensures Sound(RequestLines(ls, s, m))
    ensures BoardOf(RequestLines(ls, s, m)) == Step(s, BoardOf(ls), m, NoFault).board
  {
    match m
    case CommitWrite(id, message) =>
      FindBoard(ls, id);
      if id !in BoardOf(ls) { WrittenBoard(ls, id, s.user, message); }
    case CommitReplace(id, message) =>
      FindBoard(ls, id);
      if id in BoardOf(ls) { ReplacedBoard(ls, id, s.user, message); }
    case Abort =>
      match s.undo {
        case NoUndo =>
        case UndoWrite(id) => FindBoard(ls, id); ErasedBoard(ls, Find(ls, id));
        case UndoReplace(id, e) => FindBoard(ls, id); ReplacedBoard(ls, id, e.user, e.message);
      }
    case _ =>
  }

  /** The board after an operation. */
  function BoardAfter(st: Store, op: Op): Board
    requires GoodLines(st.lines) && Allowed(st, op)
  {
    var b := BoardOf(st.lines);
    match op
    case WriteNew(reserved, user, message) => b[NewId(st.lines, reserved) := Reading(user, message)]
    case ReplaceFound(id, user, message) => if id in b then b[id := Reading(user, message)] else b
    case Connect => b
    case Request(k, m) => Step(st.sessions[k], b, m, NoFault).board
    case Clean => b
  }

  /** Every operation keeps at most one live line for each number, and a generated number is never one in use. */
  lemma ApplySound(st: Store, op: Op)
    requires Sound(st.lines) && Allowed(st, op)
    ensures Sound(Apply(st, op).lines) && BoardOf(Apply(st, op).lines) == BoardAfter(st, op)
    ensures op.WriteNew? ==> NewId(st.lines, op.reserved) !in BoardOf(st.lines)
  {
    match op
    case WriteNew(reserved, user, message) =>
      IssuedIsFresh(st.lines, reserved);
      WrittenBoard(st.lines, NewId(st.lines, reserved), user, message);
    case ReplaceFound(id, user, message) =>
      FindBoard(st.lines, id);
      if id in BoardOf(st.lines) { ReplacedBoard(st.lines, id, user, message); }
    case Connect =>
    case Request(k, m) => RequestBoard(st.lines, st.sessions[k], m);
    case Clean => HousekeptBoard(st.lines);
  }

  predicate AllAllowed(st: Store, ops: seq<Op>)
    decreases |ops|
  {
    |ops| == 0 || (GoodLines(st.lines) && Allowed(st, ops[0]) && AllAllowed(Apply(st, ops[0]), ops[1..]))
  }

  function ApplyAll(st: Store, ops: seq<Op>): Store
    requires AllAllowed(st, ops)
    decreases |ops|
  {
    if |ops| == 0 then st else ApplyAll(Apply(st, ops[0]), ops[1..])
  }

  /** From a file with unique numbers no run of operations ever makes two live lines with one number. */
  lemma {:induction false} RunsKeepNumbersUnique(st: Store, ops: seq<Op>)
    requires Sound(st.lines) && AllAllowed(st, ops)
    ensures Sound(ApplyAll(st, ops).lines)
    decreases |ops|
  {
    if |ops| > 0 {
      ApplySound(st, ops[0]);
      RunsKeepNumbersUnique(Apply(st, ops[0]), ops[1..]);
    }
  }
}
