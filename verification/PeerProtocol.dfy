/**
 One session of a peer with a master server: the messages, what each does to the session and to the board of
 the peer, and what an abort takes back.
 */
module PeerProtocol {
  import opened Common
  import opened Tokenize
  import opened LineCodec
  import opened BulletinLines

  datatype Msg =
    | Precommit(user: string)
    | CommitWrite(id: string, message: string)
    | CommitReplace(id: string, message: string)
    | Abort
    | Quit
    | Bad // any other request

  datatype Reply = Positive | Negative | NegativeExists

  /** The undo record: the last successful commit of the session. */
  datatype Undo = NoUndo | UndoWrite(id: string) | UndoReplace(id: string, entry: Entry)

  /** `kept` are the texts of the undo record, which a replace of a line without an entry leaves as they are; `open`
      says that the session still reads requests. */
  datatype Session = Session(user: string, undo: Undo, kept: Entry, open: bool)

  /** What can go wrong with the file while a request is handled: it cannot be opened at all, or the operation that
      changes it fails and leaves it as it is. */
  datatype Fault = NoFault | NoFile | StoreFails

  datatype Result = Result(session: Session, board: Board, reply: Option<Reply>)

  const NO_TEXTS := Entry("", "")

  const FRESH := Session("nobody", NoUndo, NO_TEXTS, true)

  /** The board once a line is written under a number. */
  function Put(b: Board, id: string, user: string, message: string): Board {
    b[id := Reading(user, message)]
  }

  /** The texts that are kept of what a replace overwrites. */
  function Keep(o: Option<Entry>, kept: Entry): Entry {
    if o.Some? then o.value else kept
  }

  function Undone(undo: Undo, b: Board): Board {
    match undo
    case NoUndo => b
    case UndoWrite(id) => b - {id}
    case UndoReplace(id, e) => Put(b, id, e.user, e.message)
  }

  /** Without a file these requests read on for ever. */
  predicate Hangs(s: Session, m: Msg, fault: Fault) {
    fault.NoFile? && (m.CommitReplace? || (m.Abort? && !s.undo.NoUndo?))
  }

  /** One request.  The results of a replace and of the operations of an abort are not looked at. */
  function Step(s: Session, b: Board, m: Msg, fault: Fault): Result
    requires s.open && !Hangs(s, m, fault)
  {
    match m
    case Precommit(user) => Result(s.(user := user), b, Some(Positive))
    case CommitWrite(id, message) =>
      if fault.NoFile? || id in b then Result(s.(open := false), b, Some(NegativeExists))
      else if fault.StoreFails? then Result(s, b, Some(Negative))
      else Result(s.(undo := UndoWrite(id)), Put(b, id, s.user, message), Some(Positive))
    case CommitReplace(id, message) =>
      if id !in b then Result(s.(open := false), b, Some(Negative))
      else Result(s.(undo := UndoReplace(id, Keep(b[id], s.kept)), kept := Keep(b[id], s.kept)),
                  if fault.StoreFails? then b else Put(b, id, s.user, message), Some(Positive))
    case Abort => Result(s.(open := false), if fault.StoreFails? then b else Undone(s.undo, b), None)
    case Quit => Result(s.(open := false), b, None)
    case Bad => Result(s.(open := false), b, Some(Negative))
  }

  predicate IsCommit(m: Msg) {
    m.CommitWrite? || m.CommitReplace?
  }

  predicate Committed(m: Msg, r: Result) {
    IsCommit(m) && r.reply == Some(Positive)
  }

  /** The answer that keeps the master from sending an abort is also given by a peer without its file. */
  lemma ExistsReply(s: Session, b: Board, m: Msg, fault: Fault)
    requires s.open && !Hangs(s, m, fault)
    ensures Step(s, b, m, fault).reply == Some(NegativeExists) <==> m.CommitWrite? && (fault.NoFile? || m.id in b)
    ensures Step(s, b, m, fault).reply == Some(NegativeExists) ==> Step(s, b, m, fault).board == b
    ensures Step(FRESH, map[], CommitWrite("1", "hi"), NoFile).reply == Some(NegativeExists)
  {
  }

  /** A session goes on after a precommit, after a commit that was carried out, and after a write that the file did not
      take; every other request ends it. */
  lemma SessionGoesOn(s: Session, b: Board, m: Msg, fault: Fault)
    requires s.open && !Hangs(s, m, fault)
    ensures Step(s, b, m, fault).session.open
       <==> m.Precommit? || Committed(m, Step(s, b, m, fault))
            || (m.CommitWrite? && fault.StoreFails? && m.id !in b)
  {
  }

  // ---- whole sessions

  /** The state after a list of requests; requests behind the end of the session, or behind one that hangs, are not
      handled. */
  function Run(s: Session, b: Board, ms: seq<(Msg, Fault)>): (Session, Board)
    decreases |ms|
  {
    if |ms| == 0 || !s.open || Hangs(s, ms[0].0, ms[0].1) then (s, b)
    else
      var r := Step(s, b, ms[0].0, ms[0].1);
      Run(r.session, r.board, ms[1..])
  }

  /** The board just before the last successful commit of the run, or `base` if there is none. */
  function BeforeLastCommit(s: Session, b: Board, ms: seq<(Msg, Fault)>, base: Board): Board
    decreases |ms|
  {
    if |ms| == 0 || !s.open || Hangs(s, ms[0].0, ms[0].1) then base
    else
      var r := Step(s, b, ms[0].0, ms[0].1);
      BeforeLastCommit(r.session, r.board, ms[1..], if Committed(ms[0].0, r) then b else base)
  }

  /** The undo record leads from `b` back to `base`: the boards differ at its number only, and the record holds the
      entry that `base` has there, if it has one. */
  predicate LeadsBack(undo: Undo, b: Board, base: Board) {
    match undo
    case NoUndo => b == base
    case UndoWrite(id) => id !in base && b - {id} == base
    case UndoReplace(id, e) => id in base && (base[id].Some? ==> base[id].value == e) && b - {id} == base - {id}
  }

  /** An abort with this record restores what `base` has: a text that does not end in a slash, or nothing. */
  predicate TakesBack(undo: Undo, base: Board) {
    undo.UndoReplace? && undo.id in base ==>
      if base[undo.id].Some? then Whole(undo.entry) else !Storable(undo.entry.user, undo.entry.message)
  }

  lemma RemoveTwice(b: Board, id: string)
    ensures b - {id} - {id} == b - {id}
  {
  }

  lemma PutElsewhere(b: Board, id: string, user: string, message: string)
    ensures Put(b, id, user, message) - {id} == b - {id}
  {
    assert b[id := Reading(user, message)] - {id} == b - {id};
  }

  lemma PutReadable(b: Board, id: string, user: string, message: string)
    requires ReadableBoard(b)
    ensures ReadableBoard(Put(b, id, user, message))
  {
    if Storable(user, message) { StoredReadable(user, message); }
  }

  /** Carrying out the record restores the board exactly if it takes back. */
  lemma UndoneIs(undo: Undo, b: Board, base: Board)
    requires LeadsBack(undo, b, base) && ReadableBoard(base)
    ensures Undone(undo, b) == base <==> TakesBack(undo, base)
  {
    if undo.UndoReplace? {
      PutBack(undo.id, undo.entry, b, base);
    }
  }

  lemma PutBack(id: string, e: Entry, b: Board, base: Board)
    requires id in base && (base[id].Some? ==> base[id].value == e && Readable(e)) && b - {id} == base - {id}
    ensures Put(b, id, e.user, e.message) == base
       <==> if base[id].Some? then Whole(e) else !Storable(e.user, e.message)
  {
    if base[id].Some? { RestorableIfWhole(e); }
    var p := Put(b, id, e.user, e.message);
    PutElsewhere(b, id, e.user, e.message);
    assert p[id] == Reading(e.user, e.message);
    if p[id] == base[id] { SameIfSameElsewhere(p, base, id); }
  }

  lemma SameIfSameElsewhere(b: Board, c: Board, id: string)
    requires id in b && id in c && b[id] == c[id] && b - {id} == c - {id}
    ensures b == c
  {
    assert b == (b - {id})[id := b[id]];
    assert c == (c - {id})[id := c[id]];
  }

  lemma CommitLeadsBack(s: Session, b: Board, m: Msg, fault: Fault)
    requires s.open && !Hangs(s, m, fault) && Committed(m, Step(s, b, m, fault))
    ensures var r := Step(s, b, m, fault); LeadsBack(r.session.undo, r.board, b)
  {
    PutElsewhere(b, m.id, s.user, m.message);
    if m.CommitWrite? {
      assert b - {m.id} == b;
    }
  }

  lemma RefusedKeeps(s: Session, b: Board, m: Msg, fault: Fault)
    requires s.open && !Hangs(s, m, fault) && !m.Abort? && !Committed(m, Step(s, b, m, fault))
    ensures Step(s, b, m, fault).session.undo == s.undo && Step(s, b, m, fault).board == b
  {
  }

  lemma StepReadable(s: Session, b: Board, m: Msg, fault: Fault)
    requires s.open && !Hangs(s, m, fault) && !m.Abort? && ReadableBoard(b)
    ensures ReadableBoard(Step(s, b, m, fault).board)
  {
    if IsCommit(m) { PutReadable(b, m.id, s.user, m.message); }
  }

  /** The undo record always leads back to just before the last successful commit. */
  lemma {:induction false} RunLeadsBack(s: Session, b: Board, ms: seq<(Msg, Fault)>, base: Board)
    requires ReadableBoard(b) && ReadableBoard(base) && LeadsBack(s.undo, b, base)
    ensures var (s', b') := Run(s, b, ms);
            s'.open ==> LeadsBack(s'.undo, b', BeforeLastCommit(s, b, ms, base))
                        && ReadableBoard(BeforeLastCommit(s, b, ms, base))
    decreases |ms|
  {
    if |ms| > 0 && s.open && !Hangs(s, ms[0].0, ms[0].1) {
      var m, fault := ms[0].0, ms[0].1;
      var r := Step(s, b, m, fault);
      if !m.Abort? {
        StepReadable(s, b, m, fault);
        if Committed(m, r) {
          CommitLeadsBack(s, b, m, fault);
          RunLeadsBack(r.session, r.board, ms[1..], b);
        } else {
          RefusedKeeps(s, b, m, fault);
          RunLeadsBack(r.session, r.board, ms[1..], base);
        }
      }
    }
  }

  /** An abort at the end of any session, whatever went wrong in it, restores the board of just before its last
      successful commit, or the first board if there is none, exactly if that commit was not a replace, or the text it
      replaced does not end in a slash, or it replaced a line without an entry and no entry was kept from before. */
  lemma AbortRestores(b: Board, ms: seq<(Msg, Fault)>)
    requires ReadableBoard(b)
    ensures var (s, b') := Run(FRESH, b, ms);
            var base := BeforeLastCommit(FRESH, b, ms, b);
            s.open ==> (Step(s, b', Abort, NoFault).board == base <==> TakesBack(s.undo, base))
  {
    RunLeadsBack(FRESH, b, ms, b);
    var (s, b') := Run(FRESH, b, ms);
    if s.open {
      UndoneIs(s.undo, b', BeforeLastCommit(FRESH, b, ms, b));
    }
  }

  /** In terms of the file: a successful commit and an abort leave the board of the file as it was exactly if the
      commit was a write, or the line it replaced does not end in an empty field, or that line has no entry and the
      texts kept from before have none either. */
  lemma UndoOfCommit(ls: seq<string>, s: Session, m: Msg, fault: Fault)
    requires GoodLines(ls) && s.open && !Hangs(s, m, fault) && IsCommit(m) && GoodId(m.id)
    requires Committed(m, Step(s, BoardOf(ls), m, fault))
    ensures m.CommitReplace? ==> Find(ls, m.id) < |ls|
    ensures var r := Step(s, BoardOf(ls), m, fault);
            Undone(r.session.undo, r.board) == BoardOf(ls)
            <==> m.CommitWrite?
                 || var line := ls[Find(ls, m.id)];
                    if HasEntry(line) then FieldsOf(line)[|FieldsOf(line)| - 1] != ""
                    else !Storable(s.kept.user, s.kept.message)
  {
    var b := BoardOf(ls);
    BoardReadable(ls);
    CommitLeadsBack(s, b, m, fault);
    UndoneIs(Step(s, b, m, fault).session.undo, Step(s, b, m, fault).board, b);
    if m.CommitReplace? {
      FindBoard(ls, m.id);
      if b[m.id].Some? { WritableBack(ls, m.id); }
    }
  }

  /** A line that the store takes, shows and cannot write back. */
  lemma LineLost()
    ensures GoodLine("5/bob/x//") && !Garbage("5/bob/x//")
    ensures LineEntry("5/bob/x//") == Some(Entry("bob", "x/")) && !Restorable(Entry("bob", "x/"))
  {
    var ts := ["5", "bob", "x", ""];
    LostFields();
    assert ts[2..] == ["x", ""] && ["x", ""][1..] == [""];
    assert Join(ts[2..]) == "x" + "/" + "" == "x/";
    WriteBack("5/bob/x//");
  }

  lemma LostFields()
    ensures FieldsOf("5/bob/x//") == ["5", "bob", "x", ""]
  {
    var ts := ["5", "bob", "x", "", ""];
    assert ts[1..] == ["bob", "x", "", ""] && ts[1..][1..] == ["x", "", ""];
    assert Join(["x", "", ""]) == "x//" by { assert ["x", "", ""][1..] == ["", ""] && ["", ""][1..] == [""]; }
    assert Join(ts[1..]) == "bob" + "/" + "x//";
    assert Join(ts) == "5" + "/" + "bob/x//" == "5/bob/x//";
    TokensOfJoin(ts);
    assert ts[..4] == ["5", "bob", "x", ""];
  }

  /** The only message number a request touches: the one it names, or the one in the undo record. */
  function Touched(s: Session, m: Msg): set<string> {
    match m
    case CommitWrite(id, _) => {id}
    case CommitReplace(id, _) => {id}
    case Abort => (match s.undo case NoUndo => {} case UndoWrite(id) => {id} case UndoReplace(id, _) => {id})
    case _ => {}
  }

  /** What a board holds at a number: nothing, or a line with or without an entry. */
  type Slot = Option<Option<Entry>>

  function Cell(b: Board, id: string): Slot {
    if id in b then Some(b[id]) else None
  }

  lemma StepFrame(s: Session, b: Board, m: Msg, fault: Fault, id: string)
    requires s.open && !Hangs(s, m, fault) && id !in Touched(s, m)
    ensures Cell(Step(s, b, m, fault).board, id) == Cell(b, id)
  {
  }
}
