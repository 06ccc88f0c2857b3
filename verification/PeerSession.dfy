/** The receiving side of a peer: the read loop of one session over the bulletin file of the peer. */
module PeerSession {
  import opened Common
  import opened Tokenize
  import opened LineCodec
  import opened BulletinLines
  import opened Descriptor
  import opened FieldText
  import opened PeerProtocol
  import opened Wire

  function ReplyText(r: Option<Reply>): string {
    match r
    case None => ""
    case Some(Positive) => "positive\n"
    case Some(Negative) => "negative\n"
    case Some(NegativeExists) => "negative_exists\n"
  }

  /** What the store needs of a request before it works on it. */
  predicate Acceptable(s: Session, b: Board, usable: bool, m: Msg) {
    match m
    case CommitWrite(id, message) => GoodWrite(id, s.user, message)
    case CommitReplace(id, message) => usable && GoodWrite(id, s.user, message)
    case Abort => (
      match s.undo
      case NoUndo => true
      case UndoWrite(id) => usable && id in b && GoodId(id)
      case UndoReplace(id, e) => usable && id in b && GoodWrite(id, e.user, e.message))
    case _ => true
  }

  /** Puts the words from `from` on together again; used for messages and user names, by master and peer alike. */
  method Rebuild(c: seq<string>, from: nat) returns (text: string)
    requires from < |c|
    ensures text == Rebuilt(c[from..])
  {
    if |c| == from + 1 { return c[from]; }
    text := "";
    for i := from to |c|
      invariant text == Padded(c[from..i])
    {
      assert c[from..i + 1] == c[from..i] + [c[i]];
      PaddedSnoc(c[from..i], c[i]);
      text := text + (" " + c[i]);
    }
    assert c[from..|c|] == c[from..];
  }

  /** The text of a replace request: every word with a blank behind it. */
  method Trail(c: seq<string>, from: nat) returns (text: string)
    requires from <= |c|
    ensures text == Trailed(c[from..])
  {
    text := "";
    for x := from to |c|
      invariant text == Trailed(c[from..x])
    {
      assert c[from..x + 1] == c[from..x] + [c[x]];
      TrailedSnoc(c[from..x], c[x]);
      text := text + (c[x] + " ");
    }
    assert c[from..|c|] == c[from..];
  }

  class Receiver {
    const file: BulletinFile
    var user: string
    var undoCommand: string
    var undoNmbr: string
    var undoUser: string
    var undoMessage: string
    var open: bool

    ghost function State(): Session
      reads this
    {
      Session(user,
              if undoCommand == "write" then UndoWrite(undoNmbr)
              else if undoCommand == "replace" then UndoReplace(undoNmbr, Entry(undoUser, undoMessage))
              else NoUndo,
              Entry(undoUser, undoMessage), open)
    }

    constructor (file: BulletinFile)
      ensures this.file == file && State() == FRESH && user == "nobody" && undoCommand == "" && open
    {
      this.file := file;
      user, open := "nobody", true;
      undoCommand, undoNmbr, undoUser, undoMessage := "", "", "", "";
    }

    /** The peer's answer and state are those of the protocol, on the board its file stands for. */
    twostate predicate Did(m: Msg, fault: Fault, reply: string)
      requires old(open) && old(file.Valid()) && !old(Hangs(State(), m, fault))
      reads this, file
    {
      file.Valid() && file.available == old(file.available) && file.writable == old(file.writable) &&
      var r := Step(old(State()), old(file.Shows()), m, fault);
      State() == r.session && file.Shows() == r.board && reply == ReplyText(r.reply)
    }

    method HandleAbort()
      requires open && file.Valid() && Acceptable(State(), file.Shows(), file.Usable(), Abort)
      modifies this, file`data
      ensures Did(Abort, NoFault, "") && !open
    {
      if undoCommand == "write" {
        var written := file.Delete(undoNmbr);
      } else if undoCommand == "replace" {
        var code := file.Replace(undoNmbr, undoUser, undoMessage);
      }
      open := false;
    }

    method HandleWrite(id: string, message: string) returns (reply: string)
      requires open && file.Valid() && GoodWrite(id, user, message)
      modifies this, file`data
      ensures Did(CommitWrite(id, message), WriteFault(file.available, file.writable), reply)
      ensures reply == "positive\n" <==> file.Usable() && id !in old(file.Shows())
      ensures reply == "positive\n" ==> file.Shows() == old(file.Shows())[id := Reading(user, message)]
      ensures reply == "negative_exists\n" <==> !file.available || id in old(file.Shows())
      ensures reply == "negative\n" <==> file.available && !file.writable && id !in old(file.Shows())
      ensures open <==> reply != "negative_exists\n"
    {
      var found, text := file.Read(id);
      if found == -1 {
        var code := file.Write(id, user, message);
        if code == 0 {
          undoCommand := "write";
          undoNmbr := id;
          reply := "positive\n";
        } else {
          reply := "negative\n";
        }
      } else {
        reply := "negative_exists\n";
        open := false;
      }
    }

    method HandleReplace(id: string, message: string) returns (reply: string)
      requires open && file.Valid() && file.Usable() && GoodWrite(id, user, message)
      modifies this, file`data
      ensures Did(CommitReplace(id, message), NoFault, reply)
      ensures reply == if id in old(file.Shows()) then "positive\n" else "negative\n"
      ensures open <==> reply == "positive\n"
      ensures reply == "positive\n" ==> file.Shows() == old(file.Shows())[id := Reading(user, message)]
    {
      var found, text := file.Read(id);
      if found == -1 {
        reply := "negative\n";
        open := false;
      } else {
        undoCommand := "replace";
        undoNmbr := id;
        var length;
        length, undoUser, undoMessage := file.ReadTokenized(undoNmbr, undoUser, undoMessage);
        var code := file.Replace(id, user, message);
        reply := "positive\n";
      }
    }

    method Refuse() returns (reply: string)
      requires open && file.Valid()
      modifies this
      ensures Did(Bad, NoFault, reply) && reply == "negative\n" && !open
    {
      reply := "negative\n";
      open := false;
    }

    /** `stale` is what the buffer of a replace holds behind the text. */
    method HandleCommit(c: seq<string>, stale: string) returns (reply: string)
      requires open && file.Valid() && |c| >= 1 && forall q :: 0 <= q < |c| ==> ZERO !in c[q]
      requires Acceptable(State(), file.Shows(), file.Usable(), ParseCommit(c)) && Stale(stale)
      modifies this, file`data
      ensures Did(ParseCommit(c), FaultFor(ParseCommit(c), file.available, file.writable), reply)
      ensures ParseCommit(c).Bad? ==> reply == "negative\n" && !open
    {
      if |c| > 1 && c[1] == "write" {
        if |c| > 3 {
          var message := Rebuild(c, 3);
          reply := HandleWrite(c[2], message);
          return;
        }
      } else if |c| > 1 && c[1] == "replace" && |c| > 2 {
        var request := Trail(c, 2);
        TrailedWithin(c[2..]);
        var fields := SplitRequest(request, stale);
        if |fields| >= 2 {
          var message := JoinTail(fields, 1);
          reply := HandleReplace(fields[0], message);
          return;
        }
      }
      reply := Refuse();
    }

    /** One turn of the read loop, on a line as `readline` returns it. */
    method Handle(line: string, stale: string) returns (reply: string)
      requires open && file.Valid() && |line| > 0 && ZERO !in line
      requires Acceptable(State(), file.Shows(), file.Usable(), Parse(line)) && Stale(stale)
      modifies this, file`data
      ensures Did(Parse(line), FaultFor(Parse(line), file.available, file.writable), reply)
      ensures Parse(line).Precommit? ==> reply == "positive\n" && open && user == Parse(line).user
      ensures Parse(line).Bad? ==> reply == "negative\n" && !open
      ensures Parse(line).Abort? || Parse(line).Quit? ==> reply == "" && !open
    {
      var request := line[..|line| - 1];
      var c := TokenizeText(Words, request, |request|);
      forall q | 0 <= q < |c| ensures ZERO !in c[q] {
        TokensWithin(Words, request, 0, |request|, q, ZERO);
      }
      var command := ToLower(c[0]);
      if command == "abort" {
        HandleAbort();
        reply := "";
      } else if command == "quit" {
        open := false;
        reply := "";
      } else if command == "precommit" {
        if |c| >= 2 {
          user := Rebuild(c, 1);
          reply := "positive\n";
        } else {
          reply := Refuse();
        }
      } else if command == "commit" {
        reply := HandleCommit(c, stale);
      } else {
        reply := Refuse();
      }
    }
  }

  function WriteFault(available: bool, writable: bool): Fault {
    if !available then NoFile else if !writable then StoreFails else NoFault
  }

  function FaultFor(m: Msg, available: bool, writable: bool): Fault {
    if m.CommitWrite? then WriteFault(available, writable) else NoFault
  }

  /** Left-overs in a buffer that the split of a request may run into. */
  predicate Stale(stale: string) {
    |stale| >= WINDOW && '/' !in stale
  }

  lemma {:induction false} TrailedWithin(ws: seq<string>)
    requires forall q :: 0 <= q < |ws| ==> ZERO !in ws[q]
    ensures ZERO !in Trailed(ws)
  {
    if |ws| > 0 { TrailedWithin(ws[1..]); }
  }

  /** The split of a replace request at the slashes of the first characters of its buffer. */
  method SplitRequest(request: string, stale: string) returns (fields: seq<string>)
    requires ZERO !in request && Stale(stale)
    ensures fields == ReplaceFields(request)
  {
    fields := TokenizeBuffer(Fields, request, stale, WINDOW);
    ghost var u := request + [ZERO] + stale;
    assert Buffer(u, request);
    if |request| < WINDOW {
      assert '/' !in u[|request|..WINDOW];
      ShortBuffer(u, request, 0, WINDOW);
      assert request[0..] == request;
    } else {
      LongBuffer(u, request, 0, WINDOW);
    }
  }

  /** After a positive answer to a commit the store can carry out the abort, as long as the number stays in the file
      and, if a replace overwrote a line without an entry, the texts kept from before fit into a line. */
  lemma AbortAcceptable(ls: seq<string>, s: Session, m: Msg, ls': seq<string>)
    requires Sound(ls) && s.open && IsCommit(m) && Acceptable(s, BoardOf(ls), true, m)
    requires Committed(m, Step(s, BoardOf(ls), m, NoFault))
    requires m.CommitReplace? && BoardOf(ls)[m.id].None? ==> GoodWrite(m.id, s.kept.user, s.kept.message)
    requires Sound(ls') && m.id in BoardOf(ls')
    ensures Acceptable(Step(s, BoardOf(ls), m, NoFault).session, BoardOf(ls'), true, Abort)
  {
    if m.CommitReplace? && BoardOf(ls)[m.id].Some? {
      ShownIsWritable(ls, m.id);
    }
  }
}
