/**
 The bulletin file as lines and as a board.  The bytes of the file split into lines at the newlines; the lines
 that are not garbage show, under their first field, the entry a reader gets.
 */
module BulletinLines {
  import opened Common
  import opened Tokenize
  import opened LineCodec

  /** The live numbers; a number whose line has too few fields has no entry. */
  type Board = map<string, Option<Entry>>

  const BACKSPACE: char := '\U{8}'

  /** The line buffer of the seek; longer lines are not part of the model. */
  const LINE_MAX := 1024

  // ---- bytes and lines

  /** The first newline in `data[i..]`, or the end of the file. */
  function LineEnd(data: string, i: nat): (e: nat)
    requires i <= |data|
    ensures i <= e <= |data|
    ensures e < |data| ==> data[e] == '\n'
    decreases |data| - i
  {
    if i == |data| || data[i] == '\n' then i else LineEnd(data, i + 1)
  }

  function LinesFrom(data: string, i: nat): seq<string>
    requires i <= |data|
    decreases |data| - i
  {
    if i == |data| then []
    else
      var e := LineEnd(data, i);
      if e == |data| then [data[i..e]] else [data[i..e]] + LinesFrom(data, e + 1)
  }

  function Lines(data: string): seq<string> {
    LinesFrom(data, 0)
  }

  predicate Terminated(data: string) {
    |data| > 0 ==> data[|data| - 1] == '\n'
  }

  function Terminate(line: string): string {
    line + "\n"
  }

  function Flatten(ls: seq<string>): string {
    if |ls| == 0 then "" else Terminate(ls[0]) + Flatten(ls[1..])
  }

  lemma {:induction false} LineEndIs(data: string, i: nat, e: nat)
    requires i <= e <= |data|
    requires forall j :: i <= j < e ==> data[j] != '\n'
    requires e < |data| ==> data[e] == '\n'
    ensures LineEnd(data, i) == e
    decreases e - i
  {
    if i < e { LineEndIs(data, i + 1, e); }
  }

  lemma {:induction false} TerminatedLine(data: string, i: nat)
    requires i < |data| && Terminated(data)
    ensures LineEnd(data, i) < |data|
    decreases |data| - i
  {
    if i + 1 < |data| { TerminatedLine(data, i + 1); }
  }

  lemma {:induction false} FlattenAppend(ls: seq<string>, ms: seq<string>)
    ensures Flatten(ls + ms) == Flatten(ls) + Flatten(ms)
  {
    if |ls| == 0 {
      assert ls + ms == ms;
    } else {
      FlattenAppend(ls[1..], ms);
      assert (ls + ms)[1..] == ls[1..] + ms;
      Associate(Terminate(ls[0]), Flatten(ls[1..]), Flatten(ms));
    }
  }

  lemma FlattenOne(line: string)
    ensures Flatten([line]) == Terminate(line)
  {
    assert Flatten([line]) == Terminate(line) + Flatten([]);
  }

  lemma FlattenSplit(ls: seq<string>, k: nat)
    requires k < |ls|
    ensures Flatten(ls) == Flatten(ls[..k]) + (Terminate(ls[k]) + Flatten(ls[k + 1..]))
  {
    assert ls == ls[..k] + ls[k..];
    FlattenAppend(ls[..k], ls[k..]);
    assert ls[k..][1..] == ls[k + 1..];
  }

  lemma {:induction false} FlattenTerminated(ls: seq<string>)
    ensures Terminated(Flatten(ls))
  {
    if |ls| > 0 { FlattenTerminated(ls[1..]); }
  }

  /** A newline-terminated file is the concatenation of its lines. */
  lemma {:induction false} FlattenLines(data: string, i: nat)
    requires i <= |data| && Terminated(data)
    ensures Flatten(LinesFrom(data, i)) == data[i..]
    decreases |data| - i
  {
    if i < |data| {
      var e := LineEnd(data, i);
      TerminatedLine(data, i);
      FlattenLines(data, e + 1);
      CutLine(data, i, e);
    }
  }

  lemma CutLine(data: string, i: nat, e: nat)
    requires i <= e < |data| && data[e] == '\n'
    ensures data[i..] == Terminate(data[i..e]) + data[e + 1..]
  {
  }

  lemma FirstLine(data: string, i: nat, l: string)
    requires i + |l| < |data| && data[i..i + |l|] == l && data[i + |l|] == '\n' && '\n' !in l
    ensures LinesFrom(data, i) == [l] + LinesFrom(data, i + |l| + 1)
  {
    assert forall j :: i <= j < i + |l| ==> data[j] == l[j - i];
    LineEndIs(data, i, i + |l|);
  }

  /** Splitting off a terminated line. */
  lemma LineInFront(data: string, i: nat, l: string, rest: string)
    requires i <= |data| && data[i..] == Terminate(l) + rest
    ensures i + |l| < |data| && data[i..i + |l|] == l && data[i + |l|] == '\n' && data[i + |l| + 1..] == rest
  {
    var tail := data[i..];
    assert |tail| == |data| - i && |tail| == |l| + 1 + |rest|;
    assert data[i..i + |l|] == tail[..|l|];
    assert data[i + |l|] == tail[|l|];
    assert data[i + |l| + 1..] == tail[|l| + 1..];
  }

  /** From `i` on the file holds just these lines. */
  predicate Holds(data: string, i: nat, ls: seq<string>)
    decreases |ls|
  {
    if |ls| == 0 then i == |data|
    else
      && i + |ls[0]| < |data| && data[i..i + |ls[0]|] == ls[0] && data[i + |ls[0]|] == '\n'
      && Holds(data, i + |ls[0]| + 1, ls[1..])
  }

  lemma {:induction false} FlattenHolds(data: string, i: nat, ls: seq<string>)
    requires i <= |data| && data[i..] == Flatten(ls)
    ensures Holds(data, i, ls)
    decreases |ls|
  {
    if |ls| > 0 {
      LineInFront(data, i, ls[0], Flatten(ls[1..]));
      FlattenHolds(data, i + |ls[0]| + 1, ls[1..]);
    } else {
      assert |data[i..]| == 0;
    }
  }

  lemma {:induction false} LinesHeld(data: string, i: nat, ls: seq<string>)
    requires i <= |data| && Holds(data, i, ls) && forall q :: 0 <= q < |ls| ==> '\n' !in ls[q]
    ensures LinesFrom(data, i) == ls
    decreases |ls|
  {
    if |ls| > 0 {
      FirstLine(data, i, ls[0]);
      LinesHeld(data, i + |ls[0]| + 1, ls[1..]);
      assert ls == [ls[0]] + ls[1..];
    }
  }

  // ---- what the lines show

  predicate Garbage(line: string) {
    line != "" && forall j :: 0 <= j < |line| ==> line[j] == BACKSPACE
  }

  function Backspaces(n: nat): string {
    seq(n, _ => BACKSPACE)
  }

  /** A line as the store writes it, and as it leaves it when it deletes it. */
  predicate GoodLine(line: string) {
    line != "" && '\n' !in line && ZERO !in line && |line| < LINE_MAX
  }

  predicate GoodLines(ls: seq<string>) {
    forall q :: 0 <= q < |ls| ==> GoodLine(ls[q])
  }

  /** At most one live line for every message number. */
  predicate UniqueKeys(ls: seq<string>) {
    forall p, q :: 0 <= p < q < |ls| && !Garbage(ls[p]) && !Garbage(ls[q]) ==> KeyOf(ls[p]) != KeyOf(ls[q])
  }

  predicate Sound(ls: seq<string>) {
    GoodLines(ls) && UniqueKeys(ls)
  }

  function BoardOf(ls: seq<string>): Board
    requires GoodLines(ls)
  {
    if |ls| == 0 then map[]
    else if Garbage(ls[0]) then BoardOf(ls[1..])
    else BoardOf(ls[1..])[KeyOf(ls[0]) := LineEntry(ls[0])]
  }

  /** The first line with this first field, or the number of lines. */
  function Find(ls: seq<string>, id: string): (k: nat)
    ensures k <= |ls|
    ensures k < |ls| ==> KeyOf(ls[k]) == id
    ensures forall q :: 0 <= q < k ==> KeyOf(ls[q]) != id
  {
    if |ls| == 0 || KeyOf(ls[0]) == id then 0 else 1 + Find(ls[1..], id)
  }

  /** Message numbers the store is asked for: not empty, not a run of backspaces. */
  predicate GoodId(id: string) {
    id != "" && !Garbage(id) && '/' !in id && '\n' !in id && ZERO !in id
  }

  /** What a caller may write. */
  predicate GoodWrite(id: string, user: string, message: string) {
    var line := FormatLine(id, user, message);
    && GoodId(id)
    && '\n' !in line && ZERO !in line && |line| < LINE_MAX
  }

  lemma GoodWriteLine(id: string, user: string, message: string)
    requires GoodWrite(id, user, message)
    ensures GoodLine(FormatLine(id, user, message)) && !Garbage(FormatLine(id, user, message))
  {
    StoredLine(id, user, message);
    assert FormatLine(id, user, message)[|id|] == '/';
  }

  lemma GarbageKey(line: string)
    requires Garbage(line)
    ensures KeyOf(line) == line
  {
    TokensSingle(Fields, line);
  }

  /** The line at `k`, when all lines in front of it have other first fields. */
  lemma FindAt(ls: seq<string>, id: string, k: nat)
    requires k < |ls| && k <= Find(ls, id)
    ensures if KeyOf(ls[k]) == id then Find(ls, id) == k else k < Find(ls, id)
  {
  }

  /** The line search answers what the board holds. */
  lemma {:induction false} FindBoard(ls: seq<string>, id: string)
    requires GoodLines(ls) && GoodId(id)
    ensures id in BoardOf(ls) <==> Find(ls, id) < |ls|
    ensures Find(ls, id) < |ls| ==> !Garbage(ls[Find(ls, id)]) && LineEntry(ls[Find(ls, id)]) == BoardOf(ls)[id]
  {
    if |ls| > 0 {
      FindBoard(ls[1..], id);
      if Garbage(ls[0]) { GarbageKey(ls[0]); }
    }
  }

  lemma {:induction false} BoardKeys(ls: seq<string>, id: string)
    requires GoodLines(ls)
    ensures id in BoardOf(ls) <==> exists q :: 0 <= q < |ls| && !Garbage(ls[q]) && KeyOf(ls[q]) == id
  {
    if |ls| > 0 {
      BoardKeys(ls[1..], id);
      assert forall q :: 0 < q < |ls| ==> ls[q] == ls[1..][q - 1];
      if q :| 0 <= q < |ls[1..]| && !Garbage(ls[1..][q]) && KeyOf(ls[1..][q]) == id {
        assert ls[q + 1] == ls[1..][q];
      }
    }
  }

  // ---- the operations on lines

  function Written(ls: seq<string>, id: string, user: string, message: string): seq<string> {
    ls + [FormatLine(id, user, message)]
  }

  function Erased(ls: seq<string>, k: nat): seq<string>
    requires k < |ls|
  {
    ls[k := Backspaces(|ls[k]|)]
  }

  function Deleted(ls: seq<string>, id: string): seq<string>
    requires Find(ls, id) < |ls|
  {
    Erased(ls, Find(ls, id))
  }

  function Housekept(ls: seq<string>): seq<string> {
    if |ls| == 0 then []
    else if Garbage(ls[0]) then Housekept(ls[1..])
    else [ls[0]] + Housekept(ls[1..])
  }

  /** Deleting a live line removes just its number from the board and leaves every other line alone. */
  lemma {:induction false} ErasedBoard(ls: seq<string>, k: nat)
    requires k < |ls| && Sound(ls) && !Garbage(ls[k])
    ensures Sound(Erased(ls, k))
    ensures BoardOf(Erased(ls, k)) == BoardOf(ls) - {KeyOf(ls[k])}
  {
    assert GoodLine(ls[k]);
    assert Garbage(Backspaces(|ls[k]|));
    if k == 0 {
      BoardKeys(ls[1..], KeyOf(ls[0]));
      assert Erased(ls, 0)[1..] == ls[1..];
    } else {
      ErasedBoard(ls[1..], k - 1);
      assert Erased(ls, k)[1..] == Erased(ls[1..], k - 1);
    }
  }

  lemma {:induction false} AppendedBoard(ls: seq<string>, line: string)
    requires GoodLines(ls) && GoodLine(line) && !Garbage(line) && KeyOf(line) !in BoardOf(ls)
    ensures GoodLines(ls + [line])
    ensures BoardOf(ls + [line]) == BoardOf(ls)[KeyOf(line) := LineEntry(line)]
  {
    if |ls| > 0 {
      AppendedBoard(ls[1..], line);
      assert (ls + [line])[1..] == ls[1..] + [line];
    }
  }

  lemma OverwriteMiddle(a: string, l: string, l': string, b: string, data: string)
    requires |l| == |l'| && data == a + (l + b)
    ensures a + (l' + b) == data[..|a|] + l' + data[|a| + |l|..]
    ensures data[|a|..|a| + |l|] == l
  {
    assert data[|a| + |l|..] == b;
    assert data[..|a|] == a;
  }

  /** In bytes: only the characters of that line change, into backspaces. */
  lemma ErasedBytes(ls: seq<string>, k: nat)
    requires k < |ls|
    ensures var start, len, data := |Flatten(ls[..k])|, |ls[k]|, Flatten(ls);
            && start + len + 1 <= |data|
            && data[start..start + len + 1] == Terminate(ls[k])
            && Flatten(Erased(ls, k)) == data[..start] + Terminate(Backspaces(len)) + data[start + len + 1..]
  {
    var a, b := Flatten(ls[..k]), Flatten(ls[k + 1..]);
    FlattenSplit(ls, k);
    FlattenSplit(Erased(ls, k), k);
    assert Erased(ls, k)[..k] == ls[..k] && Erased(ls, k)[k + 1..] == ls[k + 1..];
    OverwriteMiddle(a, Terminate(ls[k]), Terminate(Backspaces(|ls[k]|)), b, Flatten(ls));
  }

  /** The lines of a file built from lines, and the bytes of a terminated file. */
  lemma LinesFlatten(ls: seq<string>)
    requires GoodLines(ls)
    ensures Lines(Flatten(ls)) == ls && Terminated(Flatten(ls))
  {
    FlattenHolds(Flatten(ls), 0, ls);
    LinesHeld(Flatten(ls), 0, ls);
    FlattenTerminated(ls);
  }

  /** Writing under a fresh number is an insertion into the board. */
  lemma WrittenBoard(ls: seq<string>, id: string, user: string, message: string)
    requires Sound(ls) && GoodWrite(id, user, message) && id !in BoardOf(ls)
    ensures Sound(Written(ls, id, user, message))
    ensures BoardOf(Written(ls, id, user, message)) == BoardOf(ls)[id := Reading(user, message)]
  {
    var line := FormatLine(id, user, message);
    StoredLine(id, user, message);
    GoodWriteLine(id, user, message);
    AppendedBoard(ls, line);
    BoardKeys(ls, id);
  }

  /** Deleting and writing again is an update of the board. */
  lemma ReplacedBoard(ls: seq<string>, id: string, user: string, message: string)
    requires Sound(ls) && GoodWrite(id, user, message) && id in BoardOf(ls)
    ensures Find(ls, id) < |ls|
    ensures Sound(Written(Deleted(ls, id), id, user, message))
    ensures BoardOf(Written(Deleted(ls, id), id, user, message)) == BoardOf(ls)[id := Reading(user, message)]
  {
    FindBoard(ls, id);
    ErasedBoard(ls, Find(ls, id));
    WrittenBoard(Deleted(ls, id), id, user, message);
  }

  /** What a reader gets for a number may be written back under it. */
  lemma ShownIsWritable(ls: seq<string>, id: string)
    requires Sound(ls) && GoodId(id) && id in BoardOf(ls) && BoardOf(ls)[id].Some?
    ensures GoodWrite(id, BoardOf(ls)[id].value.user, BoardOf(ls)[id].value.message)
  {
    FindBoard(ls, id);
    var line := ls[Find(ls, id)];
    assert GoodLine(line);
    var ts := FieldsOf(line);
    TokensClean(line, 0, |line|);
    JoinTokensShorter(line, 0, |line|);
    JoinTokensChars(line, 0, |line|, '\n');
    JoinTokensChars(line, 0, |line|, ZERO);
    assert ts[1..][1..] == ts[2..];
    assert Join(ts) == ts[0] + "/" + (ts[1] + "/" + Join(ts[2..]));
    assert FormatLine(id, ts[1], Join(ts[2..])) == Join(ts);
  }

  ghost predicate ReadableBoard(b: Board) {
    forall id :: id in b && b[id].Some? ==> Readable(b[id].value)
  }

  lemma {:induction false} BoardReadable(ls: seq<string>)
    requires GoodLines(ls)
    ensures ReadableBoard(BoardOf(ls))
  {
    if |ls| > 0 {
      BoardReadable(ls[1..]);
      if !Garbage(ls[0]) && HasEntry(ls[0]) { WriteBack(ls[0]); }
    }
  }

  /** Whether an entry can be written back is seen in its line, and in the text a reader gets. */
  lemma WritableBack(ls: seq<string>, id: string)
    requires GoodLines(ls) && GoodId(id) && id in BoardOf(ls) && BoardOf(ls)[id].Some?
    ensures Find(ls, id) < |ls|
    ensures var line := ls[Find(ls, id)];
            Restorable(BoardOf(ls)[id].value) <==> FieldsOf(line)[|FieldsOf(line)| - 1] != ""
    ensures Restorable(BoardOf(ls)[id].value) <==> Whole(BoardOf(ls)[id].value)
  {
    FindBoard(ls, id);
    var line := ls[Find(ls, id)];
    assert GoodLine(line);
    WriteBack(line);
    RestorableIfWhole(EntryOf(line));
  }

  lemma {:induction false} HousekeptAppend(ls: seq<string>, line: string)
    ensures Housekept(ls + [line]) == if Garbage(line) then Housekept(ls) else Housekept(ls) + [line]
  {
    if |ls| == 0 {
      assert ls + [line] == [line];
      assert [line] + Housekept([]) == [line];
    } else {
      HousekeptAppend(ls[1..], line);
      assert (ls + [line])[1..] == ls[1..] + [line];
    }
  }

  /** Housekeeping keeps the meaning: the lines that stay are the live ones, in order, and nothing shown changes. */
  lemma {:induction false} HousekeptBoard(ls: seq<string>)
    requires GoodLines(ls)
    ensures GoodLines(Housekept(ls)) && BoardOf(Housekept(ls)) == BoardOf(ls)
    ensures forall q :: 0 <= q < |Housekept(ls)| ==> !Garbage(Housekept(ls)[q]) && Housekept(ls)[q] in ls
    ensures UniqueKeys(ls) ==> UniqueKeys(Housekept(ls))
  {
    if |ls| > 0 {
      var tail, hs := ls[1..], Housekept(ls[1..]);
      HousekeptBoard(tail);
      assert forall q :: 0 <= q < |tail| ==> tail[q] == ls[q + 1];
      if !Garbage(ls[0]) {
        assert ([ls[0]] + hs)[1..] == hs;
        if UniqueKeys(ls) {
          forall q | 0 <= q < |hs| ensures KeyOf(hs[q]) != KeyOf(ls[0]) {
            var p :| 0 <= p < |tail| && tail[p] == hs[q];
            assert ls[p + 1] == hs[q];
          }
        }
      }
    }
  }

  lemma {:induction false} HousekeptIdempotent(ls: seq<string>)
    ensures Housekept(Housekept(ls)) == Housekept(ls)
  {
    if |ls| > 0 {
      HousekeptIdempotent(ls[1..]);
      if !Garbage(ls[0]) {
        assert ([ls[0]] + Housekept(ls[1..]))[1..] == Housekept(ls[1..]);
      }
    }
  }

  /** Garbage is what a deletion leaves: the characters with code 8. */
  lemma GarbageIs(line: string)
    ensures Garbage(line) <==> line != "" && forall j :: 0 <= j < |line| ==> line[j] as int == 8
    ensures forall n: nat :: n > 0 ==> Garbage(Backspaces(n))
  {
  }

  /** Housekeeping takes out the garbage lines and keeps all others, each as often as it was there and in order: what it
      does to every part of the file it does to the file. */
  lemma {:induction false} HousekeptParts(ls: seq<string>, ms: seq<string>)
    ensures Housekept(ls + ms) == Housekept(ls) + Housekept(ms)
    ensures (forall q :: 0 <= q < |ls| ==> !Garbage(ls[q])) ==> Housekept(ls) == ls
    ensures (forall q :: 0 <= q < |ls| ==> Garbage(ls[q])) ==> Housekept(ls) == []
  {
    if |ls| == 0 {
      assert ls + ms == ms;
    } else {
      HousekeptParts(ls[1..], ms);
      assert (ls + ms)[1..] == ls[1..] + ms;
      assert forall q :: 0 <= q < |ls[1..]| ==> ls[1..][q] == ls[q + 1];
    }
  }
}
