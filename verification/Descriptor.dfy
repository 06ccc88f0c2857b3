/**
 The bulletin file.  Its bytes are read line by line, appended to and overwritten in place; every operation is
 proved against the lines and the board those bytes stand for.
 */
module Descriptor {
  import opened Common
  import opened Tokenize
  import opened LineCodec
  import opened BulletinLines

  const RECV_NODATA := -2
  const BBLINE_LEN := 3 * 1024 + 3

  /** The fields from `from` on, glued together again. */
  method JoinTail(ts: seq<string>, from: nat) returns (text: string)
    requires from < |ts|
    ensures text == Join(ts[from..])
  {
    text := "";
    for j := from to |ts|
      invariant text == Join(ts[from..j])
    {
      assert ts[from..j + 1] == ts[from..j] + [ts[j]];
      JoinSnoc(ts[from..j], ts[j]);
      if j > from {
        text := text + "/";
      }
      text := text + ts[j];
    }
    assert ts[from..|ts|] == ts[from..];
  }

  /** Reads bytes into the buffer up to a newline, the end of the file or `max` bytes. */
  method ReadLine(data: string, pos: nat, buf: array<char>, max: nat) returns (code: int, pos': nat)
    requires pos <= |data| && max < buf.Length
    modifies buf
    ensures pos == |data| && max > 0 ==> code == RECV_NODATA && pos' == pos
    ensures pos < |data| && LineEnd(data, pos) - pos < max ==>
              var e := LineEnd(data, pos);
              && code == e - pos && buf[..code] == data[pos..e] && buf[code] == ZERO
              && pos' == if e < |data| then e + 1 else e
    ensures pos < |data| && LineEnd(data, pos) - pos >= max ==>
              code == max && buf[..max] == data[pos..pos + max] && buf[max] == ZERO && pos' == pos + max
  {
    var i, begin := 0, true;
    pos' := pos;
    while i < max
      invariant 0 <= i <= max && pos' == pos + i <= |data|
      invariant begin <==> i == 0
      invariant buf[..i] == data[pos..pos + i]
      invariant pos' <= LineEnd(data, pos) && forall j :: pos <= j < pos' ==> data[j] != '\n'
    {
      var atEnd := pos' == |data|;
      if begin {
        if atEnd { return RECV_NODATA, pos'; }
        begin := false;
      }
      if atEnd || data[pos'] == '\n' {
        buf[i] := ZERO;
        LineEndIs(data, pos, pos');
        pos' := if atEnd then pos' else pos' + 1;
        return i, pos';
      }
      buf[i] := data[pos'];
      pos' := pos' + 1;
      i := i + 1;
    }
    buf[i] := ZERO;
    code := i;
  }

  /** The position `pos` is the start of a line, behind the lines `done`. */
  ghost predicate At(data: string, done: seq<string>, pos: nat) {
    && pos <= |data| && Terminated(data)
    && Lines(data) == done + LinesFrom(data, pos)
    && |Flatten(done)| == pos
  }

  lemma AtNext(data: string, done: seq<string>, pos: nat) returns (line: string)
    requires At(data, done, pos) && pos < |data|
    ensures line == data[pos..LineEnd(data, pos)] && LineEnd(data, pos) < |data|
    ensures |done| < |Lines(data)| && Lines(data)[|done|] == line
    ensures At(data, done + [line], LineEnd(data, pos) + 1)
  {
    var e := LineEnd(data, pos);
    TerminatedLine(data, pos);
    line := data[pos..e];
    var rest := LinesFrom(data, e + 1);
    assert done + ([line] + rest) == (done + [line]) + rest;
    FlattenAppend(done, [line]);
    FlattenOne(line);
  }

  /** The call of `readline` in every scan of the file. */
  method NextLine(data: string, pos: nat, buf: array<char>, ghost done: seq<string>)
    returns (more: bool, line: string, pos': nat)
    requires At(data, done, pos) && GoodLines(Lines(data)) && buf.Length > BBLINE_LEN
    modifies buf
    ensures more <==> pos < |data|
    ensures !more ==> done == Lines(data)
    ensures more ==> |done| < |Lines(data)| && line == Lines(data)[|done|] && GoodLine(line)
    ensures more ==> pos' == pos + |line| + 1 && At(data, done + [line], pos')
  {
    if pos < |data| {
      ghost var l := AtNext(data, done, pos);
      assert GoodLine(l);
    }
    var code;
    code, pos' := ReadLine(data, pos, buf, BBLINE_LEN);
    more := code != RECV_NODATA;
    line := if more then buf[..code] else "";
  }

  lemma AppendedBytes(ls: seq<string>, line: string, id: string, user: string, message: string)
    requires GoodLines(ls) && GoodWrite(id, user, message) && line == FormatLine(id, user, message)
    ensures Lines(Flatten(ls) + Terminate(line)) == ls + [line] && Terminated(Flatten(ls) + Terminate(line))
  {
    GoodWriteLine(id, user, message);
    FlattenAppend(ls, [line]);
    FlattenOne(line);
    LinesFlatten(ls + [line]);
  }

  lemma DeletedBoard(ls: seq<string>, id: string)
    requires Sound(ls) && GoodId(id) && id in BoardOf(ls)
    ensures Find(ls, id) < |ls| && Sound(Deleted(ls, id))
    ensures BoardOf(Deleted(ls, id)) == BoardOf(ls) - {id}
  {
    FindBoard(ls, id);
    ErasedBoard(ls, Find(ls, id));
  }

  /** Outside the `n` bytes at `start` the two files agree. */
  ghost predicate SameOutside(data: string, data': string, start: nat, n: nat) {
    && |data| == |data'|
    && forall j :: 0 <= j < |data| && !(start <= j < start + n) ==> data[j] == data'[j]
  }

  lemma OverwriteSame(data: string, start: nat, cfp: string)
    requires start + |cfp| <= |data|
    ensures SameOutside(data, data[..start] + cfp + data[start + |cfp|..], start, |cfp|)
  {
  }

  /** The bytes that overwriting line `k` leaves behind, and the lines they stand for. */
  lemma DeletedBytes(data: string, k: nat) returns (start: nat, len: nat, data': string)
    requires Terminated(data) && k < |Lines(data)| && GoodLines(Erased(Lines(data), k))
    ensures start == |Flatten(Lines(data)[..k])| && len == |Lines(data)[k]| && start + len + 1 <= |data|
    ensures data' == data[..start] + Terminate(Backspaces(len)) + data[start + len + 1..]
    ensures SameOutside(data, data', start, len + 1)
    ensures Terminated(data') && Lines(data') == Erased(Lines(data), k)
  {
    var ls := Lines(data);
    FlattenLines(data, 0);
    assert data[0..] == data;
    LinesFlatten(Erased(ls, k));
    data' := Flatten(Erased(ls, k));
    start, len := ErasedText(data, ls, k);
  }

  lemma ErasedText(data: string, ls: seq<string>, k: nat) returns (start: nat, len: nat)
    requires k < |ls| && data == Flatten(ls)
    ensures start == |Flatten(ls[..k])| && len == |ls[k]| && start + len + 1 <= |data|
    ensures Flatten(Erased(ls, k)) == data[..start] + Terminate(Backspaces(len)) + data[start + len + 1..]
    ensures SameOutside(data, Flatten(Erased(ls, k)), start, len + 1)
  {
    ErasedBytes(ls, k);
    start, len := |Flatten(ls[..k])|, |ls[k]|;
    OverwriteSame(data, start, Terminate(Backspaces(len)));
  }

  method BackspaceLine(lim: nat) returns (cfp: string)
    ensures cfp == Terminate(Backspaces(lim))
  {
    cfp := "";
    for i := 0 to lim
      invariant cfp == Backspaces(i)
    {
      cfp := cfp + [BACKSPACE];
    }
    cfp := cfp + "\n";
  }

  ghost function BackspacesIn(line: string): nat {
    if |line| == 0 then 0 else BackspacesIn(line[..|line| - 1]) + if line[|line| - 1] == BACKSPACE then 1 else 0
  }

  lemma {:induction false} AllBackspaces(line: string)
    ensures BackspacesIn(line) <= |line|
    ensures BackspacesIn(line) == |line| <==> forall j :: 0 <= j < |line| ==> line[j] == BACKSPACE
  {
    if |line| > 0 {
      var init := line[..|line| - 1];
      AllBackspaces(init);
      assert forall j :: 0 <= j < |init| ==> line[j] == init[j];
    }
  }

  method CountBackspaces(line: string) returns (nc: nat)
    ensures Garbage(line) <==> nc != 0 && nc == |line|
  {
    nc := 0;
    for i := 0 to |line|
      invariant nc == BackspacesIn(line[..i])
    {
      assert line[..i + 1][..i] == line[..i];
      if line[i] == BACKSPACE {
        nc := nc + 1;
      }
    }
    assert line[..|line|] == line;
    AllBackspaces(line);
  }

  lemma CachedLine(done: seq<string>, line: string, cache: string)
    requires cache == Flatten(Housekept(done))
    ensures Garbage(line) ==>
              && cache == Flatten(Housekept(done + [line]))
              && |Housekept(done + [line])| == |Housekept(done)|
    ensures !Garbage(line) ==>
              && cache + (line + "\n") == Flatten(Housekept(done + [line]))
              && |Housekept(done + [line])| == |Housekept(done)| + 1
  {
    HousekeptAppend(done, line);
    FlattenAppend(Housekept(done), [line]);
    FlattenOne(line);
  }

  class BulletinFile {
    var data: string
    /** Whether opening the file succeeds, for reading and for writing. */
    var available: bool
    var writable: bool

    ghost predicate Valid()
      reads this
    {
      Terminated(data) && Sound(Lines(data))
    }

    ghost function Shows(): Board
      requires Valid()
      reads this
    {
      BoardOf(Lines(data))
    }

    predicate Usable()
      reads this
    {
      available && writable
    }

    /** The scan for a message number: the fields and the length of its line, and the position behind that line. */
    method Search(id: string) returns (found: bool, tokens: seq<string>, len: nat, pos: nat)
      requires Valid() && GoodId(id)
      ensures found <==> Find(Lines(data), id) < |Lines(data)|
      ensures found ==> var k := Find(Lines(data), id);
                && tokens == FieldsOf(Lines(data)[k]) && len == |Lines(data)[k]|
                && pos == |Flatten(Lines(data)[..k])| + len + 1
    {
      var buf := new char[BBLINE_LEN + 1];
      var more, line := true, "";
      found, tokens, len, pos := false, [], 0, 0;
      ghost var done: seq<string> := [];
      while true
        invariant At(data, done, pos) && done <= Lines(data)
        invariant |done| <= Find(Lines(data), id)
        decreases |data| - pos
      {
        more, line, pos := NextLine(data, pos, buf, done);
        if !more { break; }
        tokens := TokenizeText(Fields, line, |line|);
        FindAt(Lines(data), id, |done|);
        if tokens[0] == id {
          len := |line|;
          assert done == Lines(data)[..|done|];
          return true, tokens, len, pos;
        }
        done := done + [line];
      }
    }

    /** `read_descriptor`: the shown text and its length, -1 for an unknown number, -2 without a file. */
    method Read(id: string) returns (code: int, text: string)
      requires Valid() && GoodId(id)
      ensures !available ==> code == -2
      ensures available ==> code == if id in Shows() then |text| else -1
      ensures available && id in Shows() ==>
                var k := Find(Lines(data), id);
                && k < |Lines(data)|
                && (HasEntry(Lines(data)[k]) ==> text == Join(FieldsOf(Lines(data)[k])[1..]))
                && (HasEntry(Lines(data)[k]) && Faithful(Lines(data)[k], 0, |Lines(data)[k]|) ==>
                      id + "/" + text == Lines(data)[k])
                && (!HasEntry(Lines(data)[k]) ==> text == "")
      ensures available && id in Shows() && Shows()[id].Some? ==> text == Shown(Shows()[id].value)
    {
      if !available { return -2, ""; }
      FindBoard(Lines(data), id);
      var found, tokens, len, pos := Search(id);
      if !found { return -1, ""; }
      ghost var line := Lines(data)[Find(Lines(data), id)];
      if HasEntry(line) { ShownIs(line); }
      text := "";
      if |tokens| > 3 {
        var tail := JoinTail(tokens, 2);
        text := tokens[1] + "/" + tail;
      } else if |tokens| == 3 {
        text := tokens[1] + "/" + tokens[2];
      }
      code := |text|;
    }

    /** `read_tokenized_descriptor`: the same entry with user and message apart.  A line without an entry leaves the
        texts of the caller as they are. */
    method ReadTokenized(id: string, oldUser: string, oldMessage: string)
      returns (code: int, user: string, message: string)
      requires Valid() && GoodId(id) && available
      ensures code == if id in Shows() then |message| + |user| else -1
      ensures Entry(user, message)
           == if id in Shows() && Shows()[id].Some? then Shows()[id].value else Entry(oldUser, oldMessage)
    {
      FindBoard(Lines(data), id);
      var found, tokens, len, pos := Search(id);
      user, message := oldUser, oldMessage;
      if !found { return -1, user, message; }
      if |tokens| > 3 {
        user := tokens[1];
        message := JoinTail(tokens, 2);
      } else if |tokens| == 3 {
        user, message := tokens[1], tokens[2];
      }
      code := |message| + |user|;
    }

    /** `seek_msg_descriptor`: the offset at which the line of a message number starts, and its length. */
    method Seek(id: string) returns (start: nat, len: nat)
      requires Valid() && GoodId(id) && Usable()
      ensures id !in Shows() ==> start == 0
      ensures id in Shows() ==> var k := Find(Lines(data), id);
                k < |Lines(data)| && start == |Flatten(Lines(data)[..k])| && len == |Lines(data)[k]|
    {
      FindBoard(Lines(data), id);
      var found, tokens, pos;
      found, tokens, len, pos := Search(id);
      start := if found then pos - len - 1 else 0;
    }

    /** `write_descriptor`: appends a line. */
    method Write(id: string, user: string, message: string) returns (code: int)
      requires Valid() && GoodWrite(id, user, message)
      modifies this`data
      ensures code == if Usable() then 0 else -2
      ensures !Usable() ==> data == old(data)
      ensures Usable() ==> data == old(data) + (id + "/" + user + "/" + message + "\n")
      ensures Usable() ==> Lines(data) == Written(old(Lines(data)), id, user, message)
      ensures Usable() && id !in old(Shows()) ==>
                Valid() && Shows() == old(Shows())[id := Reading(user, message)]
    {
      if !available { return -2; }
      if !writable { return -2; }
      var cfp := id + "/" + user + "/" + message + "\n";
      ghost var ls, line := Lines(data), FormatLine(id, user, message);
      assert cfp == Terminate(line);
      FlattenLines(data, 0);
      data := data + cfp;
      AppendedBytes(ls, line, id, user, message);
      if id !in old(Shows()) {
        WrittenBoard(ls, id, user, message);
      }
      code := 0;
    }

    /** `delete_descriptor`: overwrites the line of a message number in place with backspaces. */
    method Delete(id: string) returns (written: nat)
      requires Valid() && GoodId(id) && Usable() && id in Shows()
      modifies this`data
      ensures Valid() && Shows() == old(Shows()) - {id}
      ensures var ls := old(Lines(data)); var k := Find(ls, id);
              && k < |ls| && Lines(data) == Deleted(ls, id)
              && written == |ls[k]| + 1 && SameOutside(old(data), data, |Flatten(ls[..k])|, written)
    {
      ghost var ls, k := Lines(data), Find(Lines(data), id);
      DeletedBoard(ls, id);
      ghost var s, l, data' := DeletedBytes(data, k);
      var start, lim := Seek(id);
      var cfp := BackspaceLine(lim);
      data := data[..start] + cfp + data[start + |cfp|..];
      assert data == data';
      written := |cfp|;
    }

    /** `replace_descriptor`: delete and write again. */
    method Replace(id: string, user: string, message: string) returns (code: int)
      requires Valid() && GoodWrite(id, user, message) && Usable() && id in Shows()
      modifies this`data
      ensures code == 0 && Valid() && Shows() == old(Shows())[id := Reading(user, message)]
      ensures Find(old(Lines(data)), id) < |old(Lines(data))|
      ensures Lines(data) == Written(Deleted(old(Lines(data)), id), id, user, message)
    {
      var written := Delete(id);
      code := Write(id, user, message);
      if code < 0 { return -2; }
    }

    /** `housekeep_descriptor`: copies the lines that are not garbage and puts the copy in the file's place.
        The code is 0 when exactly one garbage line was found. */
    method Housekeep() returns (code: int)
      requires Valid() && available
      modifies this`data
      ensures Valid() && Shows() == old(Shows())
      ensures Lines(data) == Housekept(old(Lines(data))) && data == Flatten(Lines(data))
      ensures code == if |Lines(data)| + 1 == |old(Lines(data))| then 0 else -1
    {
      ghost var ls := Lines(data);
      var buf := new char[BBLINE_LEN + 1];
      var pos: nat, more, line, recFound, cache := 0, true, "", 0, "";
      ghost var done: seq<string> := [];
      while true
        invariant At(data, done, pos) && done <= ls == Lines(data)
        invariant cache == Flatten(Housekept(done))
        invariant recFound + |Housekept(done)| == |done|
        decreases |data| - pos
      {
        more, line, pos := NextLine(data, pos, buf, done);
        if !more { break; }
        CachedLine(done, line, cache);
        var nc := CountBackspaces(line);
        if nc != 0 && nc == |line| {
          recFound := recFound + 1;
        } else {
          cache := cache + (line + "\n");
        }
        done := done + [line];
      }
      HousekeptBoard(ls);
      LinesFlatten(Housekept(ls));
      data := cache;
      code := if recFound == 1 then 0 else -1;
    }
  }
}