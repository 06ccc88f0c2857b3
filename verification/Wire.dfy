/** The requests a master sends to its peers, and what a peer makes of them. */
module Wire {
  import opened Common
  import opened Tokenize
  import opened LineCodec
  import opened BulletinLines
  import opened FieldText
  import opened PeerProtocol

  // ---- putting words together again

  function Padded(ws: seq<string>): string {
    if |ws| == 0 then "" else " " + ws[0] + Padded(ws[1..])
  }

  function Trailed(ws: seq<string>): string {
    if |ws| == 0 then "" else ws[0] + " " + Trailed(ws[1..])
  }

  /** The text of a message or a user name: a single word stays as it is, several words get a blank in front each. */
  function Rebuilt(ws: seq<string>): string {
    if |ws| == 1 then ws[0] else Padded(ws)
  }

  lemma {:induction false} PaddedSnoc(ws: seq<string>, w: string)
    ensures Padded(ws + [w]) == Padded(ws) + (" " + w)
  {
    if |ws| == 0 {
      assert ws + [w] == [w];
      assert Padded([]) == "";
    } else {
      assert (ws + [w])[1..] == ws[1..] + [w];
      PaddedSnoc(ws[1..], w);
    }
  }

  lemma {:induction false} TrailedSnoc(ws: seq<string>, w: string)
    ensures Trailed(ws + [w]) == Trailed(ws) + (w + " ")
  {
    if |ws| == 0 {
      assert ws + [w] == [w];
      assert Trailed([]) == "";
    } else {
      assert (ws + [w])[1..] == ws[1..] + [w];
      TrailedSnoc(ws[1..], w);
    }
  }

  // ---- the peer's side

  function LowerChar(c: char): char {
    if 'A' <= c <= 'Z' then ((c as int) + 32) as char else c
  }

  function ToLower(s: string): string {
    seq(|s|, i requires 0 <= i < |s| => LowerChar(s[i]))
  }

  /** Only so many characters of a replace are searched for slashes: the length of the word `replace`. */
  const WINDOW := 7

  /** Reading on behind the end of a shorter text finds one more, empty field if only blanks follow its last slash. */
  function ReplaceFields(r: string): (ts: seq<string>)
    ensures |ts| >= 1
  {
    if |r| >= WINDOW then Tokens(Fields, r, 0, WINDOW) else FieldsOf(r) + Extra(r)
  }

  function ParseReplace(r: string): Msg {
    var ts := ReplaceFields(r);
    if |ts| >= 2 then CommitReplace(ts[0], Join(ts[1..])) else Bad
  }

  function ParseCommit(c: seq<string>): Msg
    requires |c| >= 1
  {
    if |c| == 1 then Bad
    else if c[1] == "write" then
      if |c| > 3 then CommitWrite(c[2], Rebuilt(c[3..])) else Bad
    else if c[1] == "replace" then
      if |c| > 2 then ParseReplace(Trailed(c[2..])) else Bad
    else Bad
  }

  function ParseWords(c: seq<string>): Msg
    requires |c| >= 1
  {
    var cmd := ToLower(c[0]);
    if cmd == "abort" then Abort
    else if cmd == "quit" then Quit
    else if cmd == "precommit" then
      if |c| >= 2 then Precommit(Rebuilt(c[1..])) else Bad
    else if cmd == "commit" then ParseCommit(c)
    else Bad
  }

  /** The peer drops the last character of the line it receives. */
  function Chopped(line: string): string
    requires |line| > 0
  {
    line[..|line| - 1]
  }

  function Parse(line: string): Msg
    requires |line| > 0
  {
    ParseWords(AllTokens(Words, Chopped(line)))
  }

  // ---- the master's side

  /** `precommit user `; the trailing blank is the character the peer drops. */
  function PrecommitLine(user: string): string {
    "precommit" + (" " + user) + " "
  }

  /** `commit write id message `. */
  function CommitWriteLine(id: string, message: string): string {
    "commit" + (" " + "write" + (" " + id + (" " + message))) + " "
  }

  /** `commit replace id/message `. */
  function CommitReplaceLine(id: string, message: string): string {
    "commit" + (" " + "replace" + (" " + (id + "/" + message))) + " "
  }

  const ABORT_LINE := "abort "
  const QUIT_LINE := "quit "

  // ---- words on the wire

  predicate IsWord(w: string) {
    forall j :: 0 <= j < |w| ==> !IsSep(Words, w[j])
  }

  /** Message numbers of runs: a word without slashes. */
  predicate RunId(id: string) {
    IsWord(id) && id != "" && '/' !in id
  }

  predicate AllWords(ws: seq<string>) {
    forall q :: 0 <= q < |ws| ==> IsWord(ws[q])
  }

  function NonEmpty(ws: seq<string>): (ns: seq<string>)
    ensures forall q :: 0 <= q < |ns| ==> ns[q] != ""
  {
    if |ws| == 0 then [] else (if ws[0] == "" then NonEmpty(ws[1..]) else [ws[0]] + NonEmpty(ws[1..]))
  }

  predicate NoneEmpty(ws: seq<string>) {
    forall q :: 0 <= q < |ws| ==> ws[q] != ""
  }

  /** A word followed by padded words. */
  lemma WordInFront(w: string, ws: seq<string>, s: string)
    requires IsWord(w) && s == w + Padded(ws)
    ensures AllTokens(Words, s) == [w] + TokensAfter(Words, Padded(ws), 0, |Padded(ws)|)
  {
    if |ws| == 0 {
      TokensSingle(Words, w);
      assert s == w;
    } else {
      var rest := ws[0] + Padded(ws[1..]);
      assert Padded(ws) == " " + rest;
      assert s == w + [' '] + rest;
      TokensFirst(Words, w, ' ', rest, s);
      BlankInFront(Words, rest, Padded(ws));
    }
  }

  /** Padded words come back without the empty ones. */
  lemma {:induction false} PaddedTokens(ws: seq<string>)
    requires AllWords(ws)
    ensures TokensAfter(Words, Padded(ws), 0, |Padded(ws)|) == NonEmpty(ws)
    decreases |ws|
  {
    if |ws| > 0 {
      var w, rest := ws[0], Padded(ws[1..]);
      PaddedTokens(ws[1..]);
      var tail := w + rest;
      assert Padded(ws) == " " + tail;
      BlankInFront(Words, tail, Padded(ws));
      if w == "" {
        assert tail == rest;
      } else {
        assert tail[0] == w[0] != ' ' by { assert !IsSep(Words, w[0]); }
        BlankEndIs(tail, 0, |tail|, 0);
        WordInFront(w, ws[1..], tail);
      }
    }
  }

  lemma CommandTokens(w: string, ws: seq<string>, s: string)
    requires IsWord(w) && AllWords(ws) && s == w + Padded(ws)
    ensures AllTokens(Words, s) == [w] + NonEmpty(ws)
  {
    WordInFront(w, ws, s);
    PaddedTokens(ws);
  }

  // ---- commits of writes

  lemma {:induction false} PaddedLength(ws: seq<string>)
    ensures |Padded(NonEmpty(ws))| <= |Padded(ws)|
    ensures |Padded(NonEmpty(ws))| == |Padded(ws)| <==> NoneEmpty(ws)
    ensures NoneEmpty(ws) ==> NonEmpty(ws) == ws
    ensures |NonEmpty(ws)| <= |ws| && (|NonEmpty(ws)| == |ws| ==> NoneEmpty(ws))
  {
    if |ws| > 0 {
      var rest := ws[1..];
      PaddedLength(rest);
      assert NoneEmpty(ws) <==> ws[0] != "" && NoneEmpty(rest) by {
        assert forall q :: 0 <= q < |rest| ==> rest[q] == ws[q + 1];
        assert NoneEmpty(rest) ==> forall q :: 0 < q < |ws| ==> ws[q] == rest[q - 1];
      }
      if ws[0] != "" {
        assert ([ws[0]] + NonEmpty(rest))[1..] == NonEmpty(rest);
        assert [ws[0]] + rest == ws;
      }
    }
  }

  /** Dropping empty words changes the text exactly if there are any. */
  lemma RebuiltWithout(ws: seq<string>)
    requires |ws| >= 1 && AllWords(ws)
    ensures |NonEmpty(ws)| >= 1 && Rebuilt(NonEmpty(ws)) == Rebuilt(ws) <==> NoneEmpty(ws)
  {
    PaddedLength(ws);
    var ns := NonEmpty(ws);
    if |ns| == 1 && |ws| > 1 {
      NonEmptyWords(ws);
      assert !IsSep(Words, ns[0][0]);
      assert Rebuilt(ws)[0] == ' ';
    }
  }

  lemma {:induction false} NonEmptyWords(ws: seq<string>)
    requires AllWords(ws)
    ensures AllWords(NonEmpty(ws))
  {
    if |ws| > 0 { NonEmptyWords(ws[1..]); }
  }

  /** The words of a message as the wire separates them: an empty word stands for the second of two blanks. */
  function WireWords(ws: seq<string>): seq<string> {
    if |ws| == 1 then ws else [""] + ws
  }

  lemma WireText(ws: seq<string>)
    requires |ws| >= 1
    ensures Padded(WireWords(ws)) == " " + Rebuilt(ws) && NonEmpty(WireWords(ws)) == NonEmpty(ws)
    ensures AllWords(ws) ==> AllWords(WireWords(ws))
  {
    if |ws| == 1 {
      assert Padded(ws) == " " + ws[0] + Padded([]) by { assert ws[1..] == []; }
    } else {
      EmptyInFront(ws, WireWords(ws));
    }
  }

  lemma EmptyInFront(ws: seq<string>, ws': seq<string>)
    requires ws' == [""] + ws
    ensures Padded(ws') == " " + Padded(ws) && NonEmpty(ws') == NonEmpty(ws)
    ensures AllWords(ws) ==> AllWords(ws')
  {
    assert ws'[1..] == ws;
  }

  lemma WordInList(w: string, ws: seq<string>, ws': seq<string>)
    requires w != "" && ws' == [w] + ws
    ensures Padded(ws') == " " + w + Padded(ws) && NonEmpty(ws') == [w] + NonEmpty(ws)
    ensures IsWord(w) && AllWords(ws) ==> AllWords(ws')
  {
    assert ws'[1..] == ws;
  }

  lemma ChopBlank(s: string)
    ensures Chopped(s + " ") == s
  {
  }

  lemma CommandWords()
    ensures IsWord("commit") && IsWord("precommit") && IsWord("write") && IsWord("replace")
  {
  }

  lemma CommitLower()
    ensures ToLower("commit") == "commit" && ToLower("precommit") == "precommit"
    ensures ToLower("abort") == "abort" && ToLower("quit") == "quit"
  {
  }

  /** The message of a write, taken apart and put together by the master, arrives at the peer without its empty
      words; without any word the peer refuses. */
  lemma WriteHeard(id: string, ws: seq<string>)
    requires IsWord(id) && id != "" && |ws| >= 1 && AllWords(ws)
    ensures Parse(CommitWriteLine(id, Rebuilt(ws)))
         == if NonEmpty(ws) == [] then Bad else CommitWrite(id, Rebuilt(NonEmpty(ws)))
  {
    var w0, s := WireWords(ws), "commit" + (" " + "write" + (" " + id + (" " + Rebuilt(ws))));
    var w1 := [id] + w0;
    var w2 := ["write"] + w1;
    ChopBlank(s);
    WireText(ws);
    WordInList(id, w0, w1);
    WordInList("write", w1, w2);
    CommandWords();
    CommandTokens("commit", w2, s);
    ParseWriteWords(AllTokens(Words, s), id, NonEmpty(ws));
  }

  lemma ParseWriteWords(c: seq<string>, id: string, ns: seq<string>)
    requires c == ["commit"] + (["write"] + ([id] + ns))
    ensures ParseWords(c) == if ns == [] then Bad else CommitWrite(id, Rebuilt(ns))
  {
    BehindTwo("commit", "write", [id] + ns, c);
    ParseCommitWords(c);
    assert |c| == 3 + |ns| && c[2] == c[2..][0] == id && c[3..] == c[2..][1..] == ns;
  }

  /** It arrives unchanged exactly if it holds no empty word. */
  lemma WriteRoundTrip(id: string, ws: seq<string>)
    requires IsWord(id) && id != "" && |ws| >= 1 && AllWords(ws)
    ensures Parse(CommitWriteLine(id, Rebuilt(ws))) == CommitWrite(id, Rebuilt(ws)) <==> NoneEmpty(ws)
  {
    WriteHeard(id, ws);
    RebuiltWithout(ws);
  }

  /** The user of a precommit arrives without its padding and its empty words. */
  lemma UserHeard(names: seq<string>)
    requires |names| >= 1 && AllWords(names)
    ensures Parse(PrecommitLine(Padded(names)))
         == if NonEmpty(names) == [] then Bad else Precommit(Rebuilt(NonEmpty(names)))
  {
    var cw := [""] + names;
    EmptyInFront(names, cw);
    var s := "precommit" + Padded(cw);
    assert PrecommitLine(Padded(names)) == s + " ";
    ChopBlank(s);
    CommandWords();
    CommandTokens("precommit", cw, s);
    ParsePrecommitWords(AllTokens(Words, s), NonEmpty(names));
  }

  lemma ParsePrecommitWords(c: seq<string>, ns: seq<string>)
    requires c == ["precommit"] + ns
    ensures ParseWords(c) == if ns == [] then Bad else Precommit(Rebuilt(ns))
  {
    CommitLower();
    assert c[0] == "precommit" && c[1..] == ns;
    assert |"abort"| == 5 && |"quit"| == 4 && |"precommit"| == 9;
  }

  lemma NobodyHeard()
    ensures Parse(PrecommitLine("nobody")) == Precommit("nobody")
  {
    var s := "precommit" + (" " + "nobody");
    ChopBlank(s);
    assert Padded(["nobody"]) == " " + "nobody" + Padded([]);
    assert s == "precommit" + Padded(["nobody"]);
    CommandTokens("precommit", ["nobody"], s);
    assert NonEmpty(["nobody"]) == ["nobody"] + NonEmpty([]);
    ParsePrecommitWords(AllTokens(Words, s), ["nobody"]);
  }

  lemma ClosingHeard()
    ensures Parse(ABORT_LINE) == Abort && Parse(QUIT_LINE) == Quit
  {
    CommitLower();
    TokensSingle(Words, "abort");
    TokensSingle(Words, "quit");
    assert Chopped(ABORT_LINE) == "abort" && Chopped(QUIT_LINE) == "quit";
  }

  // ---- commits of replaces

  /** Words with a blank between each two. */
  function Spaced(ws: seq<string>): string
    requires |ws| >= 1
  {
    ws[0] + Padded(ws[1..])
  }

  lemma {:induction false} TrailedSpaced(ws: seq<string>)
    requires |ws| >= 1
    ensures Trailed(ws) == Spaced(ws) + " "
  {
    if |ws| == 1 {
      assert Trailed(ws[1..]) == "" && Padded(ws[1..]) == "";
    } else {
      TrailedSpaced(ws[1..]);
      assert Padded(ws[1..]) == " " + Spaced(ws[1..]);
    }
  }

  lemma BehindTwo(a: string, b: string, ws: seq<string>, c: seq<string>)
    requires c == [a] + ([b] + ws)
    ensures |c| == 2 + |ws| && c[0] == a && c[1] == b && c[2..] == ws
  {
  }

  lemma ParseReplaceWords(c: seq<string>, ws: seq<string>)
    requires |ws| >= 1 && c == ["commit"] + (["replace"] + ws)
    ensures ParseWords(c) == ParseReplace(Trailed(ws))
  {
    BehindTwo("commit", "replace", ws, c);
    ParseCommitWords(c);
    ParseCommitReplace(c, ws);
  }

  lemma ParseCommitReplace(c: seq<string>, ws: seq<string>)
    requires |c| > 2 && c[1] == "replace" && c[2..] == ws
    ensures ParseCommit(c) == ParseReplace(Trailed(ws))
  {
    assert |"replace"| == 7 && |"write"| == 5;
  }

  lemma ParseCommitWords(c: seq<string>)
    requires |c| >= 1 && c[0] == "commit"
    ensures ParseWords(c) == ParseCommit(c)
  {
    CommitLower();
    assert |"commit"| == 6 && |"abort"| == 5 && |"quit"| == 4 && |"precommit"| == 9;
  }

  lemma ReplaceTokens(ws: seq<string>, s: string)
    requires AllWords(ws) && |ws| >= 1 && s == "commit" + (" " + "replace" + (" " + Spaced(ws)))
    ensures AllTokens(Words, s) == ["commit"] + (["replace"] + NonEmpty(ws))
  {
    var cw := ["replace"] + ws;
    assert Padded(ws) == " " + Spaced(ws);
    CommandWords();
    WordInList("replace", ws, cw);
    CommandTokens("commit", cw, s);
  }

  /** What a peer takes apart for a replace are the words of the text `id/message`, less the empty ones, with a blank
      behind each. */
  lemma ReplaceHeard(id: string, message: string, ws: seq<string>)
    requires AllWords(ws) && |ws| >= 1 && ws[0] != "" && id + "/" + message == Spaced(ws)
    ensures NonEmpty(ws) != []
    ensures Parse(CommitReplaceLine(id, message)) == ParseReplace(Trailed(NonEmpty(ws)))
  {
    var s := "commit" + (" " + "replace" + (" " + (id + "/" + message)));
    ChopBlank(s);
    ReplaceTokens(ws, s);
    ParseReplaceWords(AllTokens(Words, s), NonEmpty(ws));
  }

  /** Number and message of `id/message` come out of the first `n` characters unharmed exactly if the number ends
      early enough and no slash is followed by a blank or by the end of the window. */
  lemma WindowExact(id: string, message: string, r: string, n: nat)
    requires r == id + "/" + message && '/' !in id && n <= |r|
    ensures var ts := Tokens(Fields, r, 0, n);
            |ts| >= 2 && ts[0] == id && Join(ts[1..]) == message <==> |id| + 1 < n && Faithful(r, 0, n)
  {
    var ts := Tokens(Fields, r, 0, n);
    assert forall j :: 0 <= j < |id| ==> r[j] == id[j];
    assert r[|id|] == '/' && r[0..|id|] == id;
    FieldEndIs(Fields, r, 0, n, if |id| < n then |id| else n);
    JoinTokens(r, 0, n);
    assert r[0..] == r;
    if |ts| >= 2 {
      assert Join(ts) == id + "/" + Join(ts[1..]);
      SamePrefix(r, 0, |id|, Join(ts[1..]));
      assert r[|id| + 1..] == message;
    }
  }

  /** The master's own split of a replace request: only its first word is searched for slashes. */
  function MasterReplace(ws: seq<string>): Option<(string, string)>
    requires |ws| >= 1
  {
    var r := Trailed(ws);
    assert |ws[0]| <= |r|;
    var ts := Tokens(Fields, r, 0, |ws[0]|);
    if |ts| >= 2 then Some((ts[0], Join(ts[1..]))) else None
  }

  /** The master recovers number and message exactly if no slash of its first word is followed by the end of it. */
  lemma MasterReplaceExact(id: string, message: string, ws: seq<string>)
    requires |ws| >= 1 && '/' !in id && Trailed(ws) == id + "/" + message
    ensures |ws[0]| <= |Trailed(ws)|
    ensures MasterReplace(ws) == Some((id, message)) <==> |id| + 1 < |ws[0]| && Faithful(Trailed(ws), 0, |ws[0]|)
  {
    assert |ws[0]| <= |Trailed(ws)|;
    WindowExact(id, message, Trailed(ws), |ws[0]|);
  }

  lemma PeerLosesText(r: string)
    requires r == "5/abcd/efgh "
    ensures ParseReplace(r) == CommitReplace("5", "abcd")
  {
    TokensCut(Fields, r, 0, 7, 1, 2);
    TokensCut(Fields, r, 2, 7, 6, 7);
    assert r[0..1] == "5" && r[2..6] == "abcd";
    assert Tokens(Fields, r, 0, 7) == ["5", "abcd"];
    assert ["5", "abcd"][1..] == ["abcd"];
  }

  lemma MasterKeepsText(w: string, r: string)
    requires w == "5/abcd/efgh" && r == "5/abcd/efgh "
    ensures Trailed([w]) == r && MasterReplace([w]) == Some(("5", "abcd/efgh "))
  {
    assert Trailed([w]) == w + " " + Trailed([]);
    assert r == "5" + "/" + "abcd/efgh ";
    MasterReplaceExact("5", "abcd/efgh ", [w]);
  }

  /** A replace that master and peers take apart differently: the window of the peers ends right behind the slash in
      the message, and they lose the rest of the text. */
  lemma ReplaceLosesText()
    ensures MasterReplace(["5/abcd/efgh"]) == Some(("5", "abcd/efgh "))
    ensures Parse(CommitReplaceLine("5", "abcd/efgh ")) == CommitReplace("5", "abcd")
  {
    var ws := ["5/abcd/efgh", ""];
    MasterKeepsText("5/abcd/efgh", "5/abcd/efgh ");
    assert Padded(ws[1..]) == " " + "" + Padded([]);
    assert "5" + "/" + "abcd/efgh " == Spaced(ws);
    assert NonEmpty(ws[1..]) == NonEmpty([]) == [];
    assert NonEmpty(ws) == ["5/abcd/efgh"] + [];
    ReplaceHeard("5", "abcd/efgh ", ws);
    PeerLosesText("5/abcd/efgh ");
  }

  // ---- any text

  /** A word and whatever follows it. */
  lemma FirstWord(w: string, rest: string, s: string)
    requires IsWord(w) && s == w + (" " + rest)
    ensures AllTokens(Words, s) == [w] + TokensAfter(Words, rest, 0, |rest|)
  {
    assert s == w + [' '] + rest;
    TokensFirst(Words, w, ' ', rest, s);
  }

  lemma WordFollows(w: string, rest: string, s: string)
    requires IsWord(w) && w != "" && s == w + (" " + rest)
    ensures TokensAfter(Words, s, 0, |s|) == [w] + TokensAfter(Words, rest, 0, |rest|)
  {
    assert s[0] == w[0] && !IsSep(Words, w[0]);
    BlankEndIs(s, 0, |s|, 0);
    FirstWord(w, rest, s);
  }

  /** Whatever the name, a precommit arrives as one or is refused. */
  lemma PrecommitShape(user: string)
    ensures Parse(PrecommitLine(user)).Precommit? || Parse(PrecommitLine(user)).Bad?
  {
    var s := "precommit" + (" " + user);
    ChopBlank(s);
    CommandWords();
    FirstWord("precommit", user, s);
    var c := AllTokens(Words, s);
    ParsePrecommitWords(c, c[1..]);
  }

  /** Whatever the message, the commit of a write names its number or is refused. */
  lemma WriteShape(id: string, message: string)
    requires IsWord(id) && id != ""
    ensures var m := Parse(CommitWriteLine(id, message)); m.Bad? || (m.CommitWrite? && m.id == id)
  {
    var s2 := id + (" " + message);
    var s1 := "write" + (" " + s2);
    var s := "commit" + (" " + s1);
    assert CommitWriteLine(id, message) == s + " ";
    ChopBlank(s);
    CommandWords();
    FirstWord("commit", s1, s);
    WordFollows("write", s2, s1);
    WordFollows(id, message, s2);
    ParseWriteWords(AllTokens(Words, s), id, TokensAfter(Words, message, 0, |message|));
  }

  /** Whatever the message, the commit of a replace names its number or is refused. */
  lemma ReplaceShape(id: string, message: string)
    requires IsWord(id) && id != "" && '/' !in id
    ensures var m := Parse(CommitReplaceLine(id, message)); m.Bad? || (m.CommitReplace? && m.id == id)
  {
    var x := id + "/" + message;
    var s1 := "replace" + (" " + x);
    var s := "commit" + (" " + s1);
    assert CommitReplaceLine(id, message) == s + " ";
    ChopBlank(s);
    CommandWords();
    FirstWord("commit", s1, s);
    assert x[0] == id[0] && !IsSep(Words, id[0]);
    BlankEndIs(x, 0, |x|, 0);
    WordFollows("replace", x, s1);
    ParseReplaceWords(AllTokens(Words, s), AllTokens(Words, x));
    NumberFirst(id, message, x);
  }

  lemma NumberFirst(id: string, message: string, x: string)
    requires IsWord(id) && id != "" && '/' !in id && x == id + "/" + message
    ensures var m := ParseReplace(Trailed(AllTokens(Words, x))); m.Bad? || (m.CommitReplace? && m.id == id)
  {
    var e := FieldEnd(Words, x, 0, |x|);
    NumberInFirstWord(id, message, x);
    var y := Trailed(AllTokens(Words, x));
    assert y[..|id| + 1] == AllTokens(Words, x)[0][..|id| + 1] == x[..|id| + 1];
    assert forall j :: 0 <= j < |id| ==> y[j] == y[..|id| + 1][j] == id[j];
    assert y[|id|] == y[..|id| + 1][|id|] == '/';
    var n := if |y| < WINDOW then |y| else WINDOW;
    FieldEndIs(Fields, y, 0, n, if |id| < n then |id| else n);
    assert y[0..|id|] == id;
  }

  lemma NumberInFirstWord(id: string, message: string, x: string)
    requires IsWord(id) && x == id + "/" + message
    ensures var w := AllTokens(Words, x)[0]; |id| + 1 <= |w| && w[..|id| + 1] == x[..|id| + 1]
  {
    var e := FieldEnd(Words, x, 0, |x|);
    assert forall j :: 0 <= j < |id| ==> x[j] == id[j] && !IsSep(Words, id[j]);
    assert x[|id|] == '/';
    assert !IsSep(Words, x[|id|]) && e > |id|;
    assert AllTokens(Words, x)[0] == x[0..e] || (e == |x| && AllTokens(Words, x)[0] == x[0..]);
  }

  // ---- the requests letter by letter

  const CAPITALS := "ABCDEFGHIJKLMNOPQRSTUVWXYZ"
  const SMALLS := "abcdefghijklmnopqrstuvwxyz"

  /** Capital letters become small ones, and nothing else changes. */
  lemma LowerLetters(c: char)
    ensures forall k :: 0 <= k < 26 && c == CAPITALS[k] ==> LowerChar(c) == SMALLS[k]
    ensures c !in CAPITALS ==> LowerChar(c) == c
  {
    if 'A' <= c <= 'Z' {
      assert c == CAPITALS[(c as int) - 65];
    }
  }

  /** The same letter, but for the case of the first. */
  predicate SameLetter(c: char, d: char) {
    c == d || exists k :: 0 <= k < 26 && c == CAPITALS[k] && d == SMALLS[k]
  }

  lemma LetterAlike(c: char, d: char)
    requires SameLetter(c, d)
    ensures LowerChar(c) == LowerChar(d)
  {
    if c != d {
      var k :| 0 <= k < 26 && c == CAPITALS[k] && d == SMALLS[k];
      LowerLetters(c);
    }
  }

  /** The case of the command does not matter. */
  lemma CaseIgnored(c: seq<string>, d: seq<string>)
    requires |c| >= 1 && |d| == |c| && c[1..] == d[1..] && |c[0]| == |d[0]|
    requires forall j :: 0 <= j < |c[0]| ==> SameLetter(c[0][j], d[0][j])
    ensures ParseWords(c) == ParseWords(d)
  {
    forall j | 0 <= j < |c[0]| ensures LowerChar(c[0][j]) == LowerChar(d[0][j]) {
      LetterAlike(c[0][j], d[0][j]);
    }
    assert ToLower(c[0]) == ToLower(d[0]);
    CommandsAlike(c, d);
  }

  lemma CommandsAlike(c: seq<string>, d: seq<string>)
    requires |c| >= 1 && |d| == |c| && c[1..] == d[1..] && ToLower(c[0]) == ToLower(d[0])
    ensures ParseWords(c) == ParseWords(d)
  {
    CommitsAlike(c, d);
  }

  lemma CommitsAlike(c: seq<string>, d: seq<string>)
    requires |c| >= 1 && |d| == |c| && c[1..] == d[1..]
    ensures ParseCommit(c) == ParseCommit(d)
  {
    var e := c[1..];
    assert forall q :: 1 <= q < |c| ==> c[q] == e[q - 1] == d[q];
    if |c| > 2 { assert c[2..] == e[1..] == d[2..]; }
    if |c| > 3 { assert c[3..] == e[2..] == d[3..]; }
  }

  /** The replaces that a peer takes apart: a slash is found in the window, with something behind it there. */
  predicate Splits(c: seq<string>)
    requires |c| > 2
  {
    |ReplaceFields(Trailed(c[2..]))| >= 2
  }

  /** All that a peer does not refuse, by words. */
  lemma RefusedExactly(c: seq<string>)
    requires |c| >= 1
    ensures var w := ToLower(c[0]);
            !ParseWords(c).Bad?
            <==> || w == "abort" || w == "quit" || (w == "precommit" && |c| >= 2)
                 || (w == "commit" && |c| >= 4 && c[1] == "write")
                 || (w == "commit" && |c| >= 3 && c[1] == "replace" && Splits(c))
  {
    assert |"commit"| == 6 && |"abort"| == 5 && |"quit"| == 4 && |"precommit"| == 9;
    assert |"replace"| == 7 && |"write"| == 5;
  }

  /** The lines that the master sends. */
  lemma RequestLines(user: string, id: string, message: string)
    ensures PrecommitLine(user) == "precommit " + user + " "
    ensures CommitWriteLine(id, message) == "commit write " + id + " " + message + " "
    ensures CommitReplaceLine(id, message) == "commit replace " + id + "/" + message + " "
    ensures Parse("abort ") == Abort && Parse("quit ") == Quit
  {
    ClosingHeard();
    LineStart("commit", "write", id + (" " + message));
    LineStart("commit", "replace", id + "/" + message);
  }

  lemma LineStart(a: string, b: string, rest: string)
    ensures a + (" " + b + (" " + rest)) == a + " " + b + " " + rest
  {
  }
}
