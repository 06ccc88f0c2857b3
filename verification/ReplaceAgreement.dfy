/**
 When the master and a peer store the same for a replace.  The peer puts a blank behind every word and looks for
 slashes in the first seven characters only.
 */
module ReplaceAgreement {
  import opened Common
  import opened Tokenize
  import opened LineCodec
  import opened FieldText
  import opened PeerProtocol
  import opened Wire
  import opened Agreement

  // ---- a split that looks at the start of a text only

  /** The first slash of `s[i..n]` with nothing but blanks behind it before `n`; the rest of the text is lost there. */
  function CutPoint(s: string, i: nat, n: nat): (c: nat)
    requires i <= n <= |s|
    ensures i <= c <= n && (c < n ==> s[c] == '/')
    decreases n - i
  {
    var e := FieldEnd(Fields, s, i, n);
    if e == n then n
    else if BlankEnd(s, e + 1, n) == n then e
    else CutPoint(s, BlankEnd(s, e + 1, n), n)
  }

  /** Nothing is cut: the fields are those of the whole text, but for slashes that stay in the last one. */
  lemma {:induction false} Uncut(s: string, i: nat, n: nat)
    requires i <= n <= |s| && CutPoint(s, i, n) == n
    ensures FieldsOf(Join(Tokens(Fields, s, i, n))) == Tokens(Fields, s, i, |s|)
    ensures i < n && s[i] != ' ' ==> var t := Join(Tokens(Fields, s, i, n)); t != "" && t[0] != ' '
    decreases n - i
  {
    var e := FieldEnd(Fields, s, i, n);
    FieldEndSkips(Fields, s, i, n);
    if e == n {
      TokensAppended(Fields, s[..i], s[i..], s);
    } else {
      var b := BlankEnd(s, e + 1, n);
      BlankEndSkips(s, e + 1, n);
      BlankEndIs(s, e + 1, |s|, b);
      FieldEndIs(Fields, s, i, |s|, e);
      Uncut(s, b, n);
      var t, ts := s[i..e], Tokens(Fields, s, b, n);
      UncutJoin(t, ts);
      FieldAndMore(s, i, n, e, b, t, ts);
      FieldAndMore(s, i, |s|, e, b, t, Tokens(Fields, s, b, |s|));
    }
  }

  lemma UncutJoin(t: string, ts: seq<string>)
    requires '/' !in t && |ts| >= 1 && Join(ts) != "" && Join(ts)[0] != ' '
    ensures FieldsOf(Join([t] + ts)) == [t] + FieldsOf(Join(ts))
    ensures Join([t] + ts) == t + "/" + Join(ts)
  {
    assert ([t] + ts)[1..] == ts;
    TokensFirst(Fields, t, '/', Join(ts), Join([t] + ts));
    NoLeadingBlank(Join(ts));
  }

  lemma CutHere(s: string, i: nat, n: nat, c: nat)
    requires i <= c < n <= |s| && FieldEnd(Fields, s, i, n) == c && BlankEnd(s, c + 1, n) == n
    ensures Tokens(Fields, s, i, n) == [s[i..c]]
    ensures Tokens(Fields, s[..c + 1], i, c + 1) == [s[i..c]]
  {
    var s1 := s[..c + 1];
    FieldEndSkips(Fields, s, i, n);
    FieldEndIs(Fields, s1, i, c + 1, c);
    assert s1[i..c] == s[i..c];
    assert TokensAfter(Fields, s1, c + 1, c + 1) == [];
    assert TokensAfter(Fields, s, c + 1, n) == [];
  }

  lemma FieldAndMore(s: string, i: nat, n: nat, e: nat, b: nat, t: string, ts: seq<string>)
    requires i <= e < n <= |s| && FieldEnd(Fields, s, i, n) == e && BlankEnd(s, e + 1, n) == b < n
    requires s[i..e] == t && Tokens(Fields, s, b, n) == ts
    ensures Tokens(Fields, s, i, n) == [t] + ts
  {
  }

  lemma CutLater(s: string, i: nat, n: nat, c: nat, b: nat, ts: seq<string>) returns (t: string)
    requires i <= n <= |s| && FieldEnd(Fields, s, i, n) < n
    requires b == BlankEnd(s, FieldEnd(Fields, s, i, n) + 1, n) <= c < n
    requires s[c] == '/' && ts == Tokens(Fields, s, b, n) == Tokens(Fields, s[..c + 1], b, c + 1)
    ensures Tokens(Fields, s, i, n) == [t] + ts
    ensures Tokens(Fields, s[..c + 1], i, c + 1) == [t] + ts
  {
    var s1, e := s[..c + 1], FieldEnd(Fields, s, i, n);
    FieldEndSkips(Fields, s, i, n);
    FieldEndIs(Fields, s1, i, c + 1, e);
    BlankEndSkips(s, e + 1, n);
    BlankEndIs(s1, e + 1, c + 1, b);
    t := s[i..e];
    assert s1[i..e] == t;
    FieldAndMore(s, i, n, e, b, t, ts);
    FieldAndMore(s1, i, c + 1, e, b, t, ts);
  }

  /** Up to the cut the fields are those of the text in front of it. */
  lemma {:induction false} CutTokens(s: string, i: nat, n: nat, c: nat)
    requires i <= n <= |s| && c == CutPoint(s, i, n) < n
    ensures Tokens(Fields, s, i, n) == Tokens(Fields, s[..c + 1], i, c + 1)
    decreases n - i
  {
    var b := BlankEnd(s, FieldEnd(Fields, s, i, n) + 1, n);
    if b == n {
      CutHere(s, i, n, c);
    } else {
      CutTokens(s, b, n, c);
      var t := CutLater(s, i, n, c, b, Tokens(Fields, s, b, n));
    }
  }

  /** What the cut leaves of a text: all of it exactly if there is nothing behind the cut and a field in front of it. */
  predicate CutHarmless(y: string, c: nat)
    requires c < |y|
  {
    AllBlank(y[c + 1..]) && !OpenAt(y[..c])
  }

  /** The peer finds the whole text of a replace. */
  predicate WindowKeeps(y: string) {
    |y| < WINDOW || CutPoint(y, 0, WINDOW) == WINDOW || CutHarmless(y, CutPoint(y, 0, WINDOW))
  }

  /** The fields of what the peer puts together from its split. */
  function PeerFields(y: string): seq<string> {
    FieldsOf(Join(ReplaceFields(y)))
  }

  lemma {:induction false} SizePositive(ts: seq<string>)
    ensures ts == [] <==> Size(ts) == 0
    ensures ts != [] ==> Size(ts) >= |ts[|ts| - 1]| + 1
  {
    if |ts| > 1 { SizePositive(ts[1..]); }
  }

  lemma SizeDropLast(ts: seq<string>)
    requires ts != []
    ensures Size(ts) == Size(ts[..|ts| - 1]) + |ts[|ts| - 1]| + 1
  {
    var k := |ts| - 1;
    SizeConcat(ts[..k], [ts[k]]);
    assert ts == ts[..k] + [ts[k]];
  }

  /** A request shorter than the window loses nothing. */
  lemma ShortWindow(y: string)
    requires |y| < WINDOW && y != "" && y[0] != ' '
    ensures PeerFields(y) == FieldsOf(y)
  {
    TokensClean(y, 0, |y|);
    NoLeadingBlank(y);
    var ts := FieldsOf(y);
    if OpenAt(y) {
      var us := ts + [""];
      assert us[..|us| - 1] == ts;
      TokensOfJoin(us);
    } else {
      ClosedEnd(y);
      assert ts + [] == ts;
      TokensOfJoin(ts);
    }
  }

  /** The last field in front of a slash is empty exactly if the slash stands where blanks are skipped. */
  lemma SlashCloses(g: string)
    requires g != "" && g[0] != ' '
    ensures var ts := FieldsOf(g + "/"); ts[|ts| - 1] == "" <==> OpenAt(g)
  {
    NoLeadingBlank(g + "/");
    if OpenAt(g) {
      var p := OpenSlash(g);
    } else {
      ClosedSlash(g);
    }
  }

  lemma LostTail(d: seq<string>, r: seq<string>, us: seq<string>)
    requires d != [] && us == if d[|d| - 1] == "" then d[..|d| - 1] else d
    ensures Lost(d + r, us, r == [] && d[|d| - 1] != "")
    ensures Size(us) + Size(r) <= Size(d + r)
  {
    SizeConcat(d, r);
    SizePositive(r);
    SizeDropLast(d);
    if r == [] { assert d + r == d; }
  }

  /** What is cut off. */
  lemma CutWindow(y: string, n: nat, c: nat)
    requires n <= |y| && c == CutPoint(y, 0, n) < n && c > 0 && y[0] != ' ' && y[0] != '/'
    ensures var us := FieldsOf(Join(Tokens(Fields, y, 0, n)));
            && Lost(FieldsOf(y), us, CutHarmless(y, c))
            && Size(us) + Size(After(y[c + 1..])) <= Size(FieldsOf(y))
  {
    var g, rest := y[..c], y[c + 1..];
    CutTokens(y, 0, n, c);
    assert y[..c + 1] == g + "/";
    CutFields(g, rest, y);
  }

  lemma CutFields(g: string, rest: string, y: string)
    requires g != "" && g[0] != ' ' && g[0] != '/' && y == g + "/" + rest
    ensures var us := FieldsOf(Join(FieldsOf(g + "/")));
            && Lost(FieldsOf(y), us, AllBlank(rest) && !OpenAt(g))
            && Size(us) + Size(After(rest)) <= Size(FieldsOf(y))
  {
    AllTokensSlash(g, rest, y);
    GluedBack(g);
    SlashCloses(g);
    AfterStarts(rest);
    LostTail(FieldsOf(g + "/"), After(rest), FieldsOf(Join(FieldsOf(g + "/"))));
  }

  lemma GluedBack(g: string)
    requires g != "" && g[0] != ' ' && g[0] != '/'
    ensures var d := FieldsOf(g + "/"); FieldsOf(Join(d)) == if d[|d| - 1] == "" then d[..|d| - 1] else d
  {
    TokensClean(g + "/", 0, |g + "/"|);
    TokensOfJoin(FieldsOf(g + "/"));
    OneFieldIs(g);
  }

  lemma OneFieldIs(g: string)
    requires g != "" && g[0] != ' '
    ensures var d := FieldsOf(g + "/"); |d| == 1 ==> d[0] != "" || g[0] == '/'
  {
    var s := g + "/";
    var e := FieldEnd(Fields, s, 0, |s|);
    if e == 0 { assert s[0] == g[0]; } else { assert s[0..e] != ""; }
  }

  /** What the peer gets of the text of a request. */
  lemma WindowLost(y: string)
    requires y != "" && y[0] != ' ' && y[0] != '/'
    ensures Lost(FieldsOf(y), PeerFields(y), WindowKeeps(y))
    ensures !OpenAt(y) && !WindowKeeps(y) ==> Size(PeerFields(y)) + 2 <= Size(FieldsOf(y))
  {
    if |y| < WINDOW {
      ShortWindow(y);
    } else {
      var c := CutPoint(y, 0, WINDOW);
      if c == WINDOW {
        Uncut(y, 0, WINDOW);
      } else {
        CutWindow(y, WINDOW, c);
        if !OpenAt(y) { CutVisible(y, c); }
      }
    }
  }

  lemma CutVisible(y: string, c: nat)
    requires c < |y| && y[c] == '/' && !OpenAt(y) && y[0] != ' '
    ensures !AllBlank(y[c + 1..]) && Size(After(y[c + 1..])) >= 2
  {
    var g, rest := y[..c], y[c + 1..];
    assert y == g + "/" + rest;
    ClosedEnd(y);
    AfterSlash(g, rest, y);
    AfterStarts(rest);
    if AllBlank(rest) {
      BlankEndSkips(rest, 0, |rest|);
      OpenIfBlank(g, rest, y);
    }
    var ts := After(rest);
    assert After(y)[|After(y)| - 1] == ts[|ts| - 1];
    SizePositive(ts);
  }

  // ---- the words of a replace

  /** The words of a text, one more at every blank. */
  function Pieces(x: string): (ws: seq<string>)
    ensures |ws| >= 1
  {
    if |x| == 0 then [""]
    else
      var ws := Pieces(x[1..]);
      if x[0] == ' ' then [""] + ws else [[x[0]] + ws[0]] + ws[1..]
  }

  lemma SpacedBlank(ws: seq<string>)
    requires |ws| >= 1 && AllWords(ws)
    ensures Spaced([""] + ws) == " " + Spaced(ws) && AllWords([""] + ws)
  {
    assert ([""] + ws)[1..] == ws;
    assert Padded(ws) == " " + ws[0] + Padded(ws[1..]);
  }

  lemma SpacedChar(c: char, ws: seq<string>)
    requires |ws| >= 1 && AllWords(ws) && !IsSep(Words, c)
    ensures Spaced([[c] + ws[0]] + ws[1..]) == [c] + Spaced(ws) && AllWords([[c] + ws[0]] + ws[1..])
  {
    assert ([[c] + ws[0]] + ws[1..])[1..] == ws[1..];
  }

  lemma {:induction false} SpacedPieces(x: string)
    requires '=' !in x
    ensures Spaced(Pieces(x)) == x && AllWords(Pieces(x))
  {
    if |x| > 0 {
      SpacedPieces(x[1..]);
      assert x == [x[0]] + x[1..];
      if x[0] == ' ' {
        SpacedBlank(Pieces(x[1..]));
      } else {
        SpacedChar(x[0], Pieces(x[1..]));
      }
    }
  }

  lemma {:induction false} PiecesStart(x: string, k: nat)
    requires k <= |x| && forall j :: 0 <= j < k ==> x[j] != ' '
    ensures k <= |Pieces(x)[0]| && Pieces(x)[0][..k] == x[..k]
    decreases |x|
  {
    if k > 0 {
      PiecesStart(x[1..], k - 1);
      assert x[..k] == [x[0]] + x[1..][..k - 1];
    }
  }

  /** What the peer makes of the text of a replace before it splits it. */
  function PeerText(x: string): string {
    Trailed(NonEmpty(Pieces(x)))
  }

  /** The text of a replace, its number included, is seen alike: no word is lost where it shows, the text ends in a
      blank or a slash, as the blank that the peer puts there, and nothing shown is behind the window. */
  predicate TextSurvives(x: string) {
    var ws := Pieces(x);
    var l := ws[|ws| - 1];
    && Skipped(true, if l == "" then ws[..|ws| - 1] else ws)
    && (l == "" || EndsInSlash(l))
    && WindowKeeps(PeerText(x))
  }

  lemma {:induction false} NonEmptyAppend(ws: seq<string>)
    ensures NonEmpty(ws + [""]) == NonEmpty(ws)
  {
    if |ws| == 0 {
      assert ws + [""] == [""];
      assert NonEmpty([""]) == NonEmpty([]);
    } else {
      NonEmptyAppend(ws[1..]);
      assert (ws + [""])[1..] == ws[1..] + [""];
    }
  }

  lemma {:induction false} NonEmptyLast(ws: seq<string>)
    requires |ws| >= 1 && ws[|ws| - 1] != ""
    ensures NonEmpty(ws) != [] && NonEmpty(ws)[|NonEmpty(ws)| - 1] == ws[|ws| - 1]
  {
    if |ws| > 1 { NonEmptyLast(ws[1..]); }
  }

  lemma {:induction false} SpacedEnd(ws: seq<string>)
    requires |ws| >= 1 && ws[|ws| - 1] != ""
    ensures var s, l := Spaced(ws), ws[|ws| - 1]; s != "" && s[|s| - 1] == l[|l| - 1]
  {
    if |ws| > 1 {
      SpacedEnd(ws[1..]);
      assert Padded(ws[1..]) == " " + Spaced(ws[1..]);
    } else {
      assert Padded(ws[1..]) == "";
    }
  }

  /** A text whose last word is not empty is open exactly if that word ends in a slash. */
  lemma SpacedOpen(ws: seq<string>)
    requires |ws| >= 1 && AllWords(ws) && ws[|ws| - 1] != ""
    ensures OpenAt(Spaced(ws)) == EndsInSlash(ws[|ws| - 1])
    ensures Spaced(ws) != "" && Spaced(ws)[|Spaced(ws)| - 1] != ' '
  {
    SpacedEnd(ws);
    var l := ws[|ws| - 1];
    assert IsWord(l) && !IsSep(Words, l[|l| - 1]);
  }

  lemma WordOpen(w: string)
    requires w != "" && IsWord(w)
    ensures OpenAt(w) == EndsInSlash(w)
  {
    assert !IsSep(Words, w[|w| - 1]);
  }

  /** A text that ends in a blank. */
  lemma BlankText(ws: seq<string>, x: string, y: string)
    requires |ws| >= 1 && AllWords(ws) && ws[0] != "" && x == Spaced(ws + [""]) && y == Trailed(NonEmpty(ws + [""]))
    ensures Lost(After(x), After(y), Skipped(true, ws))
  {
    var w, tail := ws[0], ws[1..];
    NonEmptyAppend(ws);
    NonEmptyHead(ws);
    TrailedSpaced(NonEmpty(ws));
    assert (ws + [""])[1..] == tail + [""];
    PaddedSnoc(tail, "");
    assert x == w + (Padded(tail) + " ") && y == w + (Padded(NonEmpty(tail)) + " ");
    Squeeze(w, tail, " ");
    WordOpen(w);
  }

  lemma NonEmptyHead(ws: seq<string>)
    requires |ws| >= 1 && ws[0] != ""
    ensures NonEmpty(ws) != [] && NonEmpty(ws)[0] == ws[0] && NonEmpty(ws)[1..] == NonEmpty(ws[1..])
  {
    assert NonEmpty(ws) == [ws[0]] + NonEmpty(ws[1..]);
  }

  /** A text that does not, before the peer puts a blank behind it. */
  lemma SolidText(ws: seq<string>)
    requires |ws| >= 1 && AllWords(ws) && ws[0] != ""
    ensures NonEmpty(ws) != [] && Lost(After(Spaced(ws)), After(Spaced(NonEmpty(ws))), Skipped(true, ws))
  {
    var w, tail := ws[0], ws[1..];
    NonEmptyHead(ws);
    assert Padded(tail) + "" == Padded(tail) && Padded(NonEmpty(tail)) + "" == Padded(NonEmpty(tail));
    Squeeze(w, tail, "");
    WordOpen(w);
  }

  lemma LostTwice(ts: seq<string>, us: seq<string>, vs: seq<string>, same: bool, same': bool)
    requires Lost(ts, us, same) && Lost(us, vs, same')
    ensures Lost(ts, vs, same && same')
  {
  }

  lemma LostBehind(t: string, ts: seq<string>, us: seq<string>, same: bool)
    requires Lost([t] + ts, [t] + us, same)
    ensures Lost(ts, us, same)
  {
    assert ([t] + ts)[1..] == ts && ([t] + us)[1..] == us;
  }

  /** The peer finds the number of a replace exactly if it has at most five characters. */
  lemma ReplaceNumber(id: string, y: string)
    requires '/' !in id && id != "" && |id| + 1 < |y| && y[..|id|] == id && y[|id|] == '/' && y[|id| + 1] != ' '
    requires |id| + 2 < |y|
    ensures |ReplaceFields(y)| >= 2 <==> |id| <= 5
    ensures |id| <= 5 ==> ReplaceFields(y)[0] == id
  {
    var n := if |y| < WINDOW then |y| else WINDOW;
    var k := if |id| < n then |id| else n;
    assert forall j :: 0 <= j < |id| ==> y[j] == y[..|id|][j];
    FieldEndIs(Fields, y, 0, n, k);
    if |id| < n {
      assert y[0..|id|] == id;
      TokensCut(Fields, y, 0, n, |id|, |id| + 1);
    }
  }

  lemma FieldsBehindNumber(id: string, m: string)
    requires '/' !in id && id != "" && id[0] != ' '
    ensures FieldsOf(id + "/" + m) == [id] + After(m)
    ensures After(id + "/" + m) == FieldsOf(id + "/" + m)
  {
    var x := id + "/" + m;
    TokensFirst(Fields, id, '/', m, x);
    assert x[0] == id[0];
    NoLeadingBlank(x);
  }

  ghost predicate ReplaceText(id: string, m: string) {
    IsWord(id) && id != "" && '/' !in id && '=' !in m && m != "" && m[0] != ' '
  }

  /** The text a peer reads starts as the one that was sent. */
  lemma PeerTextStarts(id: string, m: string)
    requires ReplaceText(id, m)
    ensures var x, y := id + "/" + m, PeerText(id + "/" + m);
            && AllWords(Pieces(x)) && Spaced(Pieces(x)) == x && Pieces(x)[0] != "" && NonEmpty(Pieces(x)) != []
            && |id| + 2 < |y| && y == id + "/" + y[|id| + 1..] && y[|id| + 1] == m[0]
            && y == Spaced(NonEmpty(Pieces(x))) + " "
  {
    var x, k := id + "/" + m, |id| + 2;
    assert '=' !in id by { forall j | 0 <= j < |id| ensures id[j] != '=' { assert !IsSep(Words, id[j]); } }
    SpacedPieces(x);
    forall j | 0 <= j < k ensures x[j] != ' ' {
      assert j < |id| ==> x[j] == id[j] && !IsSep(Words, id[j]);
    }
    PiecesStart(x, k);
    var ws := Pieces(x);
    TrailedSpaced(NonEmpty(ws));
    var y := PeerText(x);
    assert y[..k] == ws[0][..k] == x[..k];
    assert y == y[..|id|] + [y[|id|]] + y[|id| + 1..];
    assert x[..k][|id|] == '/' && x[..k][|id| + 1] == m[0] && x[..k][..|id|] == id;
  }

  /** What the peer shows of the text against what the master shows, if the text survives or ends in a blank or a
      slash. */
  lemma TextLost(id: string, m: string)
    requires ReplaceText(id, m)
    ensures var ws := Pieces(id + "/" + m);
            var x, y, l := id + "/" + m, PeerText(id + "/" + m), ws[|ws| - 1];
            && (l == "" ==> Lost(After(x), After(y), Skipped(true, ws[..|ws| - 1])))
            && (l != "" && EndsInSlash(l) ==> Lost(After(x), After(y), Skipped(true, ws)))
            && (l != "" && !EndsInSlash(l) ==> !OpenAt(x) && !OpenAt(y) && Size(After(y)) <= Size(After(x)) + 1
                                               && x[|x| - 1] != ' ' && y[|y| - 1] == ' ')
  {
    PeerTextStarts(id, m);
    var x, y, ws := id + "/" + m, PeerText(id + "/" + m), Pieces(id + "/" + m);
    var l := ws[|ws| - 1];
    if l == "" {
      var vs := ws[..|ws| - 1];
      assert ws == vs + [""];
      BlankText(vs, x, y);
    } else {
      var q := Spaced(NonEmpty(ws));
      SolidText(ws);
      NonEmptyLast(ws);
      NonEmptyWords(ws);
      SpacedOpen(ws);
      SpacedOpen(NonEmpty(ws));
      assert q + "" == q && q + (" " + "") == y;
      if EndsInSlash(l) { OpenBlank(q, ""); } else { ClosedBlank(q, ""); assert y[..|y| - 1] == q; }
    }
  }

  /** The fields of the texts are those of their messages behind the number. */
  lemma TextFields(id: string, m: string)
    requires ReplaceText(id, m)
    ensures FieldsOf(id + "/" + m) == [id] + After(m) && After(id + "/" + m) == [id] + After(m)
    ensures var y := PeerText(id + "/" + m);
            && |id| + 1 < |y| && y != "" && y[0] != ' ' && y[0] != '/' && After(y) == FieldsOf(y)
            && FieldsOf(y) == [id] + After(y[|id| + 1..]) && After(y[|id| + 1..]) != []
    ensures After(m) != []
  {
    PeerTextStarts(id, m);
    var y := PeerText(id + "/" + m);
    var ym := y[|id| + 1..];
    assert id[0] != ' ' by { assert !IsSep(Words, id[0]); }
    FieldsBehindNumber(id, m);
    FieldsBehindNumber(id, ym);
    NoLeadingBlank(m);
    AfterStarts(m);
    NoLeadingBlank(ym);
    AfterStarts(ym);
    assert y[0] == id[0];
  }

  /** The last field behind the number, if the text ends in the middle of it. */
  lemma LastBehind(id: string, x: string, ts: seq<string>)
    requires !OpenAt(x) && x != "" && After(x) == [id] + ts && ts != []
    ensures ts[|ts| - 1] != "" && ts[|ts| - 1][|ts[|ts| - 1]| - 1] == x[|x| - 1]
  {
    ClosedEnd(x);
    assert ([id] + ts)[|ts|] == ts[|ts| - 1];
  }

  /** The last fields end in different characters. */
  predicate DifferentEnds(ts: seq<string>, us: seq<string>) {
    && ts != [] && us != []
    && var t, u := ts[|ts| - 1], us[|us| - 1]; t != "" && u != "" && t[|t| - 1] != u[|u| - 1]
  }

  ghost predicate EndsInField(id: string, m: string) {
    var ws := Pieces(id + "/" + m);
    ws[|ws| - 1] != "" && !EndsInSlash(ws[|ws| - 1])
  }

  lemma TextEnds(id: string, m: string)
    requires ReplaceText(id, m) && EndsInField(id, m)
    ensures var x, y := id + "/" + m, PeerText(id + "/" + m);
            x != "" && y != "" && !OpenAt(x) && !OpenAt(y) && x[|x| - 1] != y[|y| - 1]
  {
    TextLost(id, m);
    TextFields(id, m);
  }

  /** The peer shows a blank at the end that the master does not show. */
  lemma BlankShowsKept(id: string, m: string, user: string, user': string, pm: string)
    requires ReplaceText(id, m) && EndsInField(id, m)
    requires PeerFields(PeerText(id + "/" + m)) == [id] + After(pm) && WindowKeeps(PeerText(id + "/" + m))
    ensures Reading(user', pm) != Reading(user, m)
  {
    TextEnds(id, m);
    TextFields(id, m);
    var y := PeerText(id + "/" + m);
    SameFields(id, y, After(y[|id| + 1..]), After(pm));
    LastsDiffer(id, id + "/" + m, After(m), y, After(pm));
    EndsDiffer(user, m, user', pm);
  }

  lemma LastsDiffer(id: string, x: string, ts: seq<string>, y: string, us: seq<string>)
    requires x != "" && !OpenAt(x) && After(x) == [id] + ts && ts != []
    requires y != "" && !OpenAt(y) && After(y) == [id] + us && us != []
    requires x[|x| - 1] != y[|y| - 1]
    ensures DifferentEnds(ts, us)
  {
    LastBehind(id, x, ts);
    LastBehind(id, y, us);
  }

  lemma EndsDiffer(user: string, message: string, user': string, message': string)
    requires DifferentEnds(After(message), After(message'))
    ensures Reading(user', message') != Reading(user, message)
  {
    ShownEnd(user, message);
    ShownEnd(user', message');
  }

  lemma SameFields(id: string, y: string, ts: seq<string>, us: seq<string>)
    requires y != "" && y[0] != ' ' && y[0] != '/' && WindowKeeps(y)
    requires FieldsOf(y) == [id] + ts && PeerFields(y) == [id] + us
    ensures ts == us
  {
    WindowLost(y);
    LostBehind(id, ts, us, true);
  }

  /** A text that goes on in a field to its end does not survive. */
  lemma BlankShows(id: string, m: string, user: string, user': string, pm: string, same: bool)
    requires ReplaceText(id, m) && Lost(After(user + "/"), After(user' + "/"), same) && EndsInField(id, m)
    requires PeerFields(PeerText(id + "/" + m)) == [id] + After(pm)
    ensures Reading(user', pm) != Reading(user, m)
  {
    var y := PeerText(id + "/" + m);
    if WindowKeeps(y) {
      BlankShowsKept(id, m, user, user', pm);
    } else {
      TextLost(id, m);
      TextFields(id, m);
      WindowLost(y);
      SizeConcat([id], After(pm));
      SizeConcat([id], After(m));
      BehindParts(user, m);
      EntriesDiffer(user, m, user', pm, same, false);
    }
  }

  /** A text that ends in a blank or a slash. */
  lemma TextStored(id: string, m: string, user: string, user': string, pm: string, same: bool)
    requires ReplaceText(id, m) && Lost(After(user + "/"), After(user' + "/"), same) && !EndsInField(id, m)
    requires PeerFields(PeerText(id + "/" + m)) == [id] + After(pm)
    ensures Reading(user', pm) == Reading(user, m) <==> same && TextSurvives(id + "/" + m)
  {
    var x, y, ws := id + "/" + m, PeerText(id + "/" + m), Pieces(id + "/" + m);
    var l := ws[|ws| - 1];
    TextLost(id, m);
    TextFields(id, m);
    WindowLost(y);
    var kept := Skipped(true, if l == "" then ws[..|ws| - 1] else ws);
    LostTwice(FieldsOf(x), FieldsOf(y), PeerFields(y), kept, WindowKeeps(y));
    LostBehind(id, After(m), After(pm), kept && WindowKeeps(y));
    BehindParts(user, m);
    EntriesDiffer(user, m, user', pm, same, kept && WindowKeeps(y));
  }

  /** The numbers and messages of replaces: a message does not start with a blank, but it may be empty. */
  ghost predicate MasterSends(id: string, m: string) {
    RunId(id) && '=' !in m && (m == "" || m[0] != ' ')
  }

  /** Name and text of a replace are seen alike.  Without a message it matters whether the user has a slash, since a
      line without one has no entry then. */
  predicate ReplaceSurvives(names: seq<string>, id: string, m: string) {
    if m == "" then Skipped(true, names) || !Storable(UserText(names), "")
    else Skipped(true, names) && TextSurvives(id + "/" + m)
  }

  /** A peer that accepts a replace stores what the master stores exactly if name and text survive.  It refuses a
      number of more than five characters, or four if there is no message, and a name without a word. */
  lemma ReplaceAgrees(names: seq<string>, id: string, m: string)
    requires AllWords(names) && MasterSends(id, m)
    ensures var p, c := Parse(PrecommitLine(UserText(names))), Parse(CommitReplaceLine(id, m));
            && (p.Precommit? <==> names == [] || NonEmpty(names) != [])
            && (c.CommitReplace? <==> |id| <= if m == "" then 4 else 5)
            && (p.Precommit? && c.CommitReplace? ==>
                  && c.id == id
                  && (Reading(p.user, c.message) == Reading(UserText(names), m) <==> ReplaceSurvives(names, id, m)))
  {
    PrecommitHeard(names);
    if m == "" {
      EmptyHeard(id);
      EmptyStored(names);
    } else {
      TextHeard(names, id, m);
    }
  }

  /** Without a message. */
  lemma EmptyHeard(id: string)
    requires RunId(id)
    ensures Parse(CommitReplaceLine(id, "")) == if |id| <= 4 then CommitReplace(id, "") else Bad
  {
    var x, y := id + "/", id + "/ ";
    forall j | 0 <= j < |x| ensures x[j] != ' ' && x[j] != '=' {
      assert j < |id| ==> x[j] == id[j] && !IsSep(Words, id[j]);
    }
    OnePiece(x);
    SpacedPieces(x);
    assert id + "/" + "" == x;
    ReplaceHeard(id, "", [x]);
    assert NonEmpty([x]) == [x] + NonEmpty([]);
    assert Trailed([x]) == x + " " + Trailed([]);
    assert Trailed(NonEmpty([x])) == y;
    EmptySplit(id, y);
  }

  lemma EmptySplit(id: string, y: string)
    requires RunId(id) && y == id + "/ "
    ensures ParseReplace(y) == if |id| <= 4 then CommitReplace(id, "") else Bad
  {
    var n := if |y| < WINDOW then |y| else WINDOW;
    assert forall j :: 0 <= j < |id| ==> y[j] == id[j];
    FieldEndIs(Fields, y, 0, n, if |id| < n then |id| else n);
    if |id| < n {
      assert y[0..|id|] == id;
      BlankEndIs(y, |id| + 1, n, n);
      assert Tokens(Fields, y, 0, n) == [id];
      if |y| < WINDOW {
        assert y[..|y| - 1] == id + "/";
        assert OpenAt(id + "/") && OpenAt(y);
        assert y[0] != ' ' by { assert !IsSep(Words, id[0]); }
        NoLeadingBlank(y);
        assert ReplaceFields(y) == [id, ""] && [id, ""][1..] == [""];
      }
    }
  }

  lemma EmptyStored(names: seq<string>)
    requires AllWords(names)
    ensures Reading(HeardUser(names), "") == Reading(UserText(names), "")
       <==> Skipped(true, names) || !Storable(UserText(names), "")
  {
    NamesLost(names);
    BehindParts(UserText(names), "");
    BehindParts(HeardUser(names), "");
    AfterStarts("");
    if Storable(UserText(names), "") {
      EntriesDiffer(UserText(names), "", HeardUser(names), "", Skipped(true, names), true);
    }
  }

  /** With a message. */
  lemma TextHeard(names: seq<string>, id: string, m: string)
    requires AllWords(names) && ReplaceText(id, m)
    ensures var c := Parse(CommitReplaceLine(id, m));
            && (c.CommitReplace? <==> |id| <= 5)
            && (c.CommitReplace? ==>
                  && c.id == id
                  && (Reading(HeardUser(names), c.message) == Reading(UserText(names), m)
                      <==> Skipped(true, names) && TextSurvives(id + "/" + m)))
  {
    var x, y := id + "/" + m, PeerText(id + "/" + m);
    PeerTextStarts(id, m);
    ReplaceHeard(id, m, Pieces(x));
    assert y[..|id|] == id;
    ReplaceNumber(id, y);
    if |id| <= 5 {
      ReplaceStored(names, id, m, Join(ReplaceFields(y)[1..]));
    }
  }

  lemma ReplaceStored(names: seq<string>, id: string, m: string, pm: string)
    requires AllWords(names) && ReplaceText(id, m)
    requires var ts := ReplaceFields(PeerText(id + "/" + m)); |ts| >= 2 && ts[0] == id && pm == Join(ts[1..])
    ensures Reading(HeardUser(names), pm) == Reading(UserText(names), m)
       <==> Skipped(true, names) && TextSurvives(id + "/" + m)
  {
    var ts := ReplaceFields(PeerText(id + "/" + m));
    assert Join(ts) == id + "/" + pm;
    assert id[0] != ' ' by { assert !IsSep(Words, id[0]); }
    FieldsBehindNumber(id, pm);
    NamesLost(names);
    if EndsInField(id, m) {
      BlankShows(id, m, UserText(names), HeardUser(names), pm, Skipped(true, names));
    } else {
      TextStored(id, m, UserText(names), HeardUser(names), pm, Skipped(true, names));
    }
  }

  // ---- the texts that the master sends

  lemma {:induction false} TrailedChars(ws: seq<string>)
    requires AllWords(ws)
    ensures '=' !in Trailed(ws)
  {
    if |ws| > 0 {
      TrailedChars(ws[1..]);
      forall j | 0 <= j < |ws[0]| ensures ws[0][j] != '=' { assert IsWord(ws[0]) && !IsSep(Words, ws[0][j]); }
    }
  }

  /** Number and message that the master takes out of a request of words are as they should be, but for an empty
      number. */
  lemma MasterText(ws: seq<string>)
    requires |ws| >= 1 && AllWords(ws) && MasterReplace(ws).Some?
    ensures var (id, m) := MasterReplace(ws).value; id != "" ==> MasterSends(id, m)
  {
    var r, w := Trailed(ws), ws[0];
    var e, all := FieldEnd(Fields, r, 0, |w|), Tokens(Fields, r, 0, |w|);
    assert |all| >= 2 && e < |w|;
    var b := BlankEnd(r, e + 1, |w|);
    assert all == [r[0..e]] + TokensAfter(Fields, r, e + 1, |w|);
    assert b < |w|;
    FieldEndSkips(Fields, r, 0, |w|);
    TrailedChars(ws);
    assert r[..|w|] == w;
    var ts := Tokens(Fields, r, b, |w|);
    assert ([r[0..e]] + ts)[1..] == ts;
    JoinTokensChars(r, b, |w|, '=');
    WordStart(w, r, e);
    TokensStart(r, b, |w|);
    assert all == [r[0..e]] + ts;
  }

  lemma WordStart(w: string, r: string, e: nat)
    requires IsWord(w) && e <= |w| <= |r| && r[..|w|] == w
    ensures IsWord(r[0..e])
  {
    forall j | 0 <= j < e ensures !IsSep(Words, r[0..e][j]) { assert r[0..e][j] == r[..|w|][j] == w[j]; }
  }

  lemma TokensStart(r: string, b: nat, n: nat)
    requires b < n <= |r| && r[b] != ' '
    ensures var m := Join(Tokens(Fields, r, b, n)); m != "" ==> m[0] != ' '
  {
    var e := FieldEnd(Fields, r, b, n);
    if e < n && e > b { assert r[b..e][0] == r[b]; }
  }

  lemma CutRequest(w: string, r: string)
    requires w == "5/ab/" && r == "5/ab/ "
    ensures Trailed([w]) == r && MasterReplace([w]) == Some(("5", "ab"))
  {
    assert Trailed([w]) == w + " " + Trailed([]);
    TokensCut(Fields, r, 0, 5, 1, 2);
    TokensCut(Fields, r, 2, 5, 4, 5);
    assert r[0..1] == "5" && r[2..4] == "ab";
    assert Tokens(Fields, r, 0, 5) == ["5", "ab"] && ["5", "ab"][1..] == ["ab"];
  }

  lemma {:induction false} OnePiece(x: string)
    requires ' ' !in x
    ensures Pieces(x) == [x]
  {
    if |x| > 0 {
      OnePiece(x[1..]);
      assert [x[0]] + x[1..] == x;
    }
  }

  /** The master cuts a text behind the slash at the end of its first word, and the peers put a blank there. */
  lemma CutText()
    ensures MasterReplace(["5/ab/"]) == Some(("5", "ab"))
    ensures !TextSurvives("5/ab")
  {
    CutRequest("5/ab/", "5/ab/ ");
    OnePiece("5/ab");
  }
}
